/** The canonical CBOR subset: unsigned integers, byte strings and arrays with shortest arguments.

    Encoders are written with an explicit tail, `Put...(value, tail)`, and parsers return the bytes
    they leave, so that "encode then parse" and "parse then encode" are plain equations. */
module Cbor {
  import opened Base

  const UNSIGNED: nat := 0
  const BYTE_STRING: nat := 2
  const ARRAY: nat := 4

  /** A decoding failure. Offsets and field labels, which are only displayed, are not kept. */
  datatype DecodeError =
    | FrameTooLarge
    | Truncated
    | ReservedVersion
    | UnsupportedVersion(version: Byte, requestId: RequestId)
    | NonCanonicalArgument
    | UnexpectedType
    | WrongArrayLength
    | WrongByteStringLength
    | ByteStringTooLarge
    | InvalidValue
    | UnknownBlobCommand
    | TrailingBytes
    | InvalidProtocolValue

  datatype Parsed<+T> = Ok(value: T, rest: Bytes) | Fail(error: DecodeError) {
    predicate IsFailure() {
      Fail?
    }
    function PropagateFailure<U>(): Parsed<U>
      requires Fail?
    {
      Fail(error)
    }
    function Extract(): (T, Bytes)
      requires Ok?
    {
      (value, rest)
    }
    /** Only the preamble refuses a version or a size, and only the head of a blob payload a command. */
    predicate Ordinary() {
      Fail? ==> !error.UnsupportedVersion? && !error.FrameTooLarge? && !error.UnknownBlobCommand?
    }
  }

  /** Number of argument bytes after the initial byte, in the shortest form of v. */
  function Width(v: nat): (w: nat)
    requires v < U64_LIMIT
    ensures w == 0 || v < Pow256(w)
  {
    assert Pow256(1) == 0x100 && Pow256(2) == U16_LIMIT && Pow256(4) == U32_LIMIT && Pow256(8) == U64_LIMIT;
    if v < 24 then 0 else if v < 0x100 then 1 else if v < U16_LIMIT then 2 else if v < U32_LIMIT then 4 else 8
  }

  /** The additional-information code announcing an argument width. */
  function Code(width: nat): nat {
    if width == 1 then 24 else if width == 2 then 25 else if width == 4 then 26 else 27
  }

  function PutArgument(major: nat, v: nat, tail: Bytes): (b: Bytes)
    requires major < 8 && v < U64_LIMIT
    ensures |b| == 1 + Width(v) + |tail|
  {
    var w := Width(v);
    if w == 0 then [32 * major + v] + tail else [32 * major + Code(w)] + (Be(v, w) + tail)
  }

  /** Reads one argument of the expected major type; a wider form than the value needs is refused. */
  function ParseArgument(b: Bytes, major: nat): (p: Parsed<nat>)
    requires major < 8
    ensures p.Ok? ==> p.value < U64_LIMIT && |p.rest| < |b|
    ensures p.Ordinary()
  {
    if b == [] then Fail(Truncated)
    else if b[0] / 32 != major then Fail(UnexpectedType)
    else
      var code := b[0] % 32;
      if code < 24 then Ok(code, b[1..])
      else if code > 27 then Fail(UnexpectedType)
      else
        var w := if code == 24 then 1 else if code == 25 then 2 else if code == 26 then 4 else 8;
        if |b| < 1 + w then Fail(Truncated)
        else
          var v := FromBe(b[1..1 + w]);
          if v < Minimum(w) then Fail(NonCanonicalArgument) else Ok(v, b[1 + w..])
  }

  /** Smallest value that needs an argument of w bytes. */
  function Minimum(w: nat): nat {
    if w == 1 then 24 else if w == 2 then 0x100 else if w == 4 then U16_LIMIT else U32_LIMIT
  }

  lemma WideArgument(initial: Byte, v: nat, w: nat, tail: Bytes)
    requires v < Pow256(w)
    ensures var b := [initial] + (Be(v, w) + tail);
            b[0] == initial && FromBe(b[1..1 + w]) == v && b[1 + w..] == tail
  {
    var b := [initial] + (Be(v, w) + tail);
    assert b[1..1 + w] == Be(v, w);
    FromBeOfBe(v, w);
  }

  lemma ParseOfPutArgument(major: nat, v: nat, tail: Bytes)
    requires major < 8 && v < U64_LIMIT
    ensures ParseArgument(PutArgument(major, v, tail), major) == Ok(v, tail)
  {
    var w := Width(v);
    var b := PutArgument(major, v, tail);
    if w == 0 {
      assert b[1..] == tail;
    } else {
      WideArgument(32 * major + Code(w), v, w, tail);
      assert b[0] % 32 == Code(w);
    }
  }

  /** Each width holds its own range of values. */
  lemma WidthIs(v: nat, w: nat)
    requires v < U64_LIMIT && w in {1, 2, 4, 8}
    ensures Width(v) == w <==> Minimum(w) <= v < Pow256(w)
    ensures Width(v) < w ==> v < Minimum(w) && v < Pow256(w)
  {
    assert Pow256(1) == 0x100 && Pow256(2) == U16_LIMIT && Pow256(4) == U32_LIMIT && Pow256(8) == U64_LIMIT;
  }

  lemma PutOfParseArgument(b: Bytes, major: nat)
    requires major < 8
    requires ParseArgument(b, major).Ok?
    ensures var p := ParseArgument(b, major); b == PutArgument(major, p.value, p.rest)
  {
    var p := ParseArgument(b, major);
    var code := b[0] % 32;
    if code < 24 {
      assert b == [b[0]] + b[1..];
    } else {
      var w := if code == 24 then 1 else if code == 25 then 2 else if code == 26 then 4 else 8;
      hide Pow256, FromBe, Be, Width, Minimum;
      BeOfFromBe(b[1..1 + w]);
      WidthIs(p.value, w);
      assert b == [b[0]] + (b[1..1 + w] + b[1 + w..]);
    }
  }

  /** Every form wider than a value needs is refused, for every major type, value and width. */
  lemma WiderFormIsRefused(major: nat, v: nat, w: nat, tail: Bytes)
    requires major < 8 && v < U64_LIMIT && w in {1, 2, 4, 8} && Width(v) < w
    ensures v < Pow256(w)
    ensures ParseArgument([32 * major + Code(w)] + (Be(v, w) + tail), major) == Fail(NonCanonicalArgument)
  {
    hide Pow256, FromBe, Be, Width, Minimum;
    WidthIs(v, w);
    WideArgument(32 * major + Code(w), v, w, tail);
    assert (32 * major + Code(w)) % 32 == Code(w);
  }

  /** The reserved codes and indefinite lengths are no arguments. */
  lemma ReservedCodeIsRefused(major: nat, code: nat, tail: Bytes)
    requires major < 8 && 28 <= code < 32
    ensures ParseArgument([32 * major + code] + tail, major) == Fail(UnexpectedType)
  {
    hide FromBe;
    assert (32 * major + code) % 32 == code;
  }

  // ----- items -----

  function PutUnsigned(v: U64, tail: Bytes): (b: Bytes)
    ensures |b| == 1 + Width(v) + |tail|
  {
    PutArgument(UNSIGNED, v, tail)
  }

  function PutArray(n: U64, tail: Bytes): (b: Bytes)
    ensures |b| == 1 + Width(n) + |tail|
  {
    PutArgument(ARRAY, n, tail)
  }

  function PutBytes(s: Bytes, tail: Bytes): (b: Bytes)
    requires |s| < U64_LIMIT
    ensures |b| == 1 + Width(|s|) + |s| + |tail|
  {
    PutArgument(BYTE_STRING, |s|, s + tail)
  }

  function ParseUnsigned(b: Bytes): (p: Parsed<U64>)
    ensures p.Ok? ==> b == PutUnsigned(p.value, p.rest)
    ensures p.Ordinary()
  {
    match ParseArgument(b, UNSIGNED)
    case Fail(e) => Fail(e)
    case Ok(v, rest) => PutOfParseArgument(b, UNSIGNED); Ok(v, rest)
  }

  function ParseArrayLength(b: Bytes): (p: Parsed<U64>)
    ensures p.Ok? ==> b == PutArray(p.value, p.rest)
    ensures p.Ordinary()
  {
    match ParseArgument(b, ARRAY)
    case Fail(e) => Fail(e)
    case Ok(v, rest) => PutOfParseArgument(b, ARRAY); Ok(v, rest)
  }

  function ParseArray(b: Bytes, expected: U64): (p: Parsed<()>)
    ensures p.Ok? ==> b == PutArray(expected, p.rest)
    ensures p.Ordinary()
  {
    var (n, rest) :- ParseArrayLength(b);
    if n != expected then Fail(WrongArrayLength) else Ok((), rest)
  }

  function ParseExpected(b: Bytes, expected: U64): (p: Parsed<()>)
    ensures p.Ok? ==> b == PutUnsigned(expected, p.rest)
    ensures p.Ordinary()
  {
    var (n, rest) :- ParseUnsigned(b);
    if n != expected then Fail(InvalidValue) else Ok((), rest)
  }

  /** A byte string whose length is checked against its bound before any byte is taken. */
  function ParseBytes(b: Bytes, max: nat): (p: Parsed<Bytes>)
    requires max < U64_LIMIT
    ensures p.Ok? ==> |p.value| <= max && b == PutBytes(p.value, p.rest)
    ensures p.Ordinary()
  {
    match ParseArgument(b, BYTE_STRING)
    case Fail(e) => Fail(e)
    case Ok(n, rest) =>
      if n > max then Fail(ByteStringTooLarge)
      else if |rest| < n then Fail(Truncated)
      else PutBytesOfSlices(b, n, rest); Ok(rest[..n], rest[n..])
  }

  lemma PutBytesOfSlices(b: Bytes, n: nat, rest: Bytes)
    requires ParseArgument(b, BYTE_STRING) == Ok(n, rest)
    requires n <= |rest|
    ensures b == PutBytes(rest[..n], rest[n..])
  {
    PutOfParseArgument(b, BYTE_STRING);
    assert rest[..n] + rest[n..] == rest;
  }

  function ParseId(b: Bytes): (p: Parsed<Id>)
    ensures p.Ok? ==> b == PutBytes(p.value, p.rest)
    ensures p.Ordinary()
  {
    var (s, rest) :- ParseBytes(b, 32);
    if |s| != 32 then Fail(WrongByteStringLength) else Ok(s, rest)
  }

  lemma ParseOfPutBytes(s: Bytes, tail: Bytes, max: nat)
    requires |s| <= max < U64_LIMIT
    ensures ParseBytes(PutBytes(s, tail), max) == Ok(s, tail)
  {
    ParseOfPutArgument(BYTE_STRING, |s|, s + tail);
    assert (s + tail)[..|s|] == s && (s + tail)[|s|..] == tail;
  }

  /** Every item parser inverts its encoder, whatever bytes follow. */
  lemma ItemsRoundTrip()
    ensures forall v: U64, tail :: ParseUnsigned(PutUnsigned(v, tail)) == Ok(v, tail)
    ensures forall n: U64, tail :: ParseArrayLength(PutArray(n, tail)) == Ok(n, tail)
    ensures forall s: Bytes, tail, max: nat {:trigger ParseBytes(PutBytes(s, tail), max)} ::
              |s| <= max < U64_LIMIT ==> ParseBytes(PutBytes(s, tail), max) == Ok(s, tail)
    ensures forall s: Id, tail :: ParseId(PutBytes(s, tail)) == Ok(s, tail)
  {
    forall v: U64, tail ensures ParseUnsigned(PutUnsigned(v, tail)) == Ok(v, tail) {
      ParseOfPutArgument(UNSIGNED, v, tail);
    }
    forall n: U64, tail ensures ParseArrayLength(PutArray(n, tail)) == Ok(n, tail) {
      ParseOfPutArgument(ARRAY, n, tail);
    }
    forall s: Bytes, tail, max: nat | |s| <= max < U64_LIMIT
      ensures ParseBytes(PutBytes(s, tail), max) == Ok(s, tail)
    {
      ParseOfPutBytes(s, tail, max);
    }
    forall s: Id, tail ensures ParseId(PutBytes(s, tail)) == Ok(s, tail) {
      ParseOfPutBytes(s, tail, 32);
    }
  }

  /** Encoders only prepend: bytes added after the tail stay after it. */
  lemma ItemsPrepend()
    ensures forall v: U64, t, u :: PutUnsigned(v, t + u) == PutUnsigned(v, t) + u
    ensures forall n: U64, t, u :: PutArray(n, t + u) == PutArray(n, t) + u
    ensures forall s: Bytes, t, u {:trigger PutBytes(s, t + u)} ::
              |s| < U64_LIMIT ==> PutBytes(s, t + u) == PutBytes(s, t) + u
  {
    forall s: Bytes, t, u: Bytes | |s| < U64_LIMIT
      ensures PutBytes(s, t + u) == PutBytes(s, t) + u
    {
      assert s + (t + u) == (s + t) + u;
    }
  }

  // ----- the decoder and the output buffer as the codec drives them -----

  class Decoder {
    const bytes: Bytes
    var offset: nat

    ghost predicate Valid()
      reads this
    {
      offset <= |bytes|
    }

    /** What is still unread. */
    ghost function Rest(): Bytes
      requires Valid()
      reads this
    {
      bytes[offset..]
    }

    constructor (bytes: Bytes, offset: nat)
      requires offset <= |bytes|
      ensures Valid() && this.bytes == bytes && this.offset == offset
    {
      this.bytes := bytes;
      this.offset := offset;
    }

    method ReadByte() returns (r: Result<Byte, DecodeError>)
      requires Valid()
      modifies this
      ensures Valid()
      ensures old(offset) == |bytes| ==> r == Failure(Truncated)
      ensures old(offset) < |bytes| ==> r == Success(bytes[old(offset)]) && offset == old(offset) + 1
    {
      if offset >= |bytes| {
        return Failure(Truncated);
      }
      r := Success(bytes[offset]);
      offset := offset + 1;
    }

    /** Reads a big-endian integer of `width` bytes. */
    method ReadBe(width: nat) returns (r: Result<nat, DecodeError>)
      requires Valid()
      modifies this
      ensures Valid()
      ensures |old(Rest())| < width ==> r == Failure(Truncated)
      ensures |old(Rest())| >= width ==>
                r == Success(FromBe(old(Rest())[..width])) && Rest() == old(Rest())[width..]
    {
      var value: nat := 0;
      var start := offset;
      for i := 0 to width
        invariant Valid() && offset == start + i
        invariant value == FromBe(bytes[start..offset])
      {
        var next :- ReadByte();
        assert bytes[start..offset][..i] == bytes[start..offset - 1];
        value := 256 * value + next;
      }
      assert bytes[start..][..width] == bytes[start..offset];
      r := Success(value);
    }

    method Argument(major: nat) returns (r: Result<nat, DecodeError>)
      requires Valid() && major < 8
      modifies this
      ensures Valid()
      ensures match ParseArgument(old(Rest()), major)
              case Ok(v, rest) => r == Success(v) && Rest() == rest
              case Fail(e) => r == Failure(e)
    {
      ghost var b := Rest();
      var initial :- ReadByte();
      assert Rest() == b[1..] && initial == b[0];
      if initial / 32 != major {
        return Failure(UnexpectedType);
      }
      var additional := initial % 32;
      if additional < 24 {
        return Success(additional);
      }
      if additional > 27 {
        return Failure(UnexpectedType);
      }
      var width := if additional == 24 then 1 else if additional == 25 then 2 else if additional == 26 then 4 else 8;
      ghost var after := Rest();
      var value :- ReadBe(width);
      assert after[..width] == b[1..1 + width] && after[width..] == b[1 + width..];
      if value < Minimum(width) {
        return Failure(NonCanonicalArgument);
      }
      r := Success(value);
    }

    method Unsigned() returns (r: Result<U64, DecodeError>)
      requires Valid()
      modifies this
      ensures Valid() && Reads(ParseUnsigned(old(Rest())), r)
    {
      var v :- Argument(UNSIGNED);
      r := Success(v);
    }

    method ArrayLength() returns (r: Result<U64, DecodeError>)
      requires Valid()
      modifies this
      ensures Valid() && Reads(ParseArrayLength(old(Rest())), r)
    {
      var v :- Argument(ARRAY);
      r := Success(v);
    }

    method Array(expected: U64) returns (r: Result<(), DecodeError>)
      requires Valid()
      modifies this
      ensures Valid() && Reads(ParseArray(old(Rest()), expected), r)
    {
      var actual :- ArrayLength();
      if actual != expected {
        return Failure(WrongArrayLength);
      }
      r := Success(());
    }

    method Expect(expected: U64) returns (r: Result<(), DecodeError>)
      requires Valid()
      modifies this
      ensures Valid() && Reads(ParseExpected(old(Rest()), expected), r)
    {
      var value :- Unsigned();
      if value != expected {
        return Failure(InvalidValue);
      }
      r := Success(());
    }

    method ByteString(max: nat) returns (r: Result<Bytes, DecodeError>)
      requires Valid() && max < U64_LIMIT
      modifies this
      ensures Valid() && Reads(ParseBytes(old(Rest()), max), r)
    {
      var length :- Argument(BYTE_STRING);
      if length > max {
        return Failure(ByteStringTooLarge);
      }
      if |bytes| - offset < length {
        return Failure(Truncated);
      }
      ghost var rest := Rest();
      r := Success(bytes[offset..offset + length]);
      offset := offset + length;
      assert rest[..length] == r.value && rest[length..] == Rest();
    }

    method FixedId() returns (r: Result<Id, DecodeError>)
      requires Valid()
      modifies this
      ensures Valid() && Reads(ParseId(old(Rest())), r)
    {
      var s :- ByteString(32);
      if |s| != 32 {
        return Failure(WrongByteStringLength);
      }
      r := Success(s);
    }

    /** The reader returned what the parser returns and stands where the parser stops. */
    ghost predicate Reads<T>(p: Parsed<T>, r: Result<T, DecodeError>)
      requires Valid()
      reads this
    {
      match p
      case Ok(v, rest) => r == Success(v) && Rest() == rest
      case Fail(e) => r == Failure(e)
    }
  }

  class Output {
    var data: Bytes

    constructor ()
      ensures data == []
    {
      data := [];
    }

    method Argument(major: nat, v: U64)
      requires major < 8
      modifies this
      ensures forall t :: data + t == old(data) + PutArgument(major, v, t)
    {
      ghost var before := data;
      if v < 24 {
        data := data + [32 * major + v];
      } else if v < 0x100 {
        data := data + [32 * major + 24] + Be(v, 1);
      } else if v < 0x1_0000 {
        data := data + [32 * major + 25] + Be(v, 2);
      } else if v < 0x1_0000_0000 {
        data := data + [32 * major + 26] + Be(v, 4);
      } else {
        data := data + [32 * major + 27] + Be(v, 8);
      }
      forall t ensures data + t == before + PutArgument(major, v, t) {
        assert v >= 24 ==> data + t == before + ([32 * major + Code(Width(v))] + (Be(v, Width(v)) + t));
      }
    }

    method Unsigned(v: U64)
      modifies this
      ensures forall t :: data + t == old(data) + PutUnsigned(v, t)
    {
      Argument(UNSIGNED, v);
    }

    method Array(n: U64)
      modifies this
      ensures forall t :: data + t == old(data) + PutArray(n, t)
    {
      Argument(ARRAY, n);
    }

    method ByteString(s: Bytes)
      requires |s| < U64_LIMIT
      modifies this
      ensures forall t :: data + t == old(data) + PutBytes(s, t)
    {
      ghost var before := data;
      Argument(BYTE_STRING, |s|);
      ghost var headed := data;
      data := data + s;
      forall t ensures data + t == before + PutBytes(s, t) {
        assert data + t == headed + (s + t);
      }
    }
  }
}
