/** The byte layout of a persisted upload: fixed fields, length-prefixed fields, and nothing after them. */
module Snapshot {
  import opened Base
  import opened Manifest
  import opened BlobCodec

  const SNAPSHOT_MAGIC: Bytes := [67, 87, 66, 85]
  const SNAPSHOT_VERSION: Byte := 1

  predicate ChunksFit(chunks: seq<Bytes>, max: nat) {
    forall i :: 0 <= i < |chunks| ==> |chunks[i]| <= max
  }

  /** What a cursor reads: a value and the bytes after it, or a malformed snapshot. */
  datatype Cut<+T> = Got(value: T, rest: Bytes) | Bad {
    predicate IsFailure() {
      Bad?
    }
    function PropagateFailure<U>(): Cut<U>
      requires Bad?
    {
      Bad
    }
    function Extract(): (T, Bytes)
      requires Got?
    {
      (value, rest)
    }
  }

  // ----- fields -----

  function PutU32(n: U32, tail: Bytes): Bytes {
    assert Pow256(4) == U32_LIMIT;
    Be(n, 4) + tail
  }

  function PutU64(n: U64, tail: Bytes): Bytes {
    assert Pow256(8) == U64_LIMIT;
    Be(n, 8) + tail
  }

  function PutSized(x: Bytes, tail: Bytes): Bytes
    requires |x| < U32_LIMIT
  {
    PutU32(|x|, x + tail)
  }

  function PutChunks(chunks: seq<Bytes>, tail: Bytes): Bytes
    requires ChunksFit(chunks, U32_LIMIT - 1)
  {
    if chunks == [] then tail else PutSized(chunks[0], PutChunks(chunks[1..], tail))
  }

  function Take(b: Bytes, n: nat): (c: Cut<Bytes>)
    ensures c.Got? ==> |c.value| == n && b == c.value + c.rest
    ensures c.Bad? <==> |b| < n
  {
    if |b| < n then Bad else Got(b[..n], b[n..])
  }

  function ParseId(b: Bytes): (c: Cut<Id>)
    ensures c.Got? ==> b == c.value + c.rest
  {
    var (x, rest) :- Take(b, 32);
    Got(x, rest)
  }

  function ParseByte(b: Bytes): (c: Cut<Byte>)
    ensures c.Got? ==> b == [c.value] + c.rest
  {
    var (x, rest) :- Take(b, 1);
    Got(x[0], rest)
  }

  function ParseU32(b: Bytes): (c: Cut<U32>)
    ensures c.Got? ==> b == PutU32(c.value, c.rest)
  {
    var (x, rest) :- Take(b, 4);
    BeOfFromBe(x);
    assert Pow256(4) == U32_LIMIT;
    Got(FromBe(x), rest)
  }

  function ParseU64(b: Bytes): (c: Cut<U64>)
    ensures c.Got? ==> b == PutU64(c.value, c.rest)
  {
    var (x, rest) :- Take(b, 8);
    BeOfFromBe(x);
    assert Pow256(8) == U64_LIMIT;
    Got(FromBe(x), rest)
  }

  function ParseSized(b: Bytes, max: nat): (c: Cut<Bytes>)
    ensures c.Got? ==> |c.value| <= max && |c.value| < U32_LIMIT && b == PutSized(c.value, c.rest)
  {
    var (n, rest) :- ParseU32(b);
    if n > max then Bad else Take(rest, n)
  }

  function ParseChunks(b: Bytes, n: nat, max: nat): (c: Cut<seq<Bytes>>)
    requires max < U32_LIMIT
    ensures c.Got? ==> |c.value| == n && ChunksFit(c.value, max) && b == PutChunks(c.value, c.rest)
  {
    if n == 0 then Got([], b)
    else
      var (x, rest) :- ParseSized(b, max);
      var (xs, left) :- ParseChunks(rest, n - 1, max);
      assert ([x] + xs)[1..] == xs;
      Got([x] + xs, left)
  }

  lemma TakeOfPut(x: Bytes, tail: Bytes)
    ensures Take(x + tail, |x|) == Got(x, tail)
  {
  }

  lemma ParseOfPutU32(n: U32, tail: Bytes)
    ensures ParseU32(PutU32(n, tail)) == Got(n, tail)
  {
    assert Pow256(4) == U32_LIMIT;
    FromBeOfBe(n, 4);
    TakeOfPut(Be(n, 4), tail);
  }

  lemma ParseOfPutU64(n: U64, tail: Bytes)
    ensures ParseU64(PutU64(n, tail)) == Got(n, tail)
  {
    assert Pow256(8) == U64_LIMIT;
    FromBeOfBe(n, 8);
    TakeOfPut(Be(n, 8), tail);
  }

  lemma ParseOfPutSized(x: Bytes, tail: Bytes, max: nat)
    requires |x| <= max && |x| < U32_LIMIT
    ensures ParseSized(PutSized(x, tail), max) == Got(x, tail)
  {
    hide PutU32, ParseU32;
    ParseOfPutU32(|x|, x + tail);
    TakeOfPut(x, tail);
  }

  lemma {:induction false} ParseOfPutChunks(chunks: seq<Bytes>, tail: Bytes, max: nat)
    requires max < U32_LIMIT && ChunksFit(chunks, max)
    ensures ParseChunks(PutChunks(chunks, tail), |chunks|, max) == Got(chunks, tail)
  {
    hide PutSized, ParseSized;
    if chunks != [] {
      ParseOfPutSized(chunks[0], PutChunks(chunks[1..], tail), max);
      ParseOfPutChunks(chunks[1..], tail, max);
      assert [chunks[0]] + chunks[1..] == chunks;
    }
  }

  // ----- the three parts of a snapshot -----

  datatype Keys = Keys(uploadId: Id, objectKey: Id, uploadSeed: Id, downloadSeed: Id, renewSeed: Id, deleteSeed: Id)

  function PutKeys(k: Keys, tail: Bytes): Bytes {
    k.uploadId + (k.objectKey + (k.uploadSeed + (k.downloadSeed + (k.renewSeed + (k.deleteSeed + tail)))))
  }

  function ParseKeys(b: Bytes): (c: Cut<Keys>)
    ensures c.Got? ==> b == PutKeys(c.value, c.rest)
  {
    var (a1, b1) :- ParseId(b);
    var (a2, b2) :- ParseId(b1);
    var (a3, b3) :- ParseId(b2);
    var (a4, b4) :- ParseId(b3);
    var (a5, b5) :- ParseId(b4);
    var (a6, b6) :- ParseId(b5);
    Got(Keys(a1, a2, a3, a4, a5, a6), b6)
  }

  lemma ParseOfPutKeys(k: Keys, tail: Bytes)
    ensures ParseKeys(PutKeys(k, tail)) == Got(k, tail)
  {
    hide Take;
    forall x: Id, t ensures Take(x + t, 32) == Got(x, t) {
      TakeOfPut(x, t);
    }
  }

  datatype Progress = Progress(ttl: U64, tag: Byte, index: U32)

  function PutProgress(p: Progress, tail: Bytes): Bytes {
    PutU64(p.ttl, [p.tag] + PutU32(p.index, tail))
  }

  function ParseProgress(b: Bytes): (c: Cut<Progress>)
    ensures c.Got? ==> c.value.ttl > 0 && b == PutProgress(c.value, c.rest)
  {
    var (ttl, b1) :- ParseU64(b);
    if ttl == 0 then Bad else
      var (tag, b2) :- ParseByte(b1);
      var (index, b3) :- ParseU32(b2);
      Got(Progress(ttl, tag, index), b3)
  }

  lemma ParseOfPutProgress(p: Progress, tail: Bytes)
    requires p.ttl > 0
    ensures ParseProgress(PutProgress(p, tail)) == Got(p, tail)
  {
    hide PutU64, PutU32, ParseU64, ParseU32;
    ParseOfPutU64(p.ttl, [p.tag] + PutU32(p.index, tail));
    TakeOfPut([p.tag], PutU32(p.index, tail));
    ParseOfPutU32(p.index, tail);
  }

  datatype Content = Content(manifest: Manifest, chunks: seq<Bytes>, pending: Bytes) {
    predicate Valid() {
      && manifest.Valid() && |chunks| == |manifest.digests| && ChunksFit(chunks, manifest.chunkSize + 16)
      && |pending| <= MAX_BLOB_FRAME_BYTES
    }
  }

  function PutContent(c: Content, tail: Bytes): Bytes
    requires c.Valid()
  {
    PutSized(ManifestBytes(c.manifest), PutU32(|c.chunks|, PutChunks(c.chunks, PutSized(c.pending, tail))))
  }

  function ParseManifest(b: Bytes): (c: Cut<Manifest>)
    ensures c.Got? ==> c.value.Valid() && b == PutSized(ManifestBytes(c.value), c.rest)
  {
    var (bytes, rest) :- ParseSized(b, MAX_BLOB_FRAME_BYTES);
    match Parse(bytes)
    case Failure(_) => Bad
    case Success(m) => ParseExact(bytes, m); Got(m, rest)
  }

  /** The chunks and the pending frame, after a manifest and a chunk count. */
  function ParseFrames(b: Bytes, m: Manifest): (c: Cut<Content>)
    requires m.Valid()
    ensures c.Got? ==>
              c.value.Valid() && c.value.manifest == m
              && b == PutChunks(c.value.chunks, PutSized(c.value.pending, c.rest))
  {
    var (chunks, b1) :- ParseChunks(b, |m.digests|, m.chunkSize + 16);
    var (pending, b2) :- ParseSized(b1, MAX_BLOB_FRAME_BYTES);
    Got(Content(m, chunks, pending), b2)
  }

  function ParseContent(b: Bytes): (c: Cut<Content>)
    ensures c.Got? ==> c.value.Valid() && b == PutContent(c.value, c.rest)
  {
    var (m, b1) :- ParseManifest(b);
    var (count, b2) :- ParseU32(b1);
    if count != |m.digests| || count > MAX_CHUNKS then Bad else ParseFrames(b2, m)
  }

  lemma ParseOfPutContent(c: Content, tail: Bytes)
    requires c.Valid()
    ensures ParseContent(PutContent(c, tail)) == Got(c, tail)
  {
    hide PutSized, ParseSized, PutU32, ParseU32, PutChunks, ParseChunks, ManifestBytes, Parse, IsPowerOfTwo;
    var t1 := PutSized(c.pending, tail);
    var t2 := PutChunks(c.chunks, t1);
    var t3 := PutU32(|c.chunks|, t2);
    ParseOfPutSized(ManifestBytes(c.manifest), t3, MAX_BLOB_FRAME_BYTES);
    ParseExact(ManifestBytes(c.manifest), c.manifest);
    ParseOfPutU32(|c.chunks|, t2);
    ParseOfPutChunks(c.chunks, t1, c.manifest.chunkSize + 16);
    ParseOfPutSized(c.pending, tail, MAX_BLOB_FRAME_BYTES);
  }

  // ----- whole snapshots -----

  datatype State = State(keys: Keys, progress: Progress, content: Content) {
    predicate Valid() {
      content.Valid() && progress.ttl > 0
    }
  }

  /** The canonical bytes; a zero ttl is written like any other. */
  function StateBytes(s: State): Bytes
    requires s.content.Valid()
  {
    SNAPSHOT_MAGIC + ([SNAPSHOT_VERSION] + PutKeys(s.keys, PutProgress(s.progress, PutContent(s.content, []))))
  }

  function ParseState(b: Bytes): (c: Cut<State>)
    ensures c.Got? ==> c.value.Valid() && c.rest == [] && b == StateBytes(c.value)
  {
    var (magic, b1) :- Take(b, 4);
    if magic != SNAPSHOT_MAGIC then Bad else
      var (version, b2) :- ParseByte(b1);
      if version != SNAPSHOT_VERSION then Bad else
        var (k, b3) :- ParseKeys(b2);
        var (p, b4) :- ParseProgress(b3);
        var (c, b5) :- ParseContent(b4);
        if b5 != [] then Bad else Got(State(k, p, c), b5)
  }

  /** A byte string is a snapshot exactly when it is the canonical form of the state returned. */
  lemma StateExact(b: Bytes, s: State)
    ensures ParseState(b) == Got(s, []) <==> s.Valid() && b == StateBytes(s)
  {
    hide PutKeys, ParseKeys, PutProgress, ParseProgress, PutContent, ParseContent;
    if s.Valid() && b == StateBytes(s) {
      var t1 := PutContent(s.content, []);
      var t2 := PutProgress(s.progress, t1);
      var t3 := PutKeys(s.keys, t2);
      TakeOfPut(SNAPSHOT_MAGIC, [SNAPSHOT_VERSION] + t3);
      TakeOfPut([SNAPSHOT_VERSION], t3);
      ParseOfPutKeys(s.keys, t2);
      ParseOfPutProgress(s.progress, t1);
      ParseOfPutContent(s.content, []);
    }
  }

  /** A snapshot with a zero ttl is written but never read back. */
  lemma ZeroTtlIsMalformed(s: State)
    requires s.content.Valid() && s.progress.ttl == 0
    ensures ParseState(StateBytes(s)).Bad?
  {
    hide PutKeys, ParseKeys, PutContent, ParseContent, PutU64, PutU32, ParseU64, ParseU32;
    var t1 := PutContent(s.content, []);
    var t2 := PutProgress(s.progress, t1);
    var t3 := PutKeys(s.keys, t2);
    TakeOfPut(SNAPSHOT_MAGIC, [SNAPSHOT_VERSION] + t3);
    TakeOfPut([SNAPSHOT_VERSION], t3);
    ParseOfPutKeys(s.keys, t2);
    ParseOfPutU64(0, [s.progress.tag] + PutU32(s.progress.index, t1));
  }

  // ----- the moving cursor and the growing output -----

  datatype Malformed = Malformed

  class StateCursor {
    var rest: Bytes

    constructor (bytes: Bytes)
      ensures rest == bytes
    {
      rest := bytes;
    }

    /** The result and the bytes left are those of the parser. */
    ghost predicate Reads<T>(c: Cut<T>, r: Result<T, Malformed>)
      reads this
    {
      match c
      case Got(value, left) => r == Success(value) && rest == left
      case Bad => r.Failure?
    }

    method TakeBytes(length: nat) returns (r: Result<Bytes, Malformed>)
      modifies this
      ensures Reads(Take(old(rest), length), r)
    {
      if |rest| < length {
        return Failure(Malformed);
      }
      var head := rest[..length];
      rest := rest[length..];
      return Success(head);
    }

    method TakeByte() returns (r: Result<Byte, Malformed>)
      modifies this
      ensures Reads(ParseByte(old(rest)), r)
    {
      var x :- TakeBytes(1);
      return Success(x[0]);
    }

    method TakeId() returns (r: Result<Id, Malformed>)
      modifies this
      ensures Reads(ParseId(old(rest)), r)
    {
      var x :- TakeBytes(32);
      return Success(x);
    }

    method TakeU32() returns (r: Result<U32, Malformed>)
      modifies this
      ensures Reads(ParseU32(old(rest)), r)
    {
      var x :- TakeBytes(4);
      assert Pow256(4) == U32_LIMIT;
      return Success(FromBe(x));
    }

    method TakeU64() returns (r: Result<U64, Malformed>)
      modifies this
      ensures Reads(ParseU64(old(rest)), r)
    {
      var x :- TakeBytes(8);
      assert Pow256(8) == U64_LIMIT;
      return Success(FromBe(x));
    }

    method TakeSized(maximum: nat) returns (r: Result<Bytes, Malformed>)
      modifies this
      ensures Reads(ParseSized(old(rest), maximum), r)
    {
      hide ParseU32;
      var length :- TakeU32();
      if length > maximum {
        return Failure(Malformed);
      }
      r := TakeBytes(length);
    }

    /** The loop that reads the announced number of chunks. */
    method TakeChunks(count: nat, maximum: nat) returns (r: Result<seq<Bytes>, Malformed>)
      requires maximum < U32_LIMIT
      modifies this
      ensures Reads(ParseChunks(old(rest), count, maximum), r)
    {
      hide ParseSized, PutSized, ParseChunks, PutChunks, ChunksFit;
      ghost var whole := ParseChunks(rest, count, maximum);
      var chunks: seq<Bytes> := [];
      assert whole.Got? ==> chunks + whole.value == whole.value;
      var i := 0;
      while i < count
        invariant 0 <= i <= count
        invariant Continues(whole, chunks, ParseChunks(rest, count - i, maximum))
      {
        ChunksFromFirst(rest, count - i, maximum);
        var chunk :- TakeSized(maximum);
        ContinuesBy(whole, chunks, chunk, ParseChunks(rest, count - i - 1, maximum));
        chunks := chunks + [chunk];
        i := i + 1;
      }
      NoChunks(rest, maximum);
      assert chunks + [] == chunks;
      return Success(chunks);
    }
  }

  lemma ChunksFromFirst(b: Bytes, n: nat, max: nat)
    requires n > 0 && max < U32_LIMIT
    ensures ParseChunks(b, n, max)
            == match ParseSized(b, max)
               case Bad => Bad
               case Got(x, rest) =>
                 match ParseChunks(rest, n - 1, max) case Bad => Bad case Got(xs, left) => Got([x] + xs, left)
  {
  }

  lemma NoChunks(b: Bytes, max: nat)
    requires max < U32_LIMIT
    ensures ParseChunks(b, 0, max) == Got([], b)
  {
  }

  /** Reading the whole list is what was read so far followed by reading the rest. */
  ghost predicate Continues(whole: Cut<seq<Bytes>>, done: seq<Bytes>, later: Cut<seq<Bytes>>) {
    whole == match later case Bad => Bad case Got(xs, left) => Got(done + xs, left)
  }

  lemma ContinuesBy(whole: Cut<seq<Bytes>>, done: seq<Bytes>, x: Bytes, later: Cut<seq<Bytes>>)
    requires Continues(whole, done, match later case Bad => Bad case Got(xs, left) => Got([x] + xs, left))
    ensures Continues(whole, done + [x], later)
  {
    if later.Got? {
      assert done + ([x] + later.value) == done + [x] + later.value;
    }
  }
}
