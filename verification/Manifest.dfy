/** The fixed binary blob manifest and its limit equations. */
module Manifest {
  import opened Base

  const MIN_CHUNK_BYTES: nat := 32
  const MAX_CHUNK_BYTES: nat := 1_048_576
  const MAX_CHUNKS: nat := 32_768
  const MIN_PADDED_BYTES: nat := 64
  const MAX_PADDED_BYTES: nat := 1_073_741_824
  const MAGIC: Bytes := [67, 87, 66, 49]
  const HEADER_BYTES: nat := 40
  /** Length of the largest manifest. */
  const MAX_MANIFEST_BYTES: nat := 1_048_616

  type Salt = s: Bytes | |s| == 16 witness seq(16, _ => 0)

  datatype Manifest = Manifest(salt: Salt, paddedSize: U64, chunkSize: U32, digests: seq<Id>) {
    /** All limit equations hold. */
    predicate Valid() {
      LimitsHold(paddedSize, chunkSize, |digests|)
    }
  }

  datatype ManifestError = InvalidManifest | LimitOutOfRange

  predicate IsPowerOfTwo(n: nat) {
    n == 1 || (n > 1 && n % 2 == 0 && IsPowerOfTwo(n / 2))
  }

  predicate LimitsHold(paddedSize: nat, chunkSize: nat, count: nat) {
    && MIN_CHUNK_BYTES <= chunkSize <= MAX_CHUNK_BYTES && IsPowerOfTwo(chunkSize)
    && MIN_PADDED_BYTES <= paddedSize <= MAX_PADDED_BYTES && IsPowerOfTwo(paddedSize)
    && paddedSize % chunkSize == 0
    && 0 < count <= MAX_CHUNKS
    && paddedSize / chunkSize == count
  }

  function Join(ds: seq<Id>): (b: Bytes)
    ensures |b| == 32 * |ds|
  {
    if ds == [] then [] else ds[0] + Join(ds[1..])
  }

  function Split(b: Bytes): (ds: seq<Id>)
    requires |b| % 32 == 0
    ensures |b| == 32 * |ds|
  {
    if b == [] then [] else [b[..32]] + Split(b[32..])
  }

  function Header(salt: Salt, paddedSize: U64, chunkSize: U32, count: U32): (b: Bytes)
    ensures |b| == HEADER_BYTES
  {
    assert Pow256(8) == U64_LIMIT && Pow256(4) == U32_LIMIT;
    MAGIC + [0, 1] + [0, 1] + salt + Be(paddedSize, 8) + Be(chunkSize, 4) + Be(count, 4)
  }

  /** The canonical bytes of a manifest. */
  function ManifestBytes(m: Manifest): (b: Bytes)
    requires m.Valid()
    ensures |b| == HEADER_BYTES + 32 * |m.digests| <= MAX_MANIFEST_BYTES
  {
    Header(m.salt, m.paddedSize, m.chunkSize, |m.digests|) + Join(m.digests)
  }

  datatype Numbers = Numbers(paddedSize: U64, chunkSize: U32, count: U32)

  /** The numbers of a header with the right magic and versions. */
  function ReadHeader(b: Bytes): Option<Numbers>
    requires |b| >= HEADER_BYTES
  {
    if b[..4] != MAGIC || FromBe(b[4..6]) != 1 || FromBe(b[6..8]) != 1 then None
    else
      assert Pow256(8) == U64_LIMIT && Pow256(4) == U32_LIMIT;
      Some(Numbers(FromBe(b[24..32]), FromBe(b[32..36]), FromBe(b[36..40])))
  }

  function Parse(b: Bytes): Result<Manifest, ManifestError> {
    if |b| < 72 then Failure(InvalidManifest)
    else
      match ReadHeader(b)
      case None => Failure(InvalidManifest)
      case Some(h) =>
        if !LimitsHold(h.paddedSize, h.chunkSize, h.count) then Failure(LimitOutOfRange)
        else if |b| != HEADER_BYTES + 32 * h.count then Failure(InvalidManifest)
        else Success(Manifest(b[8..24], h.paddedSize, h.chunkSize, Split(b[HEADER_BYTES..])))
  }

  lemma {:induction false} SplitOfJoin(ds: seq<Id>)
    ensures Split(Join(ds)) == ds
  {
    if ds != [] {
      SplitOfJoin(ds[1..]);
      assert Join(ds)[..32] == ds[0] && Join(ds)[32..] == Join(ds[1..]);
    }
  }

  lemma {:induction false} JoinOfSplit(b: Bytes)
    requires |b| % 32 == 0
    ensures Join(Split(b)) == b
  {
    if b != [] {
      JoinOfSplit(b[32..]);
      assert Split(b)[1..] == Split(b[32..]);
      assert b == b[..32] + b[32..];
    }
  }

  lemma OneIsZeroOne(s: Bytes)
    requires |s| == 2
    ensures FromBe(s) == 1 <==> s == [0, 1]
  {
    assert s[..1][..0] == [];
    assert FromBe(s) == 256 * FromBe(s[..1]) + s[1];
    assert FromBe(s[..1]) == s[0];
  }

  /** Fields of the header's widths, laid end to end, are its slices and nothing else. */
  lemma SevenFields(h: Bytes, a: Bytes, b: Bytes, c: Bytes, d: Bytes, e: Bytes, f: Bytes, g: Bytes)
    requires |h| == 40 && |a| == 4 && |b| == 2 && |c| == 2 && |d| == 16 && |e| == 8 && |f| == 4 && |g| == 4
    ensures h == a + b + c + d + e + f + g <==>
              h[..4] == a && h[4..6] == b && h[6..8] == c && h[8..24] == d && h[24..32] == e && h[32..36] == f
                && h[36..40] == g
  {
    assert h == h[..4] + h[4..6] + h[6..8] + h[8..24] + h[24..32] + h[32..36] + h[36..40];
    if h == a + b + c + d + e + f + g {
      var x := a + b + c;
      var y := x + d;
      assert h[..8] == x && h[..24] == y;
      assert h[..4] == x[..4] == a && h[4..6] == x[4..6] == b && h[6..8] == x[6..8] == c;
      assert h[8..24] == y[8..] == d;
    }
  }

  /** Where each header field lies. */
  lemma HeaderFields(b: Bytes, salt: Salt, paddedSize: U64, chunkSize: U32, count: U32)
    requires |b| >= HEADER_BYTES
    ensures b[..40] == Header(salt, paddedSize, chunkSize, count) <==>
              && b[..4] == MAGIC && b[4..6] == [0, 1] && b[6..8] == [0, 1] && b[8..24] == salt
              && FromBe(b[24..32]) == paddedSize && FromBe(b[32..36]) == chunkSize && FromBe(b[36..40]) == count
  {
    assert Pow256(8) == U64_LIMIT && Pow256(4) == U32_LIMIT;
    var h := b[..40];
    CellHolds(b[24..32], paddedSize);
    CellHolds(b[32..36], chunkSize);
    CellHolds(b[36..40], count);
    hide Be, FromBe, Pow256;
    SevenFields(h, MAGIC, [0, 1], [0, 1], salt, Be(paddedSize, 8), Be(chunkSize, 4), Be(count, 4));
    assert h[..4] == b[..4] && h[4..6] == b[4..6] && h[6..8] == b[6..8] && h[8..24] == b[8..24];
    assert h[24..32] == b[24..32] && h[32..36] == b[32..36] && h[36..40] == b[36..40];
  }

  /** A cell holds a number exactly when it is that number's big-endian form. */
  lemma CellHolds(s: Bytes, n: nat)
    requires n < Pow256(|s|)
    ensures FromBe(s) == n <==> s == Be(n, |s|)
  {
    BeOfFromBe(s);
    FromBeOfBe(n, |s|);
  }

  /** Reading a header undoes writing it. */
  lemma ReadHeaderExact(b: Bytes, salt: Salt, h: Numbers)
    requires |b| >= HEADER_BYTES
    ensures b[..40] == Header(salt, h.paddedSize, h.chunkSize, h.count) <==>
              ReadHeader(b) == Some(h) && b[8..24] == salt
  {
    hide FromBe, Header;
    HeaderFields(b, salt, h.paddedSize, h.chunkSize, h.count);
    OneIsZeroOne(b[4..6]);
    OneIsZeroOne(b[6..8]);
  }

  /** A byte string is a manifest exactly when it is the canonical form of the manifest returned. */
  lemma ParseExact(b: Bytes, m: Manifest)
    ensures Parse(b) == Success(m) <==> m.Valid() && b == ManifestBytes(m)
  {
    hide ReadHeader, Header, IsPowerOfTwo, Join, Split;
    if m.Valid() && b == ManifestBytes(m) {
      assert b[..40] == Header(m.salt, m.paddedSize, m.chunkSize, |m.digests|) && b[40..] == Join(m.digests);
      ReadHeaderExact(b, m.salt, Numbers(m.paddedSize, m.chunkSize, |m.digests|));
      SplitOfJoin(m.digests);
    }
    if Parse(b) == Success(m) {
      ReadHeaderExact(b, m.salt, ReadHeader(b).value);
      JoinOfSplit(b[40..]);
      assert b == b[..40] + b[40..];
    }
  }

  /** A header with these numbers, which break the limits. */
  ghost predicate OffLimits(b: Bytes, salt: Salt, h: Numbers)
    requires |b| >= HEADER_BYTES
  {
    b[..40] == Header(salt, h.paddedSize, h.chunkSize, h.count) && !LimitsHold(h.paddedSize, h.chunkSize, h.count)
  }

  /** The limits are blamed exactly for a well-formed header that breaks them; everything else that is not a
      manifest is invalid. */
  lemma ParseReportsExactly(b: Bytes)
    ensures Parse(b) == Failure(LimitOutOfRange) <==>
              |b| >= 72 && exists salt: Salt, h: Numbers :: OffLimits(b, salt, h)
    ensures Parse(b).Failure? ==> Parse(b).error in {InvalidManifest, LimitOutOfRange}
  {
    hide ReadHeader, Header, IsPowerOfTwo, Join, Split;
    if |b| >= 72 {
      if ReadHeader(b).Some? {
        ReadHeaderExact(b, b[8..24], ReadHeader(b).value);
        assert OffLimits(b, b[8..24], ReadHeader(b).value) <==> Parse(b) == Failure(LimitOutOfRange);
      }
      forall salt: Salt, h: Numbers | OffLimits(b, salt, h) ensures ReadHeader(b) == Some(h) {
        ReadHeaderExact(b, salt, h);
      }
    }
  }

  lemma ManifestBytesInjective(m: Manifest, n: Manifest)
    requires m.Valid() && n.Valid()
    ensures ManifestBytes(m) == ManifestBytes(n) <==> m == n
  {
    ParseExact(ManifestBytes(m), m);
    ParseExact(ManifestBytes(n), n);
  }
}
