/** Padding, chunking, sealing and opening of immutable encrypted objects. The cipher, the key
    derivation and the digest are parameters; random bytes are parameters too. */
module Sealing {
  import opened Base
  import opened Manifest
  import DB = DurableBlob

  datatype SealError = PlaintextTooLarge | InvalidChunkSize | AuthenticationFailed | InvalidObject

  datatype EncryptedBlob = EncryptedBlob(key: Id, manifest: Manifest, blobId: Id, chunks: seq<Bytes>)

  /** Key derivation from object key and salt, the AEAD (key, nonce, associated data, message), the digest. */
  datatype Crypto = Crypto(derive: (Id, Salt) -> Id,
                           encrypt: (Id, Bytes, Bytes, Bytes) -> Option<Bytes>,
                           decrypt: (Id, Bytes, Bytes, Bytes) -> Option<Bytes>,
                           sha: DB.Hash)

  /** Opening inverts sealing, and a tag is 16 bytes. */
  ghost predicate Lawful(c: Crypto) {
    forall k, n, a, x :: c.encrypt(k, n, a, x).Some? ==>
      && c.decrypt(k, n, a, c.encrypt(k, n, a, x).value) == Some(x)
      && |c.encrypt(k, n, a, x).value| == |x| + 16
  }

  // ----- powers of two -----

  lemma {:induction false} PowersDivide(p: nat, q: nat)
    requires IsPowerOfTwo(p) && IsPowerOfTwo(q) && p <= q
    ensures q % p == 0
  {
    if p > 1 {
      PowersDivide(p / 2, q / 2);
      var k := (q / 2) / (p / 2);
      assert q / 2 == (p / 2) * k;
      assert q == p * k;
      MultipleHasNoRemainder(p, k);
    }
  }

  lemma MultipleHasNoRemainder(p: nat, k: nat)
    requires p > 0
    ensures (p * k) % p == 0 && (p * k) / p == k
  {
    var q, r := (p * k) / p, (p * k) % p;
    var d := k - q;
    assert p * d == p * k - p * q == r;
    assert d >= 1 ==> p * d >= p;
    assert d <= -1 ==> p * d <= 0 - p as int;
  }

  lemma DoubleIsPower(p: nat)
    requires IsPowerOfTwo(p)
    ensures IsPowerOfTwo(2 * p)
  {
  }

  lemma NextIsDouble(p: nat, q: nat)
    requires IsPowerOfTwo(p) && IsPowerOfTwo(q) && p < q
    ensures 2 * p <= q
  {
    PowersDivide(p, q);
    var k := q / p;
    assert q == p * k;
    if k < 2 {
      assert k == 0 || k == 1;
    }
  }

  /** The first power of two from p up that reaches n. */
  function NextPower(n: nat, p: nat): (r: nat)
    requires IsPowerOfTwo(p)
    ensures IsPowerOfTwo(r) && r >= n && r >= p
    decreases n - p
  {
    if p >= n then p else
      DoubleIsPower(p);
      NextPower(n, 2 * p)
  }

  lemma {:induction false} NextPowerIsLeast(n: nat, p: nat, q: nat)
    requires IsPowerOfTwo(p) && IsPowerOfTwo(q) && q >= n && q >= p
    ensures NextPower(n, p) <= q
    decreases n - p
  {
    if p < n {
      NextIsDouble(p, q);
      DoubleIsPower(p);
      NextPowerIsLeast(n, 2 * p, q);
    }
  }

  function Larger(a: nat, b: nat): nat {
    if a < b then b else a
  }

  // ----- the size of a sealed object -----

  predicate ChunkSizeOk(c: nat) {
    MIN_CHUNK_BYTES <= c <= MAX_CHUNK_BYTES && IsPowerOfTwo(c)
  }

  /** Bucket of a stream: the next power of two, at least the minimum and at least one chunk. */
  function Padded(streamLength: nat, c: nat): nat {
    Larger(NextPower(Larger(streamLength, MIN_PADDED_BYTES), 1), c)
  }

  /** The padded size, or why the plaintext cannot be sealed with this chunk size. */
  function Layout(length: nat, c: U32): Result<nat, SealError> {
    if !ChunkSizeOk(c) then Failure(InvalidChunkSize)
    else if length + 8 >= U64_LIMIT || length + 8 > MAX_PADDED_BYTES then Failure(PlaintextTooLarge)
    else
      var padded := Padded(length + 8, c);
      if padded > MAX_PADDED_BYTES || padded % c != 0 || padded / c > MAX_CHUNKS then Failure(InvalidChunkSize)
      else Success(padded)
  }

  lemma LimitsArePowers(c: nat)
    requires IsPowerOfTwo(c)
    ensures IsPowerOfTwo(MAX_PADDED_BYTES) && IsPowerOfTwo(MIN_PADDED_BYTES) && IsPowerOfTwo(MAX_CHUNKS * c)
  {
    var c5 := 32 * c;
    assert IsPowerOfTwo(c5) by { FiveDoublings(c); }
    assert IsPowerOfTwo(32 * c5) by { FiveDoublings(c5); }
    assert IsPowerOfTwo(32 * (32 * c5)) by { FiveDoublings(32 * c5); }
    assert MAX_CHUNKS * c == 32 * (32 * c5);
    assert IsPowerOfTwo(1);
    FiveDoublings(1);
    FiveDoublings(32);
    FiveDoublings(1024);
    FiveDoublings(32768);
    FiveDoublings(1_048_576);
    FiveDoublings(33_554_432);
    DoubleIsPower(32);
  }

  lemma FiveDoublings(p: nat)
    requires IsPowerOfTwo(p)
    ensures IsPowerOfTwo(32 * p)
  {
    hide IsPowerOfTwo;
    DoubleIsPower(p);
    DoubleIsPower(2 * p);
    DoubleIsPower(4 * p);
    DoubleIsPower(8 * p);
    DoubleIsPower(16 * p);
  }

  /** The bucket is a multiple of the chunk size, and the least power of two that is large enough. */
  lemma PaddedIsLeast(streamLength: nat, c: nat)
    requires IsPowerOfTwo(c)
    ensures var p := Padded(streamLength, c);
            && IsPowerOfTwo(p) && p >= streamLength && p >= MIN_PADDED_BYTES && p >= c && p % c == 0
            && forall q: nat :: IsPowerOfTwo(q) && q >= streamLength && q >= MIN_PADDED_BYTES && q >= c ==> p <= q
  {
    hide NextPower;
    OneIsPower();
    var p := Padded(streamLength, c);
    PowersDivide(c, p);
    forall q: nat | IsPowerOfTwo(q) && q >= streamLength && q >= MIN_PADDED_BYTES && q >= c ensures p <= q {
      NextPowerIsLeast(Larger(streamLength, MIN_PADDED_BYTES), 1, q);
    }
  }

  /** Sealing succeeds exactly when the chunk size is allowed and the stream fits both the object limit
      and the chunk-count limit; then all manifest equations hold, and the size is the least power of
      two that does. */
  lemma LayoutExact(length: nat, c: U32)
    ensures Layout(length, c).Success? <==>
              ChunkSizeOk(c) && length + 8 <= MAX_PADDED_BYTES && length + 8 <= MAX_CHUNKS * c
    ensures Layout(length, c) == Failure(PlaintextTooLarge) <==> ChunkSizeOk(c) && length + 8 > MAX_PADDED_BYTES
    ensures Layout(length, c).Failure? ==> Layout(length, c).error in {PlaintextTooLarge, InvalidChunkSize}
    ensures Layout(length, c).Success? ==>
              var p := Layout(length, c).value;
              && LimitsHold(p, c, p / c) && length + 8 <= p
              && forall q: nat :: IsPowerOfTwo(q) && q >= length + 8 && q >= MIN_PADDED_BYTES && q >= c ==> p <= q
  {
    hide IsPowerOfTwo, Padded;
    if ChunkSizeOk(c) {
      LimitsArePowers(c);
      PaddedIsLeast(length + 8, c);
      CountWithinLimit(Padded(length + 8, c), c);
    }
  }

  lemma OneIsPower()
    ensures IsPowerOfTwo(1)
  {
  }

  lemma CountWithinLimit(p: nat, c: nat)
    requires c > 0 && p % c == 0
    ensures p / c <= MAX_CHUNKS <==> p <= MAX_CHUNKS * c
    ensures p >= c ==> p / c > 0
  {
    var k := p / c;
    assert p == c * k;
    if k <= MAX_CHUNKS {
      assert c * k <= c * MAX_CHUNKS;
    } else {
      assert c * k > c * MAX_CHUNKS;
    }
  }

  // ----- nonces and associated data -----

  const CHUNK_DOMAIN: Bytes :=
    [99, 111, 102, 102, 101, 114, 119, 105, 114, 101, 32, 98, 108, 111, 98, 32, 99, 104, 117, 110, 107, 32, 118, 49, 0]

  function Nonce(i: U64): (n: Bytes)
    ensures |n| == 12
  {
    assert Pow256(8) == U64_LIMIT;
    [0, 0, 0, 0] + Be(i, 8)
  }

  function AssociatedData(salt: Salt, paddedSize: U64, c: U32, count: U32, i: U32): Bytes {
    assert Pow256(8) == U64_LIMIT && Pow256(4) == U32_LIMIT;
    CHUNK_DOMAIN + [0, 1] + [0, 1] + salt + Be(paddedSize, 8) + Be(c, 4) + Be(count, 4) + Be(i, 4)
  }

  /** No two chunks of an object share a nonce. */
  lemma NoncesDiffer(i: U64, j: U64)
    ensures Nonce(i) == Nonce(j) <==> i == j
  {
    assert Pow256(8) == U64_LIMIT;
    FromBeOfBe(i, 8);
    FromBeOfBe(j, 8);
    assert Nonce(i)[4..] == Be(i, 8) && Nonce(j)[4..] == Be(j, 8);
  }

  // ----- sealing -----

  function Filler(n: nat, noise: nat -> Byte): (s: Bytes)
    ensures |s| == n && forall i :: 0 <= i < n ==> s[i] == noise(i)
  {
    seq(n, i requires 0 <= i => noise(i))
  }

  /** Length prefix, plaintext, and random bytes up to the padded size. */
  function Stream(plaintext: Bytes, padded: nat, noise: nat -> Byte): (s: Bytes)
    requires |plaintext| + 8 <= padded && padded < U64_LIMIT
    ensures |s| == padded
  {
    assert Pow256(8) == U64_LIMIT;
    Be(|plaintext|, 8) + plaintext + Filler(padded - 8 - |plaintext|, noise)
  }

  lemma Within(i: nat, n: nat, c: nat)
    requires i < n
    ensures 0 <= i * c && i * c + c <= n * c
  {
    assert (i + 1) * c <= n * c;
  }

  /** What all chunks of one object share. */
  datatype Plan = Plan(key: Id, salt: Salt, padded: U64, c: U32, count: U32) {
    predicate Valid() {
      LimitsHold(padded, c, count) && padded == count * c
    }
  }

  function Plain(p: Plan, stream: Bytes, i: nat): (s: Bytes)
    requires p.Valid() && |stream| == p.padded && i < p.count
    ensures |s| == p.c
  {
    Within(i, p.count, p.c);
    stream[i * p.c..i * p.c + p.c]
  }

  function Ciphertext(crypto: Crypto, p: Plan, stream: Bytes, i: nat): Option<Bytes>
    requires p.Valid() && |stream| == p.padded && i < p.count
  {
    var aad := AssociatedData(p.salt, p.padded, p.c, p.count, i);
    crypto.encrypt(crypto.derive(p.key, p.salt), Nonce(i), aad, Plain(p, stream, i))
  }

  /** The first n ciphertexts, if the cipher makes them all. */
  function Ciphertexts(crypto: Crypto, p: Plan, stream: Bytes, n: nat): (r: Option<seq<Bytes>>)
    requires p.Valid() && |stream| == p.padded && n <= p.count
    ensures r.Some? ==> |r.value| == n && forall i :: 0 <= i < n ==>
              Ciphertext(crypto, p, stream, i) == Some(r.value[i])
  {
    if n == 0 then Some([])
    else
      match Ciphertexts(crypto, p, stream, n - 1)
      case None => None
      case Some(cs) =>
        match Ciphertext(crypto, p, stream, n - 1) case None => None case Some(x) => Some(cs + [x])
  }

  function Digests(sha: DB.Hash, chunks: seq<Bytes>): (ds: seq<Id>)
    ensures |ds| == |chunks| && forall i :: 0 <= i < |ds| ==> ds[i] == sha(chunks[i])
  {
    if chunks == [] then [] else Digests(sha, chunks[..|chunks| - 1]) + [sha(chunks[|chunks| - 1])]
  }

  /** The layout of a plaintext as a plan. */
  function Planned(length: nat, c: U32, key: Id, salt: Salt): (r: Result<Plan, SealError>)
    ensures r.Success? ==> r.value.Valid() && length + 8 <= r.value.padded
  {
    match Layout(length, c)
    case Failure(e) => Failure(e)
    case Success(padded) =>
      PlanIsValid(length, c, key, salt);
      Success(Plan(key, salt, padded, c, padded / c))
  }

  function ObjectOf(crypto: Crypto, p: Plan, stream: Bytes): Result<EncryptedBlob, SealError>
    requires p.Valid() && |stream| == p.padded
  {
    match Ciphertexts(crypto, p, stream, p.count)
    case None => Failure(AuthenticationFailed)
    case Some(chunks) =>
      var manifest := Manifest(p.salt, p.padded, p.c, Digests(crypto.sha, chunks));
      Success(EncryptedBlob(p.key, manifest, DB.Identify(crypto.sha, manifest), chunks))
  }

  function Sealed(crypto: Crypto, plaintext: Bytes, c: U32, key: Id, salt: Salt,
                  noise: nat -> Byte): Result<EncryptedBlob, SealError> {
    match Planned(|plaintext|, c, key, salt)
    case Failure(e) => Failure(e)
    case Success(p) => ObjectOf(crypto, p, Stream(plaintext, p.padded, noise))
  }

  /** The header and digests that are laid out and parsed back. */
  method MakeManifest(salt: Salt, padded: U64, c: U32, digests: seq<Id>) returns (r: Result<Manifest, SealError>)
    ensures var m := Manifest(salt, padded, c, digests);
            r == if m.Valid() then Success(m) else Failure(InvalidObject)
  {
    hide Header, Parse, IsPowerOfTwo;
    if |digests| >= U32_LIMIT {
      return Failure(InvalidObject);
    }
    var bytes := Header(salt, padded, c, |digests|);
    var i := 0;
    while i < |digests|
      invariant 0 <= i <= |digests|
      invariant bytes == Header(salt, padded, c, |digests|) + Join(digests[..i])
    {
      JoinSnoc(digests[..i], digests[i]);
      assert digests[..i + 1] == digests[..i] + [digests[i]];
      bytes := bytes + digests[i];
      i := i + 1;
    }
    assert digests[..i] == digests;
    var m := Manifest(salt, padded, c, digests);
    LaidOutParses(bytes, m);
    match Parse(bytes)
    case Failure(_) => return Failure(InvalidObject);
    case Success(manifest) => return Success(manifest);
  }

  lemma {:induction false} JoinSnoc(ds: seq<Id>, d: Id)
    ensures Join(ds + [d]) == Join(ds) + d
  {
    if ds == [] {
      assert ds + [d] == [d];
      assert [d][1..] == [];
    } else {
      JoinSnoc(ds[1..], d);
      assert (ds + [d])[1..] == ds[1..] + [d];
    }
  }

  lemma LaidOutParses(bytes: Bytes, m: Manifest)
    requires |m.digests| < U32_LIMIT
    requires bytes == Header(m.salt, m.paddedSize, m.chunkSize, |m.digests|) + Join(m.digests)
    ensures if m.Valid() then Parse(bytes) == Success(m) else Parse(bytes).Failure?
  {
    hide IsPowerOfTwo, FromBe, Header;
    if m.Valid() {
      ParseExact(bytes, m);
    } else if Parse(bytes).Success? {
      var n := Parse(bytes).value;
      assert bytes[..40] == Header(m.salt, m.paddedSize, m.chunkSize, |m.digests|);
      HeaderFields(bytes, m.salt, m.paddedSize, m.chunkSize, |m.digests|);
    }
  }

  method Seal(crypto: Crypto, plaintext: Bytes, c: U32, key: Id, salt: Salt, noise: nat -> Byte)
    returns (r: Result<EncryptedBlob, SealError>)
    ensures r == Sealed(crypto, plaintext, c, key, salt, noise)
  {
    hide Layout, LimitsHold, Stream, Ciphertext, DB.Identify, Planned;
    var p :- Planned(|plaintext|, c, key, salt);
    var stream := Stream(plaintext, p.padded, noise);
    var aeadKey := crypto.derive(p.key, p.salt);
    var chunks: seq<Bytes>, digests: seq<Id> := [], [];
    var index := 0;
    while index < p.count
      invariant 0 <= index <= p.count
      invariant Ciphertexts(crypto, p, stream, index) == Some(chunks)
      invariant digests == Digests(crypto.sha, chunks)
    {
      var ciphertext := EncryptChunk(crypto, aeadKey, p, stream, index);
      if ciphertext.None? {
        RefusalSpreads(crypto, p, stream, index + 1, p.count);
        return Failure(AuthenticationFailed);
      }
      digests := digests + [crypto.sha(ciphertext.value)];
      assert (chunks + [ciphertext.value])[..|chunks|] == chunks;
      chunks := chunks + [ciphertext.value];
      index := index + 1;
    }
    // A plan meets every manifest limit, so the manifest is always accepted.
    var made := MakeManifest(p.salt, p.padded, p.c, digests);
    var manifest := made.value;
    return Success(EncryptedBlob(p.key, manifest, DB.Identify(crypto.sha, manifest), chunks));
  }

  method EncryptChunk(crypto: Crypto, aeadKey: Id, p: Plan, stream: Bytes, index: nat) returns (x: Option<Bytes>)
    requires p.Valid() && |stream| == p.padded && index < p.count && aeadKey == crypto.derive(p.key, p.salt)
    ensures x == Ciphertext(crypto, p, stream, index)
  {
    Within(index, p.count, p.c);
    var plain := stream[index * p.c..index * p.c + p.c];
    return crypto.encrypt(aeadKey, Nonce(index), AssociatedData(p.salt, p.padded, p.c, p.count, index), plain);
  }

  lemma {:induction false} RefusalSpreads(crypto: Crypto, p: Plan, stream: Bytes, i: nat, n: nat)
    requires p.Valid() && |stream| == p.padded && i <= n <= p.count && Ciphertexts(crypto, p, stream, i).None?
    ensures Ciphertexts(crypto, p, stream, n).None?
  {
    hide LimitsHold, Ciphertext;
    if i < n {
      RefusalSpreads(crypto, p, stream, i, n - 1);
    }
  }

  lemma {:induction false} CiphertextsExactly(crypto: Crypto, p: Plan, stream: Bytes, n: nat)
    requires p.Valid() && |stream| == p.padded && n <= p.count
    ensures Ciphertexts(crypto, p, stream, n).None? <==>
              exists i :: 0 <= i < n && Ciphertext(crypto, p, stream, i).None?
  {
    hide LimitsHold, Ciphertext;
    if n > 0 {
      CiphertextsExactly(crypto, p, stream, n - 1);
    }
  }

  /** Sealing fails for the size or the chunk size first, and otherwise exactly when the cipher refuses a
      chunk of the padded stream. */
  lemma SealReportsExactly(crypto: Crypto, plaintext: Bytes, c: U32, key: Id, salt: Salt, noise: nat -> Byte)
    ensures var r, plan := Sealed(crypto, plaintext, c, key, salt, noise), Planned(|plaintext|, c, key, salt);
            match Layout(|plaintext|, c)
            case Failure(e) => r == Failure(e)
            case Success(_) =>
              && plan.Success?
              && (r == Failure(AuthenticationFailed) <==>
                    var p := plan.value;
                    exists i :: 0 <= i < p.count && Ciphertext(crypto, p, Stream(plaintext, p.padded, noise), i).None?)
              && (r.Failure? ==> r == Failure(AuthenticationFailed))
  {
    hide Layout, LimitsHold, Stream, Ciphertext, DB.Identify, Ciphertexts;
    var plan := Planned(|plaintext|, c, key, salt);
    if plan.Success? {
      CiphertextsExactly(crypto, plan.value, Stream(plaintext, plan.value.padded, noise), plan.value.count);
    }
  }

  lemma PlanIsValid(length: nat, c: U32, key: Id, salt: Salt)
    requires Layout(length, c).Success?
    ensures var padded := Layout(length, c).value;
            && padded < U64_LIMIT && c > 0 && 0 <= padded / c < U32_LIMIT && length + 8 <= padded
            && Plan(key, salt, padded, c, padded / c).Valid()
  {
    hide Layout, IsPowerOfTwo;
    LayoutExact(length, c);
    Divides(Layout(length, c).value, c);
  }

  lemma Divides(p: nat, c: nat)
    requires c > 0 && p % c == 0
    ensures p == (p / c) * c
  {
  }

  // ----- opening -----

  /** One chunk, checked and decrypted. */
  function OpenChunk(crypto: Crypto, key: Id, m: Manifest, i: nat, x: Bytes): Result<Bytes, SealError>
    requires m.Valid() && i < |m.digests|
  {
    if crypto.sha(x) != m.digests[i] then Failure(InvalidObject)
    else
      match crypto.decrypt(crypto.derive(key, m.salt), Nonce(i),
                           AssociatedData(m.salt, m.paddedSize, m.chunkSize, |m.digests|, i), x)
      case None => Failure(AuthenticationFailed)
      case Some(plain) => if |plain| != m.chunkSize then Failure(InvalidObject) else Success(plain)
  }

  /** The stream of the first n chunks. */
  function OpenFirst(crypto: Crypto, key: Id, m: Manifest, chunks: seq<Bytes>, n: nat): (r: Result<Bytes, SealError>)
    requires m.Valid() && |chunks| == |m.digests| && n <= |chunks|
    ensures r.Success? ==> |r.value| == n * m.chunkSize
  {
    if n == 0 then Success([])
    else
      match OpenFirst(crypto, key, m, chunks, n - 1)
      case Failure(e) => Failure(e)
      case Success(s) =>
        match OpenChunk(crypto, key, m, n - 1, chunks[n - 1])
        case Failure(e) => Failure(e)
        case Success(plain) => Success(s + plain)
  }

  /** The plaintext inside a complete stream. */
  function Unpadded(stream: Bytes): Result<Bytes, SealError> {
    if |stream| < 8 then Failure(InvalidObject)
    else
      var length := FromBe(stream[..8]);
      if length > |stream| - 8 then Failure(InvalidObject) else Success(stream[8..8 + length])
  }

  function Opened(crypto: Crypto, key: Id, expected: Id, m: Manifest, chunks: seq<Bytes>): Result<Bytes, SealError>
    requires m.Valid()
  {
    if DB.Identify(crypto.sha, m) != expected || |chunks| != |m.digests| then Failure(InvalidObject)
    else
      match OpenFirst(crypto, key, m, chunks, |chunks|)
      case Failure(e) => Failure(e)
      case Success(stream) => if |stream| != m.paddedSize then Failure(InvalidObject) else Unpadded(stream)
  }

  /** Chunk i is the first that does not open, with this error. */
  ghost predicate FirstToFail(crypto: Crypto, key: Id, m: Manifest, chunks: seq<Bytes>, i: nat, e: SealError)
    requires m.Valid() && |chunks| == |m.digests|
  {
    && i < |chunks| && OpenChunk(crypto, key, m, i, chunks[i]) == Failure(e)
    && forall j :: 0 <= j < i ==> OpenChunk(crypto, key, m, j, chunks[j]).Success?
  }

  ghost predicate FailsWithin(crypto: Crypto, key: Id, m: Manifest, chunks: seq<Bytes>, n: nat, e: SealError)
    requires m.Valid() && |chunks| == |m.digests|
  {
    exists i: nat :: i < n && FirstToFail(crypto, key, m, chunks, i, e)
  }

  lemma {:induction false} OpenFirstExactly(crypto: Crypto, key: Id, m: Manifest, chunks: seq<Bytes>, n: nat)
    requires m.Valid() && |chunks| == |m.digests| && n <= |chunks|
    ensures match OpenFirst(crypto, key, m, chunks, n)
            case Success(_) => forall i :: 0 <= i < n ==> OpenChunk(crypto, key, m, i, chunks[i]).Success?
            case Failure(e) => FailsWithin(crypto, key, m, chunks, n, e)
  {
    hide OpenChunk, LimitsHold;
    if n > 0 {
      var k := n - 1;
      var last := OpenChunk(crypto, key, m, k, chunks[k]);
      OpenFirstExactly(crypto, key, m, chunks, k);
      match OpenFirst(crypto, key, m, chunks, k) {
        case Failure(e) =>
          assert OpenFirst(crypto, key, m, chunks, n) == Failure(e);
          var i: nat :| i < k && FirstToFail(crypto, key, m, chunks, i, e);
          assert i < n && FirstToFail(crypto, key, m, chunks, i, e);
        case Success(_) =>
          if last.Failure? {
            assert FirstToFail(crypto, key, m, chunks, k, last.error);
            assert OpenFirst(crypto, key, m, chunks, n) == Failure(last.error);
          }
      }
    }
  }

  /** Opening reports an authentication failure exactly when the identity and the number of chunks are right
      and the first chunk that does not open has its digest and is refused by the cipher; every other failure
      is an invalid object. */
  lemma OpenReportsExactly(crypto: Crypto, key: Id, expected: Id, m: Manifest, chunks: seq<Bytes>)
    requires m.Valid()
    ensures var r := Opened(crypto, key, expected, m, chunks);
            && (r == Failure(AuthenticationFailed) <==>
                  && DB.Identify(crypto.sha, m) == expected && |chunks| == |m.digests|
                  && FailsWithin(crypto, key, m, chunks, |chunks|, AuthenticationFailed))
            && (r.Failure? ==> r.error in {AuthenticationFailed, InvalidObject})
  {
    hide DB.Identify, LimitsHold, FromBe, OpenChunk;
    if |chunks| == |m.digests| {
      OpenFirstExactly(crypto, key, m, chunks, |chunks|);
      forall i: nat, e | FirstToFail(crypto, key, m, chunks, i, e) ensures e in {AuthenticationFailed, InvalidObject} {
        ChunkErrors(crypto, key, m, i, chunks[i]);
      }
    }
  }

  lemma ChunkErrors(crypto: Crypto, key: Id, m: Manifest, i: nat, x: Bytes)
    requires m.Valid() && i < |m.digests|
    ensures var r := OpenChunk(crypto, key, m, i, x);
            && (r.Failure? ==> r.error in {AuthenticationFailed, InvalidObject})
            && (r == Failure(AuthenticationFailed) ==> crypto.sha(x) == m.digests[i])
  {
    hide AssociatedData, Nonce, LimitsHold;
  }

  method Open(crypto: Crypto, key: Id, expected: Id, m: Manifest, chunks: seq<Bytes>)
    returns (r: Result<Bytes, SealError>)
    requires m.Valid()
    ensures r == Opened(crypto, key, expected, m, chunks)
  {
    hide DB.Identify, LimitsHold, FromBe;
    if DB.Identify(crypto.sha, m) != expected || |chunks| != |m.digests| {
      return Failure(InvalidObject);
    }
    var stream: Bytes := [];
    var index := 0;
    while index < |chunks|
      invariant 0 <= index <= |chunks|
      invariant OpenFirst(crypto, key, m, chunks, index) == Success(stream)
    {
      var plain := OpenChunk(crypto, key, m, index, chunks[index]);
      if plain.Failure? {
        FailureSpreads(crypto, key, m, chunks, index + 1, |chunks|);
        return Failure(plain.error);
      }
      stream := stream + plain.value;
      index := index + 1;
    }
    if |stream| != m.paddedSize {
      return Failure(InvalidObject);
    }
    return Unpadded(stream);
  }

  lemma {:induction false} FailureSpreads(crypto: Crypto, key: Id, m: Manifest, chunks: seq<Bytes>, i: nat, n: nat)
    requires m.Valid() && |chunks| == |m.digests| && i <= n <= |chunks|
    requires OpenFirst(crypto, key, m, chunks, i).Failure?
    ensures OpenFirst(crypto, key, m, chunks, n) == OpenFirst(crypto, key, m, chunks, i)
  {
    hide OpenChunk, LimitsHold;
    if i < n {
      FailureSpreads(crypto, key, m, chunks, i, n - 1);
    }
  }

  // ----- round trip -----

  lemma SealedChunkOpens(crypto: Crypto, p: Plan, stream: Bytes, i: nat)
    requires Lawful(crypto) && p.Valid() && |stream| == p.padded && i < p.count && ObjectOf(crypto, p, stream).Success?
    ensures var e := ObjectOf(crypto, p, stream).value;
            OpenChunk(crypto, p.key, e.manifest, i, e.chunks[i]) == Success(Plain(p, stream, i))
  {
    hide LimitsHold, Nonce, AssociatedData, Plain, DB.Identify;
  }

  /** The part of the stream that the first n chunks hold. */
  function Front(p: Plan, stream: Bytes, n: nat): Bytes
    requires p.Valid() && |stream| == p.padded && n <= p.count
  {
    Ends(n, p.count, p.c);
    stream[..n * p.c]
  }

  lemma Ends(n: nat, count: nat, c: nat)
    requires n <= count
    ensures 0 <= n * c <= count * c
  {
  }

  lemma FrontGrows(p: Plan, stream: Bytes, n: nat)
    requires p.Valid() && |stream| == p.padded && n < p.count
    ensures Front(p, stream, n + 1) == Front(p, stream, n) + Plain(p, stream, n)
  {
    hide LimitsHold;
    Within(n, p.count, p.c);
    var a := n * p.c;
    assert (n + 1) * p.c == a + p.c;
    assert stream[..a + p.c] == stream[..a] + stream[a..a + p.c];
  }

  lemma {:induction false} SealedStreamOpens(crypto: Crypto, p: Plan, stream: Bytes, e: EncryptedBlob, n: nat)
    requires Lawful(crypto) && p.Valid() && |stream| == p.padded && n <= p.count
    requires ObjectOf(crypto, p, stream) == Success(e)
    ensures OpenFirst(crypto, p.key, e.manifest, e.chunks, n) == Success(Front(p, stream, n))
  {
    hide LimitsHold, Lawful, OpenChunk, Ciphertexts, DB.Identify, Plain;
    if n > 0 {
      hide Front;
      SealedStreamOpens(crypto, p, stream, e, n - 1);
      SealedChunkOpens(crypto, p, stream, n - 1);
      FrontGrows(p, stream, n - 1);
    }
  }

  lemma StreamUnpads(plaintext: Bytes, padded: nat, noise: nat -> Byte)
    requires |plaintext| + 8 <= padded < U64_LIMIT
    ensures Unpadded(Stream(plaintext, padded, noise)) == Success(plaintext)
  {
    assert Pow256(8) == U64_LIMIT;
    FromBeOfBe(|plaintext|, 8);
    var s := Stream(plaintext, padded, noise);
    assert s[..8] == Be(|plaintext|, 8);
    assert s[8..8 + |plaintext|] == plaintext;
  }

  /** Opening what was sealed returns the plaintext, for every plaintext, key, salt and padding. */
  lemma OpenOfSeal(crypto: Crypto, plaintext: Bytes, c: U32, key: Id, salt: Salt, noise: nat -> Byte)
    requires Lawful(crypto)
    ensures match Sealed(crypto, plaintext, c, key, salt, noise)
            case Failure(e) => e != InvalidObject
            case Success(e) =>
              e.manifest.Valid()
              && Opened(crypto, e.key, e.blobId, e.manifest, e.chunks) == Success(plaintext)
  {
    hide LimitsHold, Lawful, Stream, Unpadded, OpenFirst, Ciphertexts, DB.Identify;
    var plan := Planned(|plaintext|, c, key, salt);
    if plan.Success? {
      var p := plan.value;
      var stream := Stream(plaintext, p.padded, noise);
      if ObjectOf(crypto, p, stream).Success? {
        SealedStreamOpens(crypto, p, stream, ObjectOf(crypto, p, stream).value, p.count);
        assert Front(p, stream, p.count) == stream;
        StreamUnpads(plaintext, p.padded, noise);
      }
    }
  }

  /** What is sealed can be uploaded: the manifest is accepted from its bytes and every chunk has the
      length and digest the relay asks for. */
  lemma SealedIsUploadable(crypto: Crypto, plaintext: Bytes, c: U32, key: Id, salt: Salt, noise: nat -> Byte)
    requires Lawful(crypto) && Sealed(crypto, plaintext, c, key, salt, noise).Success?
    ensures var e := Sealed(crypto, plaintext, c, key, salt, noise).value;
            && e.manifest.Valid() && Parse(ManifestBytes(e.manifest)) == Success(e.manifest)
            && e.blobId == DB.Identify(crypto.sha, e.manifest)
            && |e.chunks| == |e.manifest.digests|
            && forall i :: 0 <= i < |e.chunks| ==> DB.ChunkFits(crypto.sha, e.manifest, i, e.chunks[i])
  {
    hide LimitsHold, Stream, DB.Identify, Planned, Parse, ManifestBytes;
    var e := Sealed(crypto, plaintext, c, key, salt, noise).value;
    ParseExact(ManifestBytes(e.manifest), e.manifest);
  }

  lemma {:induction false} OpenFirstChecks(crypto: Crypto, key: Id, m: Manifest, chunks: seq<Bytes>, n: nat)
    requires m.Valid() && |chunks| == |m.digests| && n <= |chunks|
    ensures OpenFirst(crypto, key, m, chunks, n).Success? ==>
              forall i :: 0 <= i < n ==> OpenChunk(crypto, key, m, i, chunks[i]).Success?
  {
    hide OpenChunk, LimitsHold;
    if n > 0 {
      OpenFirstChecks(crypto, key, m, chunks, n - 1);
    }
  }

  /** Plaintext is returned only for the expected identity and the digests it fixes, in order; so two
      chunk lists opened under one manifest agree digest by digest. */
  lemma OpenFailsClosed(crypto: Crypto, key: Id, expected: Id, m: Manifest, chunks: seq<Bytes>)
    requires m.Valid() && Opened(crypto, key, expected, m, chunks).Success?
    ensures DB.Identify(crypto.sha, m) == expected && Digests(crypto.sha, chunks) == m.digests
  {
    hide LimitsHold, Unpadded;
    OpenFirstChecks(crypto, key, m, chunks, |chunks|);
    forall i | 0 <= i < |chunks| ensures crypto.sha(chunks[i]) == m.digests[i] {
      assert OpenChunk(crypto, key, m, i, chunks[i]).Success?;
    }
  }
}
