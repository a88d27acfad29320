/** Where each field lies in what is sealed, signed over or persisted: associated data, nonces, padded
    streams, upload snapshots and offline bundles. */
module FieldLayouts {
  import opened Base
  import opened Manifest
  import B = OfflineBundle
  import DB = DurableBlob
  import N = Snapshot
  import S = Sealing
  import U = Uploader

  /** The text as bytes. */
  function Ascii(s: string): (b: Bytes)
    requires forall i :: 0 <= i < |s| ==> s[i] as int < 128
    ensures |b| == |s| && forall i :: 0 <= i < |s| ==> b[i] == s[i] as int
  {
    seq(|s|, i requires 0 <= i < |s| => s[i] as int)
  }

  lemma DomainsAreText()
    ensures DB.IDENTITY_DOMAIN == Ascii("cofferwire blob identity v1\0")
    ensures S.CHUNK_DOMAIN == Ascii("cofferwire blob chunk v1\0")
    ensures MAGIC == Ascii("CWB1") && N.SNAPSHOT_MAGIC == Ascii("CWBU") && B.BUNDLE_MAGIC == Ascii("CWOB")
  {
  }

  /** One field at its place, and what follows it. */
  lemma Field(b: Bytes, at: nat, x: Bytes, rest: Bytes)
    requires at <= |b| && b[at..] == x + rest
    ensures at + |x| <= |b| && b[at..at + |x|] == x && b[at + |x|..] == rest
  {
    assert |b| - at == |x| + |rest|;
    forall i | 0 <= i < |x| ensures b[at + i] == x[i] {
      assert b[at..][i] == (x + rest)[i];
    }
    forall i | 0 <= i < |rest| ensures b[at + |x| + i] == rest[i] {
      assert b[at..][|x| + i] == (x + rest)[|x| + i];
    }
  }

  /** A number at its place. */
  predicate Holds(b: Bytes, at: nat, width: nat, n: nat) {
    at + width <= |b| && FromBe(b[at..at + width]) == n
  }

  lemma Number(b: Bytes, at: nat, n: nat, width: nat, rest: Bytes)
    requires n < Pow256(width) && at <= |b| && b[at..] == Be(n, width) + rest
    ensures Holds(b, at, width, n) && b[at + width..] == rest
  {
    hide Be, FromBe;
    Field(b, at, Be(n, width), rest);
    FromBeOfBe(n, width);
  }

  // ----- chunks -----

  /** Four zero bytes and the index. */
  lemma NonceFields(i: U64)
    ensures |S.Nonce(i)| == 12 && S.Nonce(i)[..4] == [0, 0, 0, 0] && Holds(S.Nonce(i), 4, 8, i)
  {
    assert Pow256(8) == U64_LIMIT;
    hide Be, FromBe, Pow256;
    var b := S.Nonce(i);
    assert b[4..] == Be(i, 8) + [];
    Number(b, 4, i, 8, []);
  }

  /** Domain, two versions, salt, both sizes, count and index, and nothing else. */
  lemma AssociatedDataFields(salt: Salt, padded: U64, c: U32, count: U32, i: U32)
    ensures var b := S.AssociatedData(salt, padded, c, count, i);
            && |b| == 65 && b[..25] == S.CHUNK_DOMAIN && b[25..29] == [0, 1, 0, 1] && b[29..45] == salt
            && Holds(b, 45, 8, padded) && Holds(b, 53, 4, c) && Holds(b, 57, 4, count) && Holds(b, 61, 4, i)
  {
    assert Pow256(8) == U64_LIMIT && Pow256(4) == U32_LIMIT;
    hide Be, FromBe, Pow256;
    var b := S.AssociatedData(salt, padded, c, count, i);
    var t4 := Be(i, 4) + [];
    var t3 := Be(count, 4) + t4;
    var t2 := Be(c, 4) + t3;
    var t1 := Be(padded, 8) + t2;
    assert b == S.CHUNK_DOMAIN + ([0, 1, 0, 1] + (salt + t1));
    Field(b, 0, S.CHUNK_DOMAIN, [0, 1, 0, 1] + (salt + t1));
    Field(b, 25, [0, 1, 0, 1], salt + t1);
    Field(b, 29, salt, t1);
    Number(b, 45, padded, 8, t2);
    Number(b, 53, c, 4, t3);
    Number(b, 57, count, 4, t4);
    Number(b, 61, i, 4, []);
  }

  /** Associated data bind every parameter: they are equal exactly for equal salt, sizes, count and index. */
  lemma AssociatedDataBinds(s: Salt, p: U64, c: U32, n: U32, i: U32, s': Salt, p': U64, c': U32, n': U32, i': U32)
    ensures S.AssociatedData(s, p, c, n, i) == S.AssociatedData(s', p', c', n', i') <==>
              s == s' && p == p' && c == c' && n == n' && i == i'
  {
    hide S.AssociatedData, FromBe;
    AssociatedDataFields(s, p, c, n, i);
    AssociatedDataFields(s', p', c', n', i');
  }

  /** The plaintext's length, the plaintext, and noise to the end. */
  lemma StreamFields(plaintext: Bytes, padded: nat, noise: nat -> Byte)
    requires |plaintext| + 8 <= padded && padded < U64_LIMIT
    ensures var b, n := S.Stream(plaintext, padded, noise), |plaintext|;
            && |b| == padded && Holds(b, 0, 8, n) && b[8..8 + n] == plaintext
            && b[8 + n..] == S.Filler(padded - 8 - n, noise)
  {
    assert Pow256(8) == U64_LIMIT;
    hide Be, FromBe, Pow256, S.Filler;
    var b, n := S.Stream(plaintext, padded, noise), |plaintext|;
    ThreeParts(Be(n, 8), plaintext, S.Filler(padded - 8 - n, noise));
    FromBeOfBe(n, 8);
  }

  lemma ThreeParts(x: Bytes, y: Bytes, z: Bytes)
    ensures var b := x + y + z;
            && b[0..|x|] == x && b[|x|..|x| + |y|] == y && b[|x| + |y|..] == z
  {
    var b := x + y + z;
    assert b[0..|x|] == x;
    assert b[|x|..|x| + |y|] == y;
  }

  // ----- snapshots -----

  lemma KeyFields(b: Bytes, k: N.Keys, rest: Bytes)
    requires |b| >= 5 && b[5..] == N.PutKeys(k, rest)
    ensures |b| >= 197 && b[5..37] == k.uploadId && b[37..69] == k.objectKey && b[69..101] == k.uploadSeed
    ensures b[101..133] == k.downloadSeed && b[133..165] == k.renewSeed && b[165..197] == k.deleteSeed
    ensures b[197..] == rest
  {
    var t5 := k.deleteSeed + rest;
    var t4 := k.renewSeed + t5;
    var t3 := k.downloadSeed + t4;
    var t2 := k.uploadSeed + t3;
    var t1 := k.objectKey + t2;
    Field(b, 5, k.uploadId, t1);
    Field(b, 37, k.objectKey, t2);
    Field(b, 69, k.uploadSeed, t3);
    Field(b, 101, k.downloadSeed, t4);
    Field(b, 133, k.renewSeed, t5);
    Field(b, 165, k.deleteSeed, rest);
  }

  lemma ProgressFields(b: Bytes, p: N.Progress, rest: Bytes)
    requires |b| >= 197 && b[197..] == N.PutProgress(p, rest)
    ensures |b| >= 210 && Holds(b, 197, 8, p.ttl) && b[205..206] == [p.tag] && Holds(b, 206, 4, p.index)
    ensures b[210..] == rest
  {
    assert Pow256(8) == U64_LIMIT && Pow256(4) == U32_LIMIT;
    hide Be, FromBe, Pow256;
    var t := N.PutU32(p.index, rest);
    Number(b, 197, p.ttl, 8, [p.tag] + t);
    Field(b, 205, [p.tag], t);
    Number(b, 206, p.index, 4, rest);
  }

  lemma ManifestLength(b: Bytes, c: N.Content)
    requires c.Valid() && |b| >= 210 && b[210..] == N.PutContent(c, [])
    ensures |b| >= 214 && Holds(b, 210, 4, |ManifestBytes(c.manifest)|)
  {
    assert Pow256(4) == U32_LIMIT;
    hide Be, FromBe, Pow256, N.PutChunks, ManifestBytes;
    var m := ManifestBytes(c.manifest);
    Number(b, 210, |m|, 4, m + N.PutU32(|c.chunks|, N.PutChunks(c.chunks, N.PutSized(c.pending, []))));
  }

  /** Magic, version, keys, lifetime, stage, and the length that precedes the manifest. */
  lemma SnapshotFields(s: N.State)
    requires s.content.Valid()
    ensures var b, k, p := N.StateBytes(s), s.keys, s.progress;
            && |b| >= 214 && b[..4] == N.SNAPSHOT_MAGIC && b[4..5] == [1]
            && b[5..37] == k.uploadId && b[37..69] == k.objectKey && b[69..101] == k.uploadSeed
            && b[101..133] == k.downloadSeed && b[133..165] == k.renewSeed && b[165..197] == k.deleteSeed
            && Holds(b, 197, 8, p.ttl) && b[205..206] == [p.tag] && Holds(b, 206, 4, p.index)
            && Holds(b, 210, 4, |ManifestBytes(s.content.manifest)|)
  {
    hide N.PutKeys, N.PutProgress, N.PutContent, ManifestBytes, Holds;
    var b, content := N.StateBytes(s), N.PutContent(s.content, []);
    var t1 := N.PutProgress(s.progress, content);
    Field(b, 0, N.SNAPSHOT_MAGIC, [1] + N.PutKeys(s.keys, t1));
    Field(b, 4, [1], N.PutKeys(s.keys, t1));
    KeyFields(b, s.keys, t1);
    ProgressFields(b, s.progress, content);
    ManifestLength(b, s.content);
  }

  /** The stage as it is persisted: begin 0, chunk 1 with its index, commit 2, complete 3. */
  lemma StageFields(x: U.Suite, up: U.Upload)
    requires U.Storable(x, up)
    ensures var b := U.ToBytes(x, up);
            && |b| >= 210
            && match up.stage
               case Begin => b[205..206] == [0] && Holds(b, 206, 4, 0)
               case Chunk(i) => b[205..206] == [1] && Holds(b, 206, 4, i)
               case Commit => b[205..206] == [2] && Holds(b, 206, 4, 0)
               case Complete => b[205..206] == [3] && Holds(b, 206, 4, 0)
  {
    hide N.StateBytes, Holds, U.Storable, ManifestBytes;
    SnapshotFields(U.StateOf(x, up));
  }

  // ----- bundles -----

  lemma OwnFields(b: Bytes, own: Option<B.OwnIdentity>, rest: Bytes)
    requires |b| >= 74 && b[74..] == B.PutOwn(own, rest)
    ensures match own
            case None => b[74..] == rest
            case Some(k) =>
              |b| >= 138 && b[74..106] == k.signingSeed && b[106..138] == k.encryptionSeed && b[138..] == rest
  {
    if own.Some? {
      Field(b, 74, own.value.signingSeed, own.value.encryptionSeed + rest);
      Field(b, 106, own.value.encryptionSeed, rest);
    }
  }

  /** Type (invitation 1, recovery 2), role (sender 0, recipient 1), peer, key, time, the own seeds of a
      recovery, and the number of hints. */
  lemma BundleFieldsAt(f: B.BundleFields)
    requires f.InBounds()
    ensures var b := B.FieldsBytes(f);
            && |b| >= 75 && b[..1] == [if f.own.Some? then 2 else 1] && b[1..2] == [if f.role.Sender? then 0 else 1]
            && b[2..34] == f.peer && b[34..66] == f.peerKey && Holds(b, 66, 8, f.createdAt)
            && match f.own
               case None => b[74..75] == [|f.hints|]
               case Some(k) =>
                 && |b| >= 139 && b[74..106] == k.signingSeed && b[106..138] == k.encryptionSeed
                 && b[138..139] == [|f.hints|]
  {
    assert Pow256(8) == U64_LIMIT;
    hide Be, FromBe, Pow256, B.PutOwn;
    var b, hints := B.FieldsBytes(f), B.PutHints(f.hints, []);
    var t4 := B.PutOwn(f.own, [|f.hints|] + hints);
    var t3 := N.PutU64(f.createdAt, t4);
    var t2 := f.peerKey + t3;
    var t1 := f.peer + t2;
    Field(b, 0, [B.TypeOf(f.own)], [B.RoleByte(f.role)] + t1);
    Field(b, 1, [B.RoleByte(f.role)], t1);
    Field(b, 2, f.peer, t2);
    Field(b, 34, f.peerKey, t3);
    Number(b, 66, f.createdAt, 8, t4);
    OwnFields(b, f.own, [|f.hints|] + hints);
    Field(b, if f.own.Some? then 138 else 74, [|f.hints|], hints);
  }

  /** Magic, version, both identifiers, and the sealed fields. */
  lemma EnvelopeFields(queue: Id, bundle: Id, sealed: Bytes)
    ensures var b := B.Envelope(queue, bundle, sealed);
            && |b| == 69 + |sealed| && b[..4] == B.BUNDLE_MAGIC && b[4..5] == [1]
            && b[5..37] == queue && b[37..69] == bundle && b[69..] == sealed
  {
    var b := B.Envelope(queue, bundle, sealed);
    Field(b, 0, B.BUNDLE_MAGIC, [1] + (queue + (bundle + sealed)));
    Field(b, 4, [1], queue + (bundle + sealed));
    Field(b, 5, queue, bundle + sealed);
    Field(b, 37, bundle, sealed);
  }
}
