/** What every reachable blob database satisfies, and what no command ever changes. */
module BlobInvariant {
  import opened Base
  import opened Manifest
  import opened BlobCodec
  import opened DurableBlob
  import DQ = DurableQueue

  type Uploads = map<Id, UploadRow>
  type Cells = map<(Id, nat), Cell>
  type Objects = map<Id, Bytes>

  // ----- the invariant -----

  predicate Parses(b: Bytes) {
    Parse(b).Success?
  }

  function Decoded(b: Bytes): (m: Manifest)
    requires Parses(b)
    ensures m.Valid() && b == ManifestBytes(m) && Parse(b) == Success(m)
  {
    ParseExact(b, Parse(b).value);
    Parse(b).value
  }

  ghost predicate UploadsSound(uploads: Uploads) {
    forall u :: u in uploads ==> Parses(uploads[u].manifest)
  }

  /** The cell holds chunk i of the manifest with these bytes. */
  ghost predicate Fits(sha: Hash, manifest: Bytes, i: nat, x: Bytes) {
    Parses(manifest) && ChunkFits(sha, Decoded(manifest), i, x)
  }

  /** Staged chunks are in range and have the digests of their upload's manifest. */
  ghost predicate StagedSound(sha: Hash, uploads: Uploads, staged: Cells) {
    forall k :: k in staged ==> k.0 in uploads && Fits(sha, uploads[k.0].manifest, k.1, staged[k])
  }

  /** The object has the identity of its manifest. */
  ghost predicate Identified(sha: Hash, manifest: Bytes, b: Id) {
    Parses(manifest) && Identify(sha, Decoded(manifest)) == b
  }

  ghost predicate InRange(manifest: Bytes, i: nat) {
    Parses(manifest) && i < |Decoded(manifest).digests|
  }

  /** Every object has the identity of its manifest. */
  ghost predicate ObjectsIdentified(sha: Hash, objects: Objects) {
    forall b :: b in objects ==> Identified(sha, objects[b], b)
  }

  /** Every object has every chunk of its manifest. */
  ghost predicate ObjectsComplete(objects: Objects, chunks: Cells) {
    forall b, i: nat :: b in objects && InRange(objects[b], i) ==> (b, i) in chunks
  }

  /** Chunks belong to objects, are in range, and have the digests of the object's manifest. */
  ghost predicate ChunksSound(sha: Hash, objects: Objects, chunks: Cells) {
    forall k :: k in chunks ==> k.0 in objects && Fits(sha, objects[k.0], k.1, chunks[k])
  }

  /** A grant stands for one committed upload and points to an object with that upload's manifest. */
  ghost predicate GrantSound(uploads: Uploads, objects: Objects, g: Grant) {
    && g.blob in objects && g.id in uploads
    && uploads[g.id].committed == Some(g.blob)
    && uploads[g.id].manifest == objects[g.blob]
    && uploads[g.id].capabilities == g.capabilities
  }

  ghost predicate GrantsSound(uploads: Uploads, objects: Objects, grants: seq<Grant>) {
    forall i :: 0 <= i < |grants| ==> GrantSound(uploads, objects, grants[i])
  }

  ghost predicate GrantsDistinct(grants: seq<Grant>) {
    forall i, j :: 0 <= i < j < |grants| ==> grants[i].id != grants[j].id
  }

  /** An upload marked committed has a grant; the converse is in `GrantSound`. */
  ghost predicate CommittedGranted(uploads: Uploads, grants: seq<Grant>) {
    forall u :: u in uploads && uploads[u].committed.Some? ==> Granted(grants, u)
  }

  ghost predicate Sound(sha: Hash, db: BlobDb) {
    && UploadsSound(db.uploads) && StagedSound(sha, db.uploads, db.staged)
    && ObjectsIdentified(sha, db.objects) && ObjectsComplete(db.objects, db.chunks)
    && ChunksSound(sha, db.objects, db.chunks)
    && GrantsSound(db.uploads, db.objects, db.grants) && GrantsDistinct(db.grants)
    && CommittedGranted(db.uploads, db.grants)
  }

  // ----- what no command changes -----

  ghost predicate UploadKept(r: UploadRow, r': UploadRow) {
    && r' == r.(committed := r'.committed)
    && (r.committed.Some? ==> r'.committed == r.committed)
  }

  ghost predicate UploadsKept(uploads: Uploads, uploads': Uploads) {
    forall u :: u in uploads ==> u in uploads' && UploadKept(uploads[u], uploads'[u])
  }

  ghost predicate Extends<K(!new), V(!new)>(m: map<K, V>, m': map<K, V>) {
    forall k :: k in m ==> k in m' && m'[k] == m[k]
  }

  /** Published objects gain no chunk. */
  ghost predicate ChunksClosed(objects: Objects, chunks: Cells, chunks': Cells) {
    forall k :: k in chunks' && k.0 in objects ==> k in chunks
  }

  ghost predicate GrantKept(g: Grant, g': Grant) {
    && g' == g.(expiresAt := g'.expiresAt, deleted := g'.deleted)
    && (g.deleted ==> g' == g)
  }

  ghost predicate GrantsKept(grants: seq<Grant>, grants': seq<Grant>) {
    |grants| <= |grants'| && forall i :: 0 <= i < |grants| ==> GrantKept(grants[i], grants'[i])
  }

  /** Uploads, staged chunks, objects and grants are only added; published objects and their chunks
      never change; a deleted grant stays deleted. */
  ghost predicate Keeps(db: BlobDb, db': BlobDb) {
    && UploadsKept(db.uploads, db'.uploads)
    && Extends(db.staged, db'.staged)
    && Extends(db.objects, db'.objects)
    && Extends(db.chunks, db'.chunks) && ChunksClosed(db.objects, db.chunks, db'.chunks)
    && GrantsKept(db.grants, db'.grants)
  }

  lemma KeepsTransitive(a: BlobDb, b: BlobDb, c: BlobDb)
    requires Keeps(a, b) && Keeps(b, c)
    ensures Keeps(a, c)
  {
    forall i | 0 <= i < |a.grants| ensures GrantKept(a.grants[i], c.grants[i]) {
      assert GrantKept(a.grants[i], b.grants[i]) && GrantKept(b.grants[i], c.grants[i]);
    }
  }

  // ----- the four kinds of change -----

  /** A new upload. */
  ghost predicate Opens(db: BlobDb, db': BlobDb, u: Id, row: UploadRow) {
    && u !in db.uploads && Parses(row.manifest) && row.committed.None?
    && db' == db.(uploads := db.uploads[u := row])
  }

  /** A new staged chunk. */
  ghost predicate Stages(sha: Hash, db: BlobDb, db': BlobDb, k: (Id, nat), x: Cell) {
    && k !in db.staged && k.0 in db.uploads && Fits(sha, db.uploads[k.0].manifest, k.1, x)
    && db' == db.(staged := db.staged[k := x])
  }

  /** A publication. */
  ghost predicate Publishes(sha: Hash, db: BlobDb, db': BlobDb, u: Id, b: Id) {
    && u in db.uploads && db.uploads[u].committed.None?
    && Identified(sha, db.uploads[u].manifest, b)
    && (forall i: nat :: InRange(db.uploads[u].manifest, i) ==> (u, i) in db.staged)
    && (b in db.objects ==> db.objects[b] == db.uploads[u].manifest)
    && !Granted(db.grants, u)
    && db' == Publish(db, u, b).0
  }

  /** Grants with other expiries or deletion marks. */
  ghost predicate Regrants(db: BlobDb, db': BlobDb) {
    GrantsKept(db.grants, db'.grants) && |db'.grants| == |db.grants| && db' == db.(grants := db'.grants)
  }

  lemma OpensSound(sha: Hash, db: BlobDb, db': BlobDb, u: Id, row: UploadRow)
    requires Sound(sha, db) && Opens(db, db', u, row)
    ensures Sound(sha, db') && Keeps(db, db')
  {
    hide Parses, Fits, Identified, InRange, Granted;
  }

  lemma StagesSound(sha: Hash, db: BlobDb, db': BlobDb, k: (Id, nat), x: Cell)
    requires Sound(sha, db) && Stages(sha, db, db', k, x)
    ensures Sound(sha, db') && Keeps(db, db')
  {
    hide Parses, Fits, Identified, InRange, Granted;
  }

  lemma RegrantsSound(sha: Hash, db: BlobDb, db': BlobDb)
    requires Sound(sha, db) && Regrants(db, db')
    ensures Sound(sha, db') && Keeps(db, db')
  {
    hide Parses, Fits, Identified, InRange, Granted;
    forall u | Granted(db.grants, u) ensures Granted(db'.grants, u) {
      GrantedStays(db.grants, db'.grants, u);
    }
    forall i | 0 <= i < |db'.grants| ensures GrantSound(db.uploads, db.objects, db'.grants[i]) {
      assert GrantSound(db.uploads, db.objects, db.grants[i]) && GrantKept(db.grants[i], db'.grants[i]);
    }
    assert GrantsDistinct(db'.grants) by {
      assert forall i :: 0 <= i < |db.grants| ==> GrantKept(db.grants[i], db'.grants[i]);
    }
  }

  lemma GrantedStays(grants: seq<Grant>, grants': seq<Grant>, u: Id)
    requires GrantsKept(grants, grants')
    ensures Granted(grants, u) ==> Granted(grants', u)
  {
    if Granted(grants, u) {
      var i :| 0 <= i < |grants| && grants[i].id == u;
      assert GrantKept(grants[i], grants'[i]);
    }
  }

  lemma PublishObjects(sha: Hash, db: BlobDb, db': BlobDb, u: Id, b: Id)
    requires Sound(sha, db) && Publishes(sha, db, db', u, b)
    ensures ObjectsIdentified(sha, db'.objects) && Extends(db.objects, db'.objects)
    ensures b in db'.objects && db'.objects[b] == db.uploads[u].manifest
  {
    hide Parses, Fits, Identified, InRange, Granted, Copied;
  }

  lemma CopiedCells(db: BlobDb, u: Id, b: Id, k: (Id, nat))
    ensures k in Copied(db, u, b) <==> k in db.chunks || (k.0 == b && (u, k.1) in db.staged)
    ensures k in Copied(db, u, b) ==>
              Copied(db, u, b)[k] == if k in db.chunks then db.chunks[k] else db.staged[(u, k.1)]
  {
    if k.0 == b && (u, k.1) in db.staged {
      assert (b, (u, k.1).1) == k;
    }
  }

  lemma PublishChunks(sha: Hash, db: BlobDb, db': BlobDb, u: Id, b: Id)
    requires Sound(sha, db) && Publishes(sha, db, db', u, b)
    ensures ChunksSound(sha, db'.objects, db'.chunks) && ObjectsComplete(db'.objects, db'.chunks)
    ensures Extends(db.chunks, db'.chunks)
  {
    hide Parses, Fits, Identified, InRange, Granted, Copied;
    PublishObjects(sha, db, db', u, b);
    forall k ensures k in db'.chunks <==> k in db.chunks || (k.0 == b && (u, k.1) in db.staged)
             ensures k in db'.chunks ==> db'.chunks[k] == if k in db.chunks then db.chunks[k] else db.staged[(u, k.1)]
    {
      CopiedCells(db, u, b, k);
    }
    forall k | k in db'.chunks ensures k.0 in db'.objects && Fits(sha, db'.objects[k.0], k.1, db'.chunks[k]) {
      if k !in db.chunks {
        assert Fits(sha, db.uploads[u].manifest, k.1, db.staged[(u, k.1)]);
      }
    }
  }

  lemma PublishClosed(sha: Hash, db: BlobDb, db': BlobDb, u: Id, b: Id)
    requires Sound(sha, db) && Publishes(sha, db, db', u, b)
    ensures ChunksClosed(db.objects, db.chunks, db'.chunks)
  {
    hide Parses, Identified, Granted, Copied;
    forall k | k in db'.chunks && k.0 in db.objects ensures k in db.chunks {
      CopiedCells(db, u, b, k);
      if k.0 == b && (u, k.1) in db.staged {
        assert Fits(sha, db.uploads[u].manifest, k.1, db.staged[(u, k.1)]);
        assert InRange(db.objects[b], k.1);
      }
    }
  }

  lemma PublishGrants(sha: Hash, db: BlobDb, db': BlobDb, u: Id, b: Id)
    requires Sound(sha, db) && Publishes(sha, db, db', u, b)
    ensures GrantsSound(db'.uploads, db'.objects, db'.grants) && GrantsDistinct(db'.grants)
    ensures CommittedGranted(db'.uploads, db'.grants)
    ensures UploadsKept(db.uploads, db'.uploads) && GrantsKept(db.grants, db'.grants)
  {
    hide Parses, Fits, Identified, InRange, Copied, StagedSound, ObjectsIdentified, ObjectsComplete, ChunksSound;
    PublishObjects(sha, db, db', u, b);
    forall i | 0 <= i < |db'.grants| ensures GrantSound(db'.uploads, db'.objects, db'.grants[i]) {
      if i < |db.grants| {
        assert GrantSound(db.uploads, db.objects, db.grants[i]);
      }
    }
    forall v | v in db'.uploads && db'.uploads[v].committed.Some? ensures Granted(db'.grants, v) {
      if v == u {
        assert db'.grants[|db.grants|].id == v;
      } else {
        GrantedStays(db.grants, db'.grants, v);
      }
    }
  }

  lemma PublishesSound(sha: Hash, db: BlobDb, db': BlobDb, u: Id, b: Id)
    requires Sound(sha, db) && Publishes(sha, db, db', u, b)
    ensures Sound(sha, db') && Keeps(db, db')
  {
    hide Parses, Fits, Identified, InRange, Granted, Copied, GrantSound, GrantKept;
    PublishObjects(sha, db, db', u, b);
    PublishChunks(sha, db, db', u, b);
    PublishClosed(sha, db, db', u, b);
    PublishGrants(sha, db, db', u, b);
  }

  // ----- the row-count test implies completeness -----

  lemma {:induction false} IndicesCount(u: Id, n: nat)
    ensures |set i: nat | i < n :: (u, i)| == n
  {
    if n > 0 {
      IndicesCount(u, n - 1);
      assert (set i: nat | i < n :: (u, i)) == (set i: nat | i < n - 1 :: (u, i)) + {(u, n - 1)};
    }
  }

  lemma SameSize<T>(a: set<T>, b: set<T>)
    requires a <= b
    ensures |a| == |b| <==> a == b
  {
    assert b == a + (b - a);
    assert |b| == |a| + |b - a|;
  }

  /** The staged keys of an upload are among the indices of its manifest. */
  lemma StagedKeysInRange(sha: Hash, db: BlobDb, u: Id, n: nat)
    requires Sound(sha, db) && u in db.uploads && n == |Decoded(db.uploads[u].manifest).digests|
    ensures StagedKeys(db, u) <= set i: nat | i < n :: (u, i)
  {
    hide Parses, Decoded, Identified;
    forall k | k in StagedKeys(db, u) ensures k in set i: nat | i < n :: (u, i) {
      assert Fits(sha, db.uploads[u].manifest, k.1, db.staged[k]);
      assert (u, k.1) == k;
    }
  }

  /** Pigeonhole: n distinct indices below n are all of them. */
  lemma KeysCount(keys: set<(Id, nat)>, u: Id, n: nat)
    requires keys <= set i: nat | i < n :: (u, i)
    ensures |keys| == n <==> forall i: nat :: i < n ==> (u, i) in keys
  {
    var all := set i: nat | i < n :: (u, i);
    IndicesCount(u, n);
    SameSize(keys, all);
    assert keys == all <==> forall i: nat :: i < n ==> (u, i) in keys by {
      forall i: nat | i < n ensures (u, i) in all {
      }
    }
  }

  /** Counting the staged rows of an upload decides whether all its chunks are there. */
  lemma CountIsCompleteness(sha: Hash, db: BlobDb, u: Id)
    requires Sound(sha, db) && u in db.uploads
    ensures var n := |Decoded(db.uploads[u].manifest).digests|;
            |StagedKeys(db, u)| == n <==> forall i: nat :: i < n ==> (u, i) in db.staged
  {
    hide StagedSound, ObjectsIdentified, ObjectsComplete, ChunksSound, GrantsSound, GrantsDistinct, CommittedGranted,
      Decoded, Parses;
    var n := |Decoded(db.uploads[u].manifest).digests|;
    StagedKeysInRange(sha, db, u, n);
    KeysCount(StagedKeys(db, u), u, n);
  }

  // ----- every command -----

  /** The upload is live, not yet published, and everything the request promises is there. */
  ghost predicate Publishable(sha: Hash, db: BlobDb, row: UploadRow, u: Id, b: Id) {
    && row.committed.None? && Identified(sha, row.manifest, b)
    && forall i: nat :: InRange(row.manifest, i) ==> (u, i) in db.staged
  }

  /** All staged chunks of a sound upload have their digests: only a missing one is a flaw. */
  lemma FlawIsAbsence(sha: Hash, db: BlobDb, u: Id, i: nat)
    requires Sound(sha, db) && u in db.uploads && i <= |Decoded(db.uploads[u].manifest).digests|
    ensures var flaw := FirstFlaw(sha, db, u, Decoded(db.uploads[u].manifest).digests, i);
            flaw.None? || flaw == Some(Incomplete)
    decreases |Decoded(db.uploads[u].manifest).digests| - i
  {
    hide Parses, Decoded, Identified;
    var digests := Decoded(db.uploads[u].manifest).digests;
    if i < |digests| && (u, i) in db.staged {
      assert Fits(sha, db.uploads[u].manifest, i, db.staged[(u, i)]);
      FlawIsAbsence(sha, db, u, i + 1);
    }
  }

  /** COMMIT in a reachable state: neither the grant's primary key nor the digest check can fail, the
      count alone decides completeness, and another manifest under the same identity is a collision. */
  lemma CommitExact(sha: Hash, db: BlobDb, u: Id, cap: Id, b: Id, now: U64)
    requires Sound(sha, db) && LiveUpload(db, u, cap, now).Success?
    ensures var row, (db', a) := db.uploads[u], CommitTx(sha, db, u, cap, b, now);
            && (a == Success(Committed(DQ.Value(row.expiresAt))) || (a.Failure? && db' == db))
            && (row.committed.Some? ==> db' == db && (a.Success? <==> row.committed == Some(b)))
            && (row.committed.None? ==>
                  && (a == Failure(IdentityMismatch) <==> !Identified(sha, row.manifest, b))
                  && (Publishable(sha, db, row, u, b) && a.Failure? <==>
                        a == Failure(IdConflict) && b in db.objects && db.objects[b] != row.manifest)
                  && (a == Failure(Incomplete) <==>
                      Identified(sha, row.manifest, b) && !Publishable(sha, db, row, u, b))
                  && (a.Success? <==> Publishes(sha, db, db', u, b)))
  {
    hide Parse, Identify, ManifestBytes, Granted, Copied, StagedKeys, FirstFlaw;
    var row := db.uploads[u];
    if row.committed.None? {
      var m := Decoded(row.manifest);
      CountIsCompleteness(sha, db, u);
      FlawIsAbsence(sha, db, u, 0);
      assert !Granted(db.grants, u) by {
        NotGranted(sha, db, u);
      }
    }
  }

  lemma NotGranted(sha: Hash, db: BlobDb, u: Id)
    requires Sound(sha, db) && u in db.uploads && db.uploads[u].committed.None?
    ensures !Granted(db.grants, u)
  {
    assert forall i :: 0 <= i < |db.grants| ==> GrantSound(db.uploads, db.objects, db.grants[i]);
  }

  lemma BeginKind(sha: Hash, db: BlobDb, u: Id, caps: Capabilities, m: Manifest, now: U64, ttl: U64)
    requires Sound(sha, db) && m.Valid()
    ensures var db' := BeginTx(db, u, caps, m, now, ttl).0; db' == db || Opens(db, db', u, db'.uploads[u])
  {
    hide ManifestBytes, Parse, Sound;
    ParseExact(ManifestBytes(m), m);
  }

  lemma PutKind(sha: Hash, db: BlobDb, u: Id, cap: Id, i: U32, x: Cell, now: U64)
    requires Sound(sha, db)
    ensures var db' := PutTx(sha, db, u, cap, i, x, now).0; db' == db || Stages(sha, db, db', (u, i), x)
  {
    hide ManifestBytes, Parse, Sound;
  }

  lemma RenewKind(db: BlobDb, b: Id, cap: Id, now: U64, ttl: U64)
    ensures Regrants(db, RenewTx(db, b, cap, now, ttl).0)
  {
    hide AuthorizeGrant;
  }

  lemma DeleteKind(db: BlobDb, b: Id, cap: Id, now: U64)
    ensures Regrants(db, DeleteTx(db, b, cap, now).0)
  {
    hide AuthorizeGrant;
  }

  /** Every command keeps the invariant and everything already published; a rejected one changes
      nothing; and only COMMIT of a complete upload adds an object. */
  lemma ExecuteSound(sha: Hash, db: BlobDb, r: BlobRequest, now: U64)
    requires Sound(sha, db) && r.Encodable()
    ensures var (db', a) := ExecuteTx(sha, db, r, now);
            && Sound(sha, db') && Keeps(db, db')
            && (a.Failure? ==> db' == db)
            && (db'.objects != db.objects ==> r.Commit? && Publishes(sha, db, db', r.uploadId, r.blobId))
  {
    hide Sound, Keeps, Opens, Stages, Publishes, Regrants;
    hide BeginTx, PutTx, CommitTx, RenewTx, DeleteTx, GetManifestTx, GetChunkTx;
    KeepsItself(db);
    match r {
      case BeginUpload(u, caps, m, ttl) => BeginStep(sha, db, u, caps, m, now, ttl);
      case PutChunk(u, cap, i, x) => PutStep(sha, db, u, cap, i, x, now);
      case Commit(u, cap, b) => CommitStep(sha, db, u, cap, b, now);
      case Renew(b, cap, ttl) => RenewStep(sha, db, b, cap, now, ttl);
      case Delete(b, cap) => DeleteStep(sha, db, b, cap, now);
      case _ =>
    }
  }

  lemma KeepsItself(db: BlobDb)
    ensures Keeps(db, db)
  {
  }

  lemma BeginStep(sha: Hash, db: BlobDb, u: Id, caps: Capabilities, m: Manifest, now: U64, ttl: U64)
    requires Sound(sha, db) && m.Valid()
    ensures var (db', a) := BeginTx(db, u, caps, m, now, ttl);
            Sound(sha, db') && Keeps(db, db') && (a.Failure? ==> db' == db) && db'.objects == db.objects
  {
    hide Sound, Keeps, ManifestBytes, Parses;
    KeepsItself(db);
    BeginKind(sha, db, u, caps, m, now, ttl);
    var db' := BeginTx(db, u, caps, m, now, ttl).0;
    if db' != db {
      OpensSound(sha, db, db', u, db'.uploads[u]);
    }
  }

  lemma PutStep(sha: Hash, db: BlobDb, u: Id, cap: Id, i: U32, x: Cell, now: U64)
    requires Sound(sha, db)
    ensures var (db', a) := PutTx(sha, db, u, cap, i, x, now);
            Sound(sha, db') && Keeps(db, db') && (a.Failure? ==> db' == db) && db'.objects == db.objects
  {
    hide Sound, Keeps, Parse, Stages;
    KeepsItself(db);
    PutKind(sha, db, u, cap, i, x, now);
    var db' := PutTx(sha, db, u, cap, i, x, now).0;
    if db' != db {
      StagesSound(sha, db, db', (u, i), x);
    }
  }

  lemma CommitStep(sha: Hash, db: BlobDb, u: Id, cap: Id, b: Id, now: U64)
    requires Sound(sha, db)
    ensures var (db', a) := CommitTx(sha, db, u, cap, b, now);
            && Sound(sha, db') && Keeps(db, db') && (a.Failure? ==> db' == db)
            && (db' != db ==> Publishes(sha, db, db', u, b))
  {
    hide Sound, Keeps, Publishes, Parse, Identified;
    KeepsItself(db);
    if LiveUpload(db, u, cap, now).Success? {
      CommitExact(sha, db, u, cap, b, now);
      hide CommitTx;
      var db' := CommitTx(sha, db, u, cap, b, now).0;
      if db' != db {
        PublishesSound(sha, db, db', u, b);
      }
    }
  }

  lemma RenewStep(sha: Hash, db: BlobDb, b: Id, cap: Id, now: U64, ttl: U64)
    requires Sound(sha, db)
    ensures var (db', a) := RenewTx(db, b, cap, now, ttl);
            Sound(sha, db') && Keeps(db, db') && (a.Failure? ==> db' == db) && db'.objects == db.objects
  {
    hide Sound, Keeps, AuthorizeGrant, Extended;
    RenewKind(db, b, cap, now, ttl);
    RegrantsSound(sha, db, RenewTx(db, b, cap, now, ttl).0);
  }

  lemma DeleteStep(sha: Hash, db: BlobDb, b: Id, cap: Id, now: U64)
    requires Sound(sha, db)
    ensures var (db', a) := DeleteTx(db, b, cap, now);
            Sound(sha, db') && Keeps(db, db') && (a.Failure? ==> db' == db) && db'.objects == db.objects
  {
    hide Sound, Keeps, AuthorizeGrant, Withdrawn;
    DeleteKind(db, b, cap, now);
    RegrantsSound(sha, db, DeleteTx(db, b, cap, now).0);
  }

  lemma EmptySound(sha: Hash)
    ensures Sound(sha, EMPTY)
  {
  }
}
