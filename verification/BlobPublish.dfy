/** A whole upload, command by command, and what two uploads that share a capability do to each other. */
module BlobPublish {
  import opened Base
  import opened Manifest
  import opened BlobCodec
  import opened DurableBlob
  import opened BlobInvariant
  import opened BlobGrants
  import DQ = DurableQueue

  /** The chunks are those of the manifest. */
  ghost predicate ChunksOf(sha: Hash, m: Manifest, chunks: seq<Cell>) {
    |chunks| == |m.digests| && forall i :: 0 <= i < |chunks| ==> ChunkFits(sha, m, i, chunks[i])
  }

  /** BEGIN_UPLOAD and then PUT_CHUNK for the first n chunks. */
  function Staged(sha: Hash, db: BlobDb, u: Id, caps: Capabilities, m: Manifest, chunks: seq<Cell>, n: nat, now: U64,
                  ttl: U64): (BlobDb, BlobAnswer)
    requires m.Valid() && n <= |chunks| <= MAX_CHUNKS
  {
    if n == 0 then BeginTx(db, u, caps, m, now, ttl)
    else PutTx(sha, Staged(sha, db, u, caps, m, chunks, n - 1, now, ttl).0, u, caps.upload, n - 1, chunks[n - 1], now)
  }

  /** The state between two commands of an upload: its first n chunks are staged. */
  ghost predicate Halfway(db: BlobDb, db': BlobDb, u: Id, row: UploadRow, chunks: seq<Cell>, n: nat)
    requires n <= |chunks|
  {
    && db'.objects == db.objects && db'.chunks == db.chunks && db'.grants == db.grants
    && db'.uploads == db.uploads[u := row]
    && (forall i: nat :: i < n ==> (u, i) in db'.staged && db'.staged[(u, i)] == chunks[i])
    && (forall i: nat :: (u, i) in db'.staged ==> i < n)
  }

  lemma PutAdvances(sha: Hash, db: BlobDb, db1: BlobDb, u: Id, row: UploadRow, m: Manifest, chunks: seq<Cell>, n: nat,
                    now: U64)
    requires m.Valid() && ChunksOf(sha, m, chunks) && n < |chunks|
    requires row.manifest == ManifestBytes(m) && now < DQ.Value(row.expiresAt)
    requires Halfway(db, db1, u, row, chunks, n)
    ensures var (db', a) := PutTx(sha, db1, u, row.capabilities.upload, n, chunks[n], now);
            a == Success(ChunkPut(false)) && Halfway(db, db', u, row, chunks, n + 1)
  {
    hide ManifestBytes, Parse, ChunkFits;
    ParseExact(ManifestBytes(m), m);
    assert (u, n) !in db1.staged;
    assert ChunkFits(sha, m, n, chunks[n]);
  }

  lemma BeginAdvances(sha: Hash, db: BlobDb, u: Id, caps: Capabilities, m: Manifest, chunks: seq<Cell>, now: U64,
                      ttl: U64)
    requires Sound(sha, db) && u !in db.uploads && m.Valid() && Expiry(now, ttl).Success?
    ensures var (db', a) := BeginTx(db, u, caps, m, now, ttl);
            && a == Success(Begun(false))
            && Halfway(db, db', u, UploadRow(caps, ManifestBytes(m), DQ.Cell(now + ttl), None), chunks, 0)
  {
    hide Sound, ManifestBytes;
    FreshHasNoStaged(sha, db, u);
  }

  /** Every step of an upload by a fresh identifier succeeds and stages its chunk. */
  lemma {:induction false} StagedHalfway(sha: Hash, db: BlobDb, u: Id, caps: Capabilities, m: Manifest,
                                         chunks: seq<Cell>, n: nat, now: U64, ttl: U64)
    requires Sound(sha, db) && u !in db.uploads && m.Valid() && ChunksOf(sha, m, chunks) && n <= |chunks|
    requires Expiry(now, ttl).Success?
    ensures var (db', a) := Staged(sha, db, u, caps, m, chunks, n, now, ttl);
            && a == Success(if n == 0 then Begun(false) else ChunkPut(false))
            && Sound(sha, db')
            && Halfway(db, db', u, UploadRow(caps, ManifestBytes(m), DQ.Cell(now + ttl), None), chunks, n)
  {
    hide Sound, ManifestBytes, Parse, Halfway, BeginTx, PutTx, ChunkFits;
    if n == 0 {
      BeginStep(sha, db, u, caps, m, now, ttl);
      BeginAdvances(sha, db, u, caps, m, chunks, now, ttl);
    } else {
      StagedHalfway(sha, db, u, caps, m, chunks, n - 1, now, ttl);
      var db1 := Staged(sha, db, u, caps, m, chunks, n - 1, now, ttl).0;
      PutStep(sha, db1, u, caps.upload, n - 1, chunks[n - 1], now);
      PutAdvances(sha, db, db1, u, UploadRow(caps, ManifestBytes(m), DQ.Cell(now + ttl), None), m, chunks, n - 1, now);
    }
  }

  lemma FreshHasNoStaged(sha: Hash, db: BlobDb, u: Id)
    requires Sound(sha, db) && u !in db.uploads
    ensures forall i: nat :: (u, i) !in db.staged
  {
  }

  /** The database after the whole upload. */
  function Uploaded(sha: Hash, db: BlobDb, u: Id, caps: Capabilities, m: Manifest, chunks: seq<Cell>, now: U64,
                    ttl: U64): (BlobDb, BlobAnswer)
    requires m.Valid() && |chunks| <= MAX_CHUNKS
  {
    CommitTx(sha, Staged(sha, db, u, caps, m, chunks, |chunks|, now, ttl).0, u, caps.upload, Identify(sha, m), now)
  }

  lemma CommitPublishes(sha: Hash, db: BlobDb, u: Id, row: UploadRow, b: Id, now: U64)
    requires Sound(sha, db) && u in db.uploads && db.uploads[u] == row && now < DQ.Value(row.expiresAt)
    requires Publishable(sha, db, row, u, b)
    ensures var (db', a) := CommitTx(sha, db, u, row.capabilities.upload, b, now);
            if b in db.objects && db.objects[b] != row.manifest then a == Failure(IdConflict)
            else a == Success(Committed(DQ.Value(row.expiresAt))) && Sound(sha, db') && Publishes(sha, db, db', u, b)
  {
    assert LiveUpload(db, u, row.capabilities.upload, now) == Success(row);
    CommitExact(sha, db, u, row.capabilities.upload, b, now);
    CommitStep(sha, db, u, row.capabilities.upload, b, now);
    hide CommitTx, Sound, Publishes, Identified, InRange;
  }

  /** A whole upload by a fresh identifier publishes its manifest under one new grant, unless the
      identity already names another manifest. */
  lemma UploadPublishes(sha: Hash, db: BlobDb, u: Id, caps: Capabilities, m: Manifest, chunks: seq<Cell>, now: U64,
                        ttl: U64)
    requires Sound(sha, db) && u !in db.uploads && m.Valid() && ChunksOf(sha, m, chunks)
    requires Expiry(now, ttl).Success?
    ensures var b, (db', a) := Identify(sha, m), Uploaded(sha, db, u, caps, m, chunks, now, ttl);
            if b in db.objects && db.objects[b] != ManifestBytes(m) then a == Failure(IdConflict)
            else
              && a == Success(Committed(now + ttl)) && Sound(sha, db')
              && b in db'.objects && db'.objects[b] == ManifestBytes(m)
              && db'.grants == db.grants + [Grant(u, b, caps, DQ.Cell(now + ttl), false)]
              && db'.uploads.Keys == db.uploads.Keys + {u}
  {
    hide Sound, ManifestBytes, Parse, Staged, Identify, Publishes, Publishable, CommitTx, ChunkFits;
    var b, row := Identify(sha, m), UploadRow(caps, ManifestBytes(m), DQ.Cell(now + ttl), None);
    StagedHalfway(sha, db, u, caps, m, chunks, |chunks|, now, ttl);
    var db1 := Staged(sha, db, u, caps, m, chunks, |chunks|, now, ttl).0;
    AllStagedIsPublishable(sha, db, db1, u, row, m, chunks);
    CommitPublishes(sha, db1, u, row, b, now);
    var (db2, a) := CommitTx(sha, db1, u, caps.upload, b, now);
    if a.Success? {
      PublishedState(sha, db1, db2, u, b);
    }
  }

  lemma AllStagedIsPublishable(sha: Hash, db: BlobDb, db1: BlobDb, u: Id, row: UploadRow, m: Manifest,
                               chunks: seq<Cell>)
    requires m.Valid() && ChunksOf(sha, m, chunks) && row.manifest == ManifestBytes(m) && row.committed.None?
    requires Halfway(db, db1, u, row, chunks, |chunks|)
    ensures Publishable(sha, db1, row, u, Identify(sha, m))
  {
    hide ManifestBytes, Parse, Identify;
    ParseExact(ManifestBytes(m), m);
  }

  lemma PublishedState(sha: Hash, db: BlobDb, db': BlobDb, u: Id, b: Id)
    requires Publishes(sha, db, db', u, b)
    ensures var row := db.uploads[u];
            && b in db'.objects && db'.objects[b] == row.manifest
            && db'.grants == db.grants + [Grant(u, b, row.capabilities, row.expiresAt, false)]
            && db'.uploads.Keys == db.uploads.Keys + {u}
            && forall c :: c in db'.objects && c != b ==> c in db.objects
  {
    hide Identified, InRange, Copied, Granted;
  }

  // ----- two uploads that share their capabilities -----

  /** Two uploads of one object with one set of capabilities, the second for longer. A renewal then cuts
      the second grant down to the expiry of the first, and a deletion takes both away. */
  lemma SharedCapabilitiesInterfere(sha: Hash, u: Id, v: Id, caps: Capabilities, m: Manifest, chunks: seq<Cell>,
                                    now: U64, ttl: U64, longer: U64)
    requires u != v && m.Valid() && ChunksOf(sha, m, chunks)
    requires 1 < ttl < longer && Expiry(now, longer).Success?
    ensures var b := Identify(sha, m);
            var db := Uploaded(sha, Uploaded(sha, EMPTY, u, caps, m, chunks, now, ttl).0, v, caps, m, chunks, now,
                               longer).0;
            && Sound(sha, db)
            && !NeverShortens(db.grants, RenewTx(db, b, caps.renew, now, 1).0.grants)
            && Taken(db.grants, DeleteTx(db, b, caps.delete, now).0.grants) == {0, 1}
  {
    hide Sound, ManifestBytes, Identify, Uploaded;
    EmptySound(sha);
    var b := Identify(sha, m);
    UploadPublishes(sha, EMPTY, u, caps, m, chunks, now, ttl);
    var db1 := Uploaded(sha, EMPTY, u, caps, m, chunks, now, ttl).0;
    UploadPublishes(sha, db1, v, caps, m, chunks, now, longer);
    var db := Uploaded(sha, db1, v, caps, m, chunks, now, longer).0;
    TwinGrants(db, b, caps, now, ttl, longer, u, v);
  }

  lemma TwinGrants(db: BlobDb, b: Id, caps: Capabilities, now: U64, ttl: U64, longer: U64, u: Id, v: Id)
    requires 1 < ttl < longer && Expiry(now, longer).Success?
    requires db.grants == [Grant(u, b, caps, DQ.Cell(now + ttl), false),
                           Grant(v, b, caps, DQ.Cell(now + longer), false)]
    ensures !NeverShortens(db.grants, RenewTx(db, b, caps.renew, now, 1).0.grants)
    ensures Taken(db.grants, DeleteTx(db, b, caps.delete, now).0.grants) == {0, 1}
  {
    hide FirstMatch;
    assert db.grants[0].Matches(b, Renewal, caps.renew) && db.grants[0].Matches(b, Deletion, caps.delete);
    assert FirstMatch(db.grants, b, Renewal, caps.renew) == Some(0);
    assert FirstMatch(db.grants, b, Deletion, caps.delete) == Some(0);
    ExtendedAt(db.grants, b, caps.renew, now + ttl, 1);
    assert !ExpiresNoLater(db.grants[1], RenewTx(db, b, caps.renew, now, 1).0.grants[1]);
  }
}
