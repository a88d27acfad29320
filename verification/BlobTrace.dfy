/** Where published chunks come from: the upload whose grant is the first of the object. */
module BlobTrace {
  import opened Base
  import opened BlobCodec
  import opened DurableBlob
  import opened BlobInvariant
  import opened BlobService
  import M = Manifest
  import R = Replay

  /** No earlier grant is of the same object. */
  ghost predicate First(grants: seq<Grant>, g: nat) {
    g < |grants| && forall h :: 0 <= h < g ==> grants[h].blob != grants[g].blob
  }

  ghost predicate HasGrant(grants: seq<Grant>, b: Id) {
    exists g :: 0 <= g < |grants| && grants[g].blob == b
  }

  /** Every object was published under a grant. */
  ghost predicate ObjectsGranted(objects: Objects, grants: seq<Grant>) {
    forall b :: b in objects ==> HasGrant(grants, b)
  }

  /** The cell of the object is the cell its first upload staged. */
  ghost predicate SourcedCell(staged: Cells, chunks: Cells, g: Grant, i: nat) {
    (g.blob, i) in chunks ==> (g.id, i) in staged && staged[(g.id, i)] == chunks[(g.blob, i)]
  }

  ghost predicate Sourced(staged: Cells, chunks: Cells, grants: seq<Grant>) {
    forall g: nat, i: nat :: First(grants, g) ==> SourcedCell(staged, chunks, grants[g], i)
  }

  ghost predicate Traced(db: BlobDb) {
    ObjectsGranted(db.objects, db.grants) && Sourced(db.staged, db.chunks, db.grants)
  }

  lemma StagesTraced(sha: Hash, db: BlobDb, db': BlobDb, k: (Id, nat), x: Cell)
    requires Traced(db) && Stages(sha, db, db', k, x)
    ensures Traced(db')
  {
    hide Fits, HasGrant;
    forall g: nat, i: nat | First(db'.grants, g) ensures SourcedCell(db'.staged, db'.chunks, db'.grants[g], i) {
      assert SourcedCell(db.staged, db.chunks, db.grants[g], i);
    }
  }

  lemma RegrantsTraced(db: BlobDb, db': BlobDb)
    requires Traced(db) && Regrants(db, db')
    ensures Traced(db')
  {
    forall g | 0 <= g < |db.grants|
      ensures db'.grants[g].id == db.grants[g].id && db'.grants[g].blob == db.grants[g].blob
    {
      assert GrantKept(db.grants[g], db'.grants[g]);
    }
    forall g: nat, i: nat | First(db'.grants, g) ensures SourcedCell(db'.staged, db'.chunks, db'.grants[g], i) {
      assert First(db.grants, g);
      assert SourcedCell(db.staged, db.chunks, db.grants[g], i);
    }
    forall b | b in db'.objects ensures HasGrant(db'.grants, b) {
      assert HasGrant(db.grants, b);
      var g :| 0 <= g < |db.grants| && db.grants[g].blob == b;
      assert db'.grants[g].blob == b;
    }
  }

  /** A grant other than the new one keeps its source. */
  lemma OldGrantSourced(sha: Hash, db: BlobDb, db': BlobDb, u: Id, b: Id, g: nat, i: nat)
    requires Sound(sha, db) && Traced(db) && Publishes(sha, db, db', u, b) && g < |db.grants| && First(db.grants, g)
    ensures SourcedCell(db'.staged, db'.chunks, db.grants[g], i)
  {
    hide Identified, InRange, Parses, Fits, Granted, Copied, First;
    var k := (db.grants[g].blob, i);
    CopiedCells(db, u, b, k);
    PublishClosed(sha, db, db', u, b);
    assert GrantSound(db.uploads, db.objects, db.grants[g]);
    assert SourcedCell(db.staged, db.chunks, db.grants[g], i);
  }

  /** The new grant is the first of its object only if the object is new, and then its chunks are copies. */
  lemma NewGrantSourced(sha: Hash, db: BlobDb, db': BlobDb, u: Id, b: Id, i: nat)
    requires Sound(sha, db) && Traced(db) && Publishes(sha, db, db', u, b) && First(db'.grants, |db.grants|)
    ensures SourcedCell(db'.staged, db'.chunks, db'.grants[|db.grants|], i)
  {
    hide Identified, InRange, Parses, Fits, Granted, Copied;
    CopiedCells(db, u, b, (b, i));
    assert forall h :: 0 <= h < |db.grants| ==> db'.grants[h] == db.grants[h];
    assert !HasGrant(db.grants, b);
  }

  lemma PublishesTraced(sha: Hash, db: BlobDb, db': BlobDb, u: Id, b: Id)
    requires Sound(sha, db) && Traced(db) && Publishes(sha, db, db', u, b)
    ensures Traced(db')
  {
    hide Sound, Identified, InRange, Granted, Copied, SourcedCell;
    var n := |db.grants|;
    forall g: nat, i: nat | First(db'.grants, g) ensures SourcedCell(db'.staged, db'.chunks, db'.grants[g], i) {
      if g < n {
        assert First(db.grants, g) by {
          assert forall h :: 0 <= h <= g ==> db'.grants[h] == db.grants[h];
        }
        OldGrantSourced(sha, db, db', u, b, g, i);
      } else {
        NewGrantSourced(sha, db, db', u, b, i);
      }
    }
    forall c | c in db'.objects ensures HasGrant(db'.grants, c) {
      if c == b {
        assert db'.grants[n].blob == b;
      } else {
        assert HasGrant(db.grants, c);
        var g :| 0 <= g < n && db.grants[g].blob == c;
        assert db'.grants[g].blob == c;
      }
    }
  }

  /** Every command keeps the origin of published chunks. */
  lemma ExecuteTraced(sha: Hash, db: BlobDb, r: BlobRequest, now: U64)
    requires Sound(sha, db) && Traced(db) && r.Encodable()
    ensures Traced(ExecuteTx(sha, db, r, now).0)
  {
    hide Sound, Publishes, Stages, Regrants, BeginTx, PutTx, CommitTx, RenewTx, DeleteTx, GetManifestTx, GetChunkTx,
      Traced;
    match r {
      case BeginUpload(u, caps, m, ttl) => BeginTraced(sha, db, u, caps, m, now, ttl);
      case PutChunk(u, cap, i, x) =>
        PutKind(sha, db, u, cap, i, x, now);
        if PutTx(sha, db, u, cap, i, x, now).0 != db {
          StagesTraced(sha, db, PutTx(sha, db, u, cap, i, x, now).0, (u, i), x);
        }
      case Commit(u, cap, b) =>
        CommitStep(sha, db, u, cap, b, now);
        if CommitTx(sha, db, u, cap, b, now).0 != db {
          PublishesTraced(sha, db, CommitTx(sha, db, u, cap, b, now).0, u, b);
        }
      case Renew(b, cap, ttl) =>
        RenewKind(db, b, cap, now, ttl);
        RegrantsTraced(db, RenewTx(db, b, cap, now, ttl).0);
      case Delete(b, cap) =>
        DeleteKind(db, b, cap, now);
        RegrantsTraced(db, DeleteTx(db, b, cap, now).0);
      case _ =>
    }
  }

  lemma BeginTraced(sha: Hash, db: BlobDb, u: Id, caps: Capabilities, m: M.Manifest, now: U64, ttl: U64)
    requires Sound(sha, db) && Traced(db) && m.Valid()
    ensures Traced(BeginTx(db, u, caps, m, now, ttl).0)
  {
    hide Sound, M.ManifestBytes;
    BeginKind(sha, db, u, caps, m, now, ttl);
  }


  lemma {:induction false} AfterTraced(sha: Hash, effects: seq<R.Effect<BlobJob>>)
    ensures Traced(R.After(BlobEngine(sha), EMPTY, effects))
  {
    hide Traced, BlobEngine;
    if effects == [] {
      EmptyTraced();
    } else {
      var n := |effects| - 1;
      AfterTraced(sha, effects[..n]);
      AfterSound(sha, effects[..n]);
      EffectTraced(sha, R.After(BlobEngine(sha), EMPTY, effects[..n]), effects[n].call.job, effects[n].now);
    }
  }

  lemma EmptyTraced()
    ensures Traced(EMPTY)
  {
  }

  lemma EffectTraced(sha: Hash, db: BlobDb, job: BlobJob, now: U64)
    requires Sound(sha, db) && Traced(db)
    ensures BlobEngine(sha)(db, job, now).Done? ==> Traced(BlobEngine(sha)(db, job, now).db)
  {
    hide ExecuteTx, Sound, Traced, BlobResponseBytes;
    ExecuteTraced(sha, db, job.request, now);
  }

  /** Over every run: the chunks of a published object are the bytes staged by the upload whose grant is
      the first of that object. */
  lemma ReachableTraced(sha: Hash, evs: seq<R.Event<BlobJob>>)
    ensures Traced(DbAfter(sha, evs))
  {
    hide Traced, BlobEngine, R.Run;
    R.RunExactlyOnce(BlobEngine(sha), EMPTY, evs);
    var s := R.Run(BlobEngine(sha), R.Initial(EMPTY), evs);
    AfterTraced(sha, s.effects);
  }
}
