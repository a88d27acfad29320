/** Nothing in the blob tables without its capability: over every run, each row, staged chunk, grant, renewal
    and deletion goes back to a committed request under the capability that may make it. */
module BlobOrigins {
  import opened Base
  import opened Manifest
  import opened BlobCodec
  import opened DurableBlob
  import opened BlobInvariant
  import opened BlobService
  import opened BlobAnswers
  import opened UploadFacts
  import DQ = DurableQueue
  import R = Replay

  /** The committed effects, in order. */
  type History = seq<R.Effect<BlobJob>>

  /** The n-th effect opened the upload with exactly this row. */
  ghost predicate OpenedAt(h: History, n: nat, u: Id, row: UploadRow) {
    && n < |h|
    && match h[n].call.job.request
       case BeginUpload(v, caps, m, ttl) =>
         && v == u && caps == row.capabilities && m.Valid() && ManifestBytes(m) == row.manifest
         && h[n].now + ttl == DQ.Value(row.expiresAt)
       case _ => false
  }

  /** The n-th effect put these bytes under the upload's own capability, in its lifetime. */
  ghost predicate PutAt(h: History, n: nat, u: Id, row: UploadRow, i: nat, x: Bytes) {
    && n < |h| && h[n].now < DQ.Value(row.expiresAt)
    && match h[n].call.job.request
       case PutChunk(v, cap, j, y) => v == u && cap == row.capabilities.upload && j == i && y == x
       case _ => false
  }

  /** The n-th effect committed the upload under its own capability, in its lifetime. */
  ghost predicate CommittedAt(h: History, n: nat, row: UploadRow, g: Grant) {
    && n < |h| && h[n].now < DQ.Value(row.expiresAt)
    && h[n].call.job.request == BlobCodec.Commit(g.id, row.capabilities.upload, g.blob)
  }

  ghost predicate DeletedAt(h: History, n: nat, g: Grant) {
    n < |h| && h[n].call.job.request == Delete(g.blob, g.capabilities.delete)
  }

  ghost predicate RenewedAt(h: History, n: nat, g: Grant) {
    && n < |h| && h[n].call.job.request.Renew?
    && h[n].call.job.request.blobId == g.blob && h[n].call.job.request.renewCap == g.capabilities.renew
  }

  ghost predicate WasOpened(h: History, u: Id, row: UploadRow) {
    exists n: nat :: OpenedAt(h, n, u, row)
  }

  ghost predicate WasPut(h: History, u: Id, row: UploadRow, i: nat, x: Bytes) {
    exists n: nat :: PutAt(h, n, u, row, i, x)
  }

  ghost predicate WasCommitted(h: History, row: UploadRow, g: Grant) {
    exists n: nat :: CommittedAt(h, n, row, g)
  }

  ghost predicate WasDeleted(h: History, g: Grant) {
    exists n: nat :: DeletedAt(h, n, g)
  }

  ghost predicate WasRenewed(h: History, g: Grant) {
    exists n: nat :: RenewedAt(h, n, g)
  }

  ghost predicate GrantAuthorized(h: History, uploads: Uploads, g: Grant) {
    && g.id in uploads && WasCommitted(h, uploads[g.id], g)
    && (g.deleted ==> WasDeleted(h, g))
    && (g.expiresAt == uploads[g.id].expiresAt || WasRenewed(h, g))
  }

  ghost predicate UploadsAuthorized(h: History, uploads: Uploads) {
    forall u :: u in uploads ==> WasOpened(h, u, uploads[u])
  }

  ghost predicate StagedAuthorized(h: History, uploads: Uploads, staged: Cells) {
    forall k :: k in staged ==> k.0 in uploads && WasPut(h, k.0, uploads[k.0], k.1, staged[k])
  }

  ghost predicate GrantsAuthorized(h: History, uploads: Uploads, grants: seq<Grant>) {
    forall i :: 0 <= i < |grants| ==> GrantAuthorized(h, uploads, grants[i])
  }

  /** Everything in the tables goes back to a request under the right capability. */
  ghost predicate Authorized(h: History, db: BlobDb) {
    && UploadsAuthorized(h, db.uploads) && StagedAuthorized(h, db.uploads, db.staged)
    && GrantsAuthorized(h, db.uploads, db.grants)
  }

  // ----- a longer history -----

  lemma LaterUpload(h: History, e: R.Effect<BlobJob>, u: Id, row: UploadRow)
    requires WasOpened(h, u, row)
    ensures WasOpened(h + [e], u, row)
  {
    var n: nat :| OpenedAt(h, n, u, row);
    assert OpenedAt(h + [e], n, u, row);
  }

  lemma LaterPut(h: History, e: R.Effect<BlobJob>, u: Id, row: UploadRow, i: nat, x: Bytes)
    requires WasPut(h, u, row, i, x)
    ensures WasPut(h + [e], u, row, i, x)
  {
    var n: nat :| PutAt(h, n, u, row, i, x);
    assert PutAt(h + [e], n, u, row, i, x);
  }

  lemma LaterGrant(h: History, e: R.Effect<BlobJob>, uploads: Uploads, g: Grant)
    requires GrantAuthorized(h, uploads, g)
    ensures GrantAuthorized(h + [e], uploads, g)
  {
    var h' := h + [e];
    var n: nat :| CommittedAt(h, n, uploads[g.id], g);
    assert CommittedAt(h', n, uploads[g.id], g);
    if g.deleted {
      var d: nat :| DeletedAt(h, d, g);
      assert DeletedAt(h', d, g);
    }
    if g.expiresAt != uploads[g.id].expiresAt {
      var r: nat :| RenewedAt(h, r, g);
      assert RenewedAt(h', r, g);
    }
  }

  lemma Later(h: History, e: R.Effect<BlobJob>, db: BlobDb)
    requires Authorized(h, db)
    ensures Authorized(h + [e], db)
  {
    hide WasOpened, WasPut, GrantAuthorized;
    forall u | u in db.uploads ensures WasOpened(h + [e], u, db.uploads[u]) {
      LaterUpload(h, e, u, db.uploads[u]);
    }
    forall k | k in db.staged ensures WasPut(h + [e], k.0, db.uploads[k.0], k.1, db.staged[k]) {
      LaterPut(h, e, k.0, db.uploads[k.0], k.1, db.staged[k]);
    }
    forall i | 0 <= i < |db.grants| ensures GrantAuthorized(h + [e], db.uploads, db.grants[i]) {
      LaterGrant(h, e, db.uploads, db.grants[i]);
    }
  }

  // ----- one effect -----

  /** The tables after the last effect of a history. */
  ghost predicate Leads(sha: Hash, h: History, db: BlobDb, db': BlobDb) {
    && h != []
    && var e := h[|h| - 1]; ExecuteTx(sha, db, e.call.job.request, e.now).1.Success?
                            && db' == ExecuteTx(sha, db, e.call.job.request, e.now).0
  }

  /** A row may be marked committed without losing its origin. */
  lemma MarkedUploads(h: History, db: BlobDb, u: Id, b: Id)
    requires Authorized(h, db) && u in db.uploads
    ensures var uploads := db.uploads[u := db.uploads[u].(committed := Some(b))];
            && UploadsAuthorized(h, uploads) && StagedAuthorized(h, uploads, db.staged)
            && GrantsAuthorized(h, uploads, db.grants)
  {
    hide WasOpened, WasPut, WasCommitted, WasDeleted, WasRenewed;
    var uploads := db.uploads[u := db.uploads[u].(committed := Some(b))];
    forall v | v in uploads ensures WasOpened(h, v, uploads[v]) {
      MarkedOpened(h, v, db.uploads[v], uploads[v].committed);
    }
    forall k | k in db.staged ensures WasPut(h, k.0, uploads[k.0], k.1, db.staged[k]) {
      MarkedPut(h, k.0, db.uploads[k.0], uploads[k.0].committed, k.1, db.staged[k]);
    }
    forall i | 0 <= i < |db.grants| ensures GrantAuthorized(h, uploads, db.grants[i]) {
      var g := db.grants[i];
      assert GrantAuthorized(h, db.uploads, g);
      MarkedCommitted(h, db.uploads[g.id], uploads[g.id].committed, g);
    }
  }

  lemma MarkedOpened(h: History, u: Id, row: UploadRow, mark: Option<Id>)
    requires WasOpened(h, u, row)
    ensures WasOpened(h, u, row.(committed := mark))
  {
    var n: nat :| OpenedAt(h, n, u, row);
    assert OpenedAt(h, n, u, row.(committed := mark));
  }

  lemma MarkedPut(h: History, u: Id, row: UploadRow, mark: Option<Id>, i: nat, x: Bytes)
    requires WasPut(h, u, row, i, x)
    ensures WasPut(h, u, row.(committed := mark), i, x)
  {
    var n: nat :| PutAt(h, n, u, row, i, x);
    assert PutAt(h, n, u, row.(committed := mark), i, x);
  }

  lemma MarkedCommitted(h: History, row: UploadRow, mark: Option<Id>, g: Grant)
    requires WasCommitted(h, row, g)
    ensures WasCommitted(h, row.(committed := mark), g)
  {
    var n: nat :| CommittedAt(h, n, row, g);
    assert CommittedAt(h, n, row.(committed := mark), g);
  }

  lemma BeginAuthorized(sha: Hash, h: History, db: BlobDb, db': BlobDb)
    requires Authorized(h, db) && Leads(sha, h, db, db') && h[|h| - 1].call.job.request.BeginUpload?
    ensures Authorized(h, db')
  {
    hide ExecuteTx, WasOpened, WasPut, GrantAuthorized, ManifestBytes, DQ.Value, DQ.Cell;
    var n := |h| - 1;
    var r, now := h[n].call.job.request, h[n].now;
    BeginExactly(sha, db, r.uploadId, r.capabilities, r.manifest, r.ttl, now);
    if db' != db {
      NewUpload(h, r.uploadId, r.capabilities, r.manifest, r.ttl);
      forall i | 0 <= i < |db.grants| ensures GrantAuthorized(h, db'.uploads, db.grants[i]) {
        OtherUploads(h, db.uploads, db'.uploads, r.uploadId, db.grants[i]);
      }
    }
  }

  lemma NewUpload(h: History, u: Id, caps: Capabilities, m: Manifest, ttl: U64)
    requires h != [] && m.Valid() && h[|h| - 1].now + ttl < U64_LIMIT
    requires h[|h| - 1].call.job.request == BeginUpload(u, caps, m, ttl)
    ensures WasOpened(h, u, UploadRow(caps, ManifestBytes(m), DQ.Cell(h[|h| - 1].now + ttl), None))
  {
    hide ManifestBytes;
    assert OpenedAt(h, |h| - 1, u, UploadRow(caps, ManifestBytes(m), DQ.Cell(h[|h| - 1].now + ttl), None));
  }

  lemma OtherUploads(h: History, uploads: Uploads, uploads': Uploads, u: Id, g: Grant)
    requires GrantAuthorized(h, uploads, g) && u !in uploads && u in uploads' && uploads' == uploads[u := uploads'[u]]
    ensures GrantAuthorized(h, uploads', g)
  {
    assert g.id != u && uploads'[g.id] == uploads[g.id];
  }

  lemma PutAuthorized(sha: Hash, h: History, db: BlobDb, db': BlobDb)
    requires Sound(sha, db) && Authorized(h, db) && Leads(sha, h, db, db') && h[|h| - 1].call.job.request.PutChunk?
    ensures Authorized(h, db')
  {
    hide ExecuteTx, WasOpened, GrantAuthorized, Sound, Fits, InRange, UploadRefused, DQ.Value;
    var n := |h| - 1;
    var r, now := h[n].call.job.request, h[n].now;
    PutExactly(sha, db, r.uploadId, r.uploadCap, r.index, r.ciphertext, now);
    if db' != db {
      assert PutAt(h, n, r.uploadId, db.uploads[r.uploadId], r.index, r.ciphertext);
    }
  }

  lemma CommitAuthorized(sha: Hash, h: History, db: BlobDb, db': BlobDb)
    requires Sound(sha, db) && Authorized(h, db) && Leads(sha, h, db, db') && h[|h| - 1].call.job.request.Commit?
    ensures Authorized(h, db')
  {
    hide ExecuteTx, WasOpened, WasPut, GrantAuthorized, Sound, Identified, Complete, Clashes, UploadRefused, DQ.Value;
    var n := |h| - 1;
    var r, now := h[n].call.job.request, h[n].now;
    CommitExactly(sha, db, r.uploadId, r.uploadCap, r.blobId, now);
    CommitWrites(sha, db, r.uploadId, r.uploadCap, r.blobId, now);
    if db' != db {
      MarkedUploads(h, db, r.uploadId, r.blobId);
      NewGrant(h, db'.uploads, db'.grants[|db.grants|]);
    }
  }

  lemma NewGrant(h: History, uploads: Uploads, g: Grant)
    requires h != [] && g.id in uploads && CommittedAt(h, |h| - 1, uploads[g.id], g)
    requires !g.deleted && g.expiresAt == uploads[g.id].expiresAt
    ensures GrantAuthorized(h, uploads, g)
  {
  }

  /** The grant with another expiry, after a renewal of it. */
  lemma RenewedGrant(h: History, uploads: Uploads, g: Grant, g': Grant)
    requires GrantAuthorized(h, uploads, g) && h != [] && RenewedAt(h, |h| - 1, g)
             && g' == g.(expiresAt := g'.expiresAt)
    ensures GrantAuthorized(h, uploads, g')
  {
    var n: nat :| CommittedAt(h, n, uploads[g.id], g);
    assert CommittedAt(h, n, uploads[g.id], g');
    assert RenewedAt(h, |h| - 1, g');
    if g.deleted {
      var d: nat :| DeletedAt(h, d, g);
      assert DeletedAt(h, d, g');
    }
  }

  /** The grant with its mark, after a deletion of it. */
  lemma DeletedGrant(h: History, uploads: Uploads, g: Grant)
    requires GrantAuthorized(h, uploads, g) && h != [] && DeletedAt(h, |h| - 1, g)
    ensures GrantAuthorized(h, uploads, g.(deleted := true))
  {
    var g' := g.(deleted := true);
    var n: nat :| CommittedAt(h, n, uploads[g.id], g);
    assert CommittedAt(h, n, uploads[g.id], g');
    assert DeletedAt(h, |h| - 1, g');
    if g.expiresAt != uploads[g.id].expiresAt {
      var r: nat :| RenewedAt(h, r, g);
      assert RenewedAt(h, r, g');
    }
  }

  lemma RenewAuthorized(sha: Hash, h: History, db: BlobDb, db': BlobDb)
    requires Authorized(h, db) && Leads(sha, h, db, db') && h[|h| - 1].call.job.request.Renew?
    ensures Authorized(h, db')
  {
    hide ExecuteTx, WasOpened, WasPut, GrantAuthorized, LiveFirst, GrantRefused, DQ.Cell, DQ.Value;
    var n := |h| - 1;
    var r, now := h[n].call.job.request, h[n].now;
    RenewExactly(sha, db, r.blobId, r.renewCap, r.ttl, now);
    assert Live(db.grants, r.blobId, Renewal, r.renewCap, now);
    forall i | 0 <= i < |db.grants| ensures GrantAuthorized(h, db.uploads, db'.grants[i]) {
      if db'.grants[i] != db.grants[i] {
        assert RenewedAt(h, n, db.grants[i]);
        RenewedGrant(h, db.uploads, db.grants[i], db'.grants[i]);
      }
    }
  }

  lemma DeleteAuthorized(sha: Hash, h: History, db: BlobDb, db': BlobDb)
    requires Authorized(h, db) && Leads(sha, h, db, db') && h[|h| - 1].call.job.request.Delete?
    ensures Authorized(h, db')
  {
    hide ExecuteTx, WasOpened, WasPut, GrantAuthorized, LiveFirst, GrantRefused;
    var n := |h| - 1;
    var r, now := h[n].call.job.request, h[n].now;
    DeleteExactly(sha, db, r.blobId, r.deleteCap, now);
    forall i | 0 <= i < |db.grants| ensures GrantAuthorized(h, db.uploads, db'.grants[i]) {
      if db'.grants[i] != db.grants[i] {
        assert DeletedAt(h, n, db.grants[i]);
        DeletedGrant(h, db.uploads, db.grants[i]);
      }
    }
  }

  lemma StepAuthorized(sha: Hash, h: History, db: BlobDb, db': BlobDb)
    requires Sound(sha, db) && Authorized(h, db) && Leads(sha, h, db, db')
    ensures Authorized(h, db')
  {
    hide Sound, Authorized, GetManifestTx, GetChunkTx, BeginTx, PutTx, CommitTx, RenewTx, DeleteTx;
    match h[|h| - 1].call.job.request {
      case BeginUpload(_, _, _, _) => BeginAuthorized(sha, h, db, db');
      case PutChunk(_, _, _, _) => PutAuthorized(sha, h, db, db');
      case Commit(_, _, _) => CommitAuthorized(sha, h, db, db');
      case Renew(_, _, _) => RenewAuthorized(sha, h, db, db');
      case Delete(_, _) => DeleteAuthorized(sha, h, db, db');
      case _ =>
    }
  }

  // ----- every run -----

  lemma {:induction false} AfterAuthorized(sha: Hash, h: History)
    ensures Authorized(h, R.After(BlobEngine(sha), EMPTY, h))
  {
    hide Authorized, Sound, ExecuteTx, BlobEngine;
    if h == [] {
      NothingYet();
    } else {
      var n := |h| - 1;
      var before := R.After(BlobEngine(sha), EMPTY, h[..n]);
      AfterAuthorized(sha, h[..n]);
      AfterSound(sha, h[..n]);
      assert h[..n] + [h[n]] == h;
      Later(h[..n], h[n], before);
      if BlobEngine(sha)(before, h[n].call.job, h[n].now).Done? {
        EngineLeads(sha, before, h[n].call.job, h[n].now);
        StepAuthorized(sha, h, before, BlobEngine(sha)(before, h[n].call.job, h[n].now).db);
      }
    }
  }

  lemma NothingYet()
    ensures Authorized([], EMPTY)
  {
  }

  lemma EngineLeads(sha: Hash, db: BlobDb, job: BlobJob, now: U64)
    requires BlobEngine(sha)(db, job, now).Done?
    ensures ExecuteTx(sha, db, job.request, now).1.Success?
    ensures BlobEngine(sha)(db, job, now).db == ExecuteTx(sha, db, job.request, now).0
  {
    hide ExecuteTx, BlobResponseBytes;
  }

  /** Over every run of any connections with crashes and storage faults: everything in the tables goes back
      to a committed request, and each committed request was authenticated by the capability it names. */
  lemma EveryChangeIsAuthorized(sha: Hash, evs: seq<R.Event<BlobJob>>)
    requires forall i :: 0 <= i < |evs| && evs[i].Start? ==> Decodes(evs[i].call)
    ensures var s := R.Run(BlobEngine(sha), R.Initial(EMPTY), evs);
            && Authorized(s.effects, s.store.db)
            && forall n :: 0 <= n < |s.effects| ==>
                 s.effects[n].call.key.subject == s.effects[n].call.job.request.Capability()
  {
    hide Authorized, BlobEngine, R.Run, Decodes;
    R.RunExactlyOnce(BlobEngine(sha), EMPTY, evs);
    var s := R.Run(BlobEngine(sha), R.Initial(EMPTY), evs);
    AfterAuthorized(sha, s.effects);
    RunHonest(sha, evs);
    forall n | 0 <= n < |s.effects|
      ensures s.effects[n].call.key.subject == s.effects[n].call.job.request.Capability()
    {
      EffectDecodes(s, n);
      SubjectIsCapability(s.effects[n].call);
    }
  }

  lemma SubjectIsCapability(c: R.Call<BlobJob>)
    requires Decodes(c)
    ensures c.key.subject == c.job.request.Capability()
  {
    hide ParseBlobRequest;
  }

  lemma {:induction false} RunHonest(sha: Hash, evs: seq<R.Event<BlobJob>>)
    requires forall i :: 0 <= i < |evs| && evs[i].Start? ==> Decodes(evs[i].call)
    ensures Honest(R.Run(BlobEngine(sha), R.Initial(EMPTY), evs))
  {
    hide Decodes, BlobEngine, Honest;
    if evs == [] {
      StartHonest();
    } else {
      var n := |evs| - 1;
      RunHonest(sha, evs[..n]);
      StepHonest(sha, R.Run(BlobEngine(sha), R.Initial(EMPTY), evs[..n]), evs[n]);
    }
  }

  lemma StartHonest()
    ensures Honest(R.Initial<BlobDb, BlobJob>(EMPTY))
  {
  }

  // ----- reading -----

  /** Some grant of the object names this download capability. */
  ghost predicate Readable(grants: seq<Grant>, b: Id, cap: Id) {
    exists i :: 0 <= i < |grants| && grants[i].blob == b && grants[i].capabilities.download == cap
  }

  /** The object a read names and the capability it names. */
  ghost predicate ReadAllowed(grants: seq<Grant>, r: BlobRequest) {
    match r
    case GetManifest(b, cap) => Readable(grants, b, cap)
    case GetChunk(b, cap, _) => Readable(grants, b, cap)
    case _ => true
  }

  lemma ReadNeedsGrant(sha: Hash, db: BlobDb, r: BlobRequest, now: U64)
    requires Sound(sha, db) && r.Encodable() && ExecuteTx(sha, db, r, now).1.Success?
    ensures ReadAllowed(db.grants, r)
  {
    hide Sound, ExecuteTx, GrantRefused, InRange, Parses, DQ.Value;
    match r {
      case GetManifest(b, cap) => ManifestReadExactly(sha, db, b, cap, now);
      case GetChunk(b, cap, i) => ChunkReadExactly(sha, db, b, cap, i, now);
      case _ =>
    }
  }

  lemma ReadAllowedLater(db: BlobDb, db': BlobDb, r: BlobRequest)
    requires ReadAllowed(db.grants, r) && Keeps(db, db')
    ensures ReadAllowed(db'.grants, r)
  {
    hide UploadsKept, Extends, ChunksClosed;
    assert forall i :: 0 <= i < |db.grants| ==> GrantKept(db.grants[i], db'.grants[i]);
  }

  /** Over every run: an OK response to a read, fresh or replayed, went to bytes that name a capability which
      some grant of the object names for download. */
  lemma OkReadWasGranted(sha: Hash, s: R.System<BlobDb, BlobJob>, r: R.Reply<BlobJob>, response: Bytes)
    requires R.ExactlyOnce(BlobEngine(sha), EMPTY, s) && Honest(s)
    requires r in s.replies && r.outcome == R.Respond(response) && IsOk(response)
    ensures ReadAllowed(s.store.db.grants, r.call.job.request)
  {
    hide ExecuteTx, Sound, Keeps, BlobEngine, IsOk, Honest, R.ExactlyOnce, ReadAllowed;
    OkMeansTook(sha, s, r, response);
    var before, now: U64 :| Took(sha, s, r.call.job, response, before, now);
    ReadNeedsGrant(sha, before, r.call.job.request, now);
    ReadIsPure(sha, before, r.call.job.request, now);
    ReadAllowedLater(ExecuteTx(sha, before, r.call.job.request, now).0, s.store.db, r.call.job.request);
  }

  lemma ReadIsPure(sha: Hash, db: BlobDb, r: BlobRequest, now: U64)
    requires r.Encodable() && ReadAllowed(db.grants, r)
    ensures ReadAllowed(ExecuteTx(sha, db, r, now).0.grants, r)
  {
    hide Readable, GetManifestTx, GetChunkTx;
  }
}
