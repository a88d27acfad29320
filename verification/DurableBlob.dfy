/** Blob availability over SQLite tables: staging, publication, grants, renewal and deletion. */
module DurableBlob {
  import opened Base
  import opened Manifest
  import opened BlobCodec
  import DQ = DurableQueue

  /** A binary cell. */
  type Cell = s: Bytes | |s| < U64_LIMIT

  datatype UploadRow = UploadRow(capabilities: Capabilities, manifest: Bytes, expiresAt: Blob8, committed: Option<Id>)

  datatype Column = Download | Renewal | Deletion

  datatype Grant = Grant(id: Id, blob: Id, capabilities: Capabilities, expiresAt: Blob8, deleted: bool) {
    function Capability(column: Column): Id {
      match column
      case Download => capabilities.download
      case Renewal => capabilities.renew
      case Deletion => capabilities.delete
    }
    predicate Matches(b: Id, column: Column, cap: Id) {
      blob == b && Capability(column) == cap
    }
  }

  /** Tables `blob_uploads`, `blob_upload_chunks`, `blob_objects`, `blob_chunks` by primary key, and
      `blob_grants` in rowid order. Grants are only added, so rowid order is the order of insertion. */
  datatype BlobDb = BlobDb(uploads: map<Id, UploadRow>, staged: map<(Id, nat), Cell>,
                           objects: map<Id, Bytes>, chunks: map<(Id, nat), Cell>, grants: seq<Grant>)

  const EMPTY := BlobDb(map[], map[], map[], map[], [])

  datatype BlobError =
    | NotFound
    | Unauthorized
    | IdConflict
    | LimitOutOfRange
    | ChunkConflict
    | Incomplete
    | IdentityMismatch
    | Expired
    | StorageFault

  type BlobAnswer = Result<BlobBody, BlobError>

  /** The digest function; nothing is assumed of it. */
  type Hash = Bytes -> Id

  const IDENTITY_DOMAIN: Bytes :=
    [99, 111, 102, 102, 101, 114, 119, 105, 114, 101, 32, 98, 108, 111, 98, 32,
     105, 100, 101, 110, 116, 105, 116, 121, 32, 118, 49, 0]

  function Identify(sha: Hash, m: Manifest): Id
    requires m.Valid()
  {
    sha(IDENTITY_DOMAIN + ManifestBytes(m))
  }

  // ----- what each command does inside its transaction -----

  /** now + ttl, when the ttl is positive and the sum is a u64. */
  function Expiry(now: U64, ttl: U64): Result<U64, BlobError> {
    if ttl == 0 || now + ttl >= U64_LIMIT then Failure(BlobError.LimitOutOfRange) else Success(now + ttl)
  }

  function BeginTx(db: BlobDb, u: Id, caps: Capabilities, m: Manifest, now: U64, ttl: U64): (BlobDb, BlobAnswer)
    requires m.Valid()
  {
    match Expiry(now, ttl)
    case Failure(e) => (db, Failure(e))
    case Success(expiry) =>
      var row := UploadRow(caps, ManifestBytes(m), DQ.Cell(expiry), None);
      if u !in db.uploads then (db.(uploads := db.uploads[u := row]), Success(Begun(false)))
      else if db.uploads[u].(committed := None) == row then (db, Success(Begun(true)))
      else (db, Failure(IdConflict))
  }

  /** The live upload a capability may write to. */
  function LiveUpload(db: BlobDb, u: Id, cap: Id, now: U64): Result<UploadRow, BlobError> {
    if u !in db.uploads then Failure(NotFound)
    else if db.uploads[u].capabilities.upload != cap then Failure(Unauthorized)
    else if now >= DQ.Value(db.uploads[u].expiresAt) then Failure(Expired)
    else Success(db.uploads[u])
  }

  /** The chunk has the length and the digest the manifest gives for its index. */
  predicate ChunkFits(sha: Hash, m: Manifest, i: nat, x: Bytes) {
    i < |m.digests| && |x| == m.chunkSize + 16 && sha(x) == m.digests[i]
  }

  function PutTx(sha: Hash, db: BlobDb, u: Id, cap: Id, i: U32, x: Cell, now: U64): (BlobDb, BlobAnswer) {
    match LiveUpload(db, u, cap, now)
    case Failure(e) => (db, Failure(e))
    case Success(row) =>
      match Parse(row.manifest)
      case Failure(_) => (db, Failure(IdConflict))
      case Success(m) =>
        if i >= |m.digests| then (db, Failure(BlobError.LimitOutOfRange))
        else if !ChunkFits(sha, m, i, x) then (db, Failure(ChunkConflict))
        else if (u, i) !in db.staged then (db.(staged := db.staged[(u, i) := x]), Success(ChunkPut(false)))
        else if db.staged[(u, i)] == x then (db, Success(ChunkPut(true)))
        else (db, Failure(ChunkConflict))
  }

  /** Keys of the staged chunks of one upload. */
  function StagedKeys(db: BlobDb, u: Id): set<(Id, nat)> {
    set k | k in db.staged && k.0 == u
  }

  /** The first staged chunk from index i on that is missing or has another digest. */
  function FirstFlaw(sha: Hash, db: BlobDb, u: Id, digests: seq<Id>, i: nat): (e: Option<BlobError>)
    requires i <= |digests|
    ensures e.None? <==> forall j | i <= j < |digests| :: (u, j) in db.staged && sha(db.staged[(u, j)]) == digests[j]
    decreases |digests| - i
  {
    if i == |digests| then None
    else if (u, i) !in db.staged then Some(Incomplete)
    else if sha(db.staged[(u, i)]) != digests[i] then Some(ChunkConflict)
    else FirstFlaw(sha, db, u, digests, i + 1)
  }

  /** INSERT OR IGNORE of every staged chunk of u under the object b. */
  function Copied(db: BlobDb, u: Id, b: Id): map<(Id, nat), Cell> {
    (map k | k in db.staged && k.0 == u :: (b, k.1) := db.staged[k]) + db.chunks
  }

  predicate Granted(grants: seq<Grant>, u: Id) {
    exists i :: 0 <= i < |grants| && grants[i].id == u
  }

  /** The four writes that publish an upload. A second grant under one identifier violates the
      primary key. */
  function Publish(db: BlobDb, u: Id, b: Id): (BlobDb, BlobAnswer)
    requires u in db.uploads
  {
    var row := db.uploads[u];
    if b in db.objects && db.objects[b] != row.manifest then (db, Failure(IdConflict))
    else if Granted(db.grants, u) then (db, Failure(StorageFault))
    else
      (BlobDb(db.uploads[u := row.(committed := Some(b))], db.staged,
              if b in db.objects then db.objects else db.objects[b := row.manifest], Copied(db, u, b),
              db.grants + [Grant(u, b, row.capabilities, row.expiresAt, false)]),
       Success(Committed(DQ.Value(row.expiresAt))))
  }

  function CommitTx(sha: Hash, db: BlobDb, u: Id, cap: Id, b: Id, now: U64): (BlobDb, BlobAnswer) {
    match LiveUpload(db, u, cap, now)
    case Failure(e) => (db, Failure(e))
    case Success(row) =>
      if row.committed.Some? then
        (db, if row.committed.value == b then Success(Committed(DQ.Value(row.expiresAt))) else Failure(IdConflict))
      else
        match Parse(row.manifest)
        case Failure(_) => (db, Failure(IdConflict))
        case Success(m) =>
          ParseExact(row.manifest, m);
          if Identify(sha, m) != b then (db, Failure(IdentityMismatch))
          else if |StagedKeys(db, u)| != |m.digests| then (db, Failure(Incomplete))
          else
            match FirstFlaw(sha, db, u, m.digests, 0)
            case Some(e) => (db, Failure(e))
            case None => Publish(db, u, b)
  }

  /** Position of the first grant in rowid order that matches. */
  function FirstMatch(grants: seq<Grant>, b: Id, column: Column, cap: Id): (r: Option<nat>)
    ensures r.Some? ==> r.value < |grants| && grants[r.value].Matches(b, column, cap)
    ensures forall i :: 0 <= i < (if r.Some? then r.value else |grants|) ==> !grants[i].Matches(b, column, cap)
  {
    if grants == [] then None
    else
      var n := |grants| - 1;
      var before := FirstMatch(grants[..n], b, column, cap);
      if before.Some? then before else if grants[n].Matches(b, column, cap) then Some(n) else None
  }

  function AuthorizeGrant(db: BlobDb, b: Id, column: Column, cap: Id, now: U64): Result<U64, BlobError> {
    match FirstMatch(db.grants, b, column, cap)
    case None =>
      Failure(if exists i :: 0 <= i < |db.grants| && db.grants[i].blob == b then Unauthorized else NotFound)
    case Some(i) =>
      var g := db.grants[i];
      if g.deleted then Failure(NotFound)
      else if now >= DQ.Value(g.expiresAt) then Failure(Expired)
      else Success(DQ.Value(g.expiresAt))
  }

  function GetManifestTx(sha: Hash, db: BlobDb, b: Id, cap: Id, now: U64): BlobAnswer {
    match AuthorizeGrant(db, b, Download, cap, now)
    case Failure(e) => Failure(e)
    case Success(expiry) =>
      if b !in db.objects then Failure(StorageFault)
      else
        match Parse(db.objects[b])
        case Failure(_) => Failure(IdConflict)
        case Success(m) =>
          ParseExact(db.objects[b], m);
          if Identify(sha, m) != b then Failure(IdentityMismatch) else Success(ManifestGot(m, expiry))
  }

  function GetChunkTx(sha: Hash, db: BlobDb, b: Id, cap: Id, i: U32, now: U64): BlobAnswer {
    match AuthorizeGrant(db, b, Download, cap, now)
    case Failure(e) => Failure(e)
    case Success(expiry) =>
      if b !in db.objects then Failure(StorageFault)
      else
        match Parse(db.objects[b])
        case Failure(_) => Failure(IdConflict)
        case Success(m) =>
          if i >= |m.digests| then Failure(BlobError.LimitOutOfRange)
          else if (b, i) !in db.chunks then Failure(NotFound)
          else if sha(db.chunks[(b, i)]) != m.digests[i] then Failure(ChunkConflict)
          else Success(ChunkGot(db.chunks[(b, i)], expiry))
  }

  /** UPDATE of the expiry of every undeleted grant with this blob and renewal capability. */
  function Extended(grants: seq<Grant>, b: Id, cap: Id, expiry: U64): (r: seq<Grant>)
    ensures |r| == |grants|
  {
    seq(|grants|, i requires 0 <= i < |grants| =>
      if grants[i].Matches(b, Renewal, cap) && !grants[i].deleted
      then grants[i].(expiresAt := DQ.Cell(expiry)) else grants[i])
  }

  function RenewTx(db: BlobDb, b: Id, cap: Id, now: U64, ttl: U64): (BlobDb, BlobAnswer) {
    match Expiry(now, ttl)
    case Failure(e) => (db, Failure(e))
    case Success(requested) =>
      match AuthorizeGrant(db, b, Renewal, cap, now)
      case Failure(e) => (db, Failure(e))
      case Success(current) =>
        var expiry: U64 := if current < requested then requested else current;
        (db.(grants := Extended(db.grants, b, cap, expiry)), Success(Renewed(expiry)))
  }

  /** UPDATE of the deletion mark of every grant with this blob and deletion capability. */
  function Withdrawn(grants: seq<Grant>, b: Id, cap: Id): (r: seq<Grant>)
    ensures |r| == |grants|
  {
    seq(|grants|, i requires 0 <= i < |grants| =>
      if grants[i].Matches(b, Deletion, cap) then grants[i].(deleted := true) else grants[i])
  }

  function DeleteTx(db: BlobDb, b: Id, cap: Id, now: U64): (BlobDb, BlobAnswer) {
    match AuthorizeGrant(db, b, Deletion, cap, now)
    case Failure(e) => (db, Failure(e))
    case Success(_) => (db.(grants := Withdrawn(db.grants, b, cap)), Success(Deleted))
  }

  function ExecuteTx(sha: Hash, db: BlobDb, r: BlobRequest, now: U64): (BlobDb, BlobAnswer)
    requires r.Encodable()
  {
    match r
    case BeginUpload(u, caps, m, ttl) => BeginTx(db, u, caps, m, now, ttl)
    case PutChunk(u, cap, i, x) => PutTx(sha, db, u, cap, i, x, now)
    case Commit(u, cap, b) => CommitTx(sha, db, u, cap, b, now)
    case GetManifest(b, cap) => (db, GetManifestTx(sha, db, b, cap, now))
    case GetChunk(b, cap, i) => (db, GetChunkTx(sha, db, b, cap, i, now))
    case Renew(b, cap, ttl) => RenewTx(db, b, cap, now, ttl)
    case Delete(b, cap) => DeleteTx(db, b, cap, now)
  }

  // ----- the transaction as written -----

  class BlobTransaction {
    const sha: Hash
    var db: BlobDb

    constructor (sha: Hash, db: BlobDb)
      ensures this.sha == sha && this.db == db
    {
      this.sha := sha;
      this.db := db;
    }

    method BeginUpload(u: Id, caps: Capabilities, m: Manifest, now: U64, ttl: U64) returns (r: BlobAnswer)
      requires m.Valid()
      modifies this
      ensures (db, r) == BeginTx(old(db), u, caps, m, now, ttl)
    {
      hide ManifestBytes;
      var expiry :- Expiry(now, ttl);
      if u in db.uploads {
        var row := db.uploads[u];
        var same := row.capabilities == caps && row.manifest == ManifestBytes(m) && row.expiresAt == DQ.Cell(expiry);
        if same {
          return Success(Begun(true));
        }
        return Failure(IdConflict);
      }
      db := db.(uploads := db.uploads[u := UploadRow(caps, ManifestBytes(m), DQ.Cell(expiry), None)]);
      return Success(Begun(false));
    }

    method PutChunk(u: Id, cap: Id, i: U32, x: Cell, now: U64) returns (r: BlobAnswer)
      modifies this
      ensures (db, r) == PutTx(sha, old(db), u, cap, i, x, now)
    {
      hide Parse;
      var row :- LiveUpload(db, u, cap, now);
      var parsed := Parse(row.manifest);
      if parsed.Failure? {
        return Failure(IdConflict);
      }
      var m := parsed.value;
      if i >= |m.digests| {
        return Failure(BlobError.LimitOutOfRange);
      }
      if |x| != m.chunkSize + 16 || sha(x) != m.digests[i] {
        return Failure(ChunkConflict);
      }
      if (u, i) in db.staged {
        if db.staged[(u, i)] == x {
          return Success(ChunkPut(true));
        }
        return Failure(ChunkConflict);
      }
      db := db.(staged := db.staged[(u, i) := x]);
      return Success(ChunkPut(false));
    }

    method Commit(u: Id, cap: Id, b: Id, now: U64) returns (r: BlobAnswer)
      modifies this
      ensures (db, r) == CommitTx(sha, old(db), u, cap, b, now)
    {
      hide Parse, ManifestBytes, Copied, StagedKeys, Granted, FirstFlaw;
      var row :- LiveUpload(db, u, cap, now);
      var expiry := DQ.Value(row.expiresAt);
      if row.committed.Some? {
        if row.committed.value == b {
          return Success(Committed(expiry));
        }
        return Failure(IdConflict);
      }
      var parsed := Parse(row.manifest);
      if parsed.Failure? {
        return Failure(IdConflict);
      }
      var m := parsed.value;
      ParseExact(row.manifest, m);
      if Identify(sha, m) != b {
        return Failure(IdentityMismatch);
      }
      if |StagedKeys(db, u)| != |m.digests| {
        return Failure(Incomplete);
      }
      var flaw := CheckChunks(u, m.digests);
      if flaw.Some? {
        return Failure(flaw.value);
      }
      if b in db.objects && db.objects[b] != row.manifest {
        return Failure(IdConflict);
      }
      if Granted(db.grants, u) {
        return Failure(StorageFault);
      }
      var before := db;
      if b !in db.objects {
        db := db.(objects := db.objects[b := row.manifest]);
      }
      db := db.(chunks := Copied(before, u, b));
      db := db.(grants := db.grants + [Grant(u, b, row.capabilities, row.expiresAt, false)]);
      db := db.(uploads := db.uploads[u := row.(committed := Some(b))]);
      return Success(Committed(expiry));
    }

    /** The loop over the manifest's indices; a chunk count always fits a wire index. */
    method CheckChunks(u: Id, digests: seq<Id>) returns (flaw: Option<BlobError>)
      ensures flaw == FirstFlaw(sha, db, u, digests, 0)
    {
      var index := 0;
      while index < |digests|
        invariant 0 <= index <= |digests|
        invariant FirstFlaw(sha, db, u, digests, 0) == FirstFlaw(sha, db, u, digests, index)
      {
        if (u, index) !in db.staged {
          return Some(Incomplete);
        }
        if sha(db.staged[(u, index)]) != digests[index] {
          return Some(ChunkConflict);
        }
        index := index + 1;
      }
      return None;
    }

    method Renew(b: Id, cap: Id, now: U64, ttl: U64) returns (r: BlobAnswer)
      modifies this
      ensures (db, r) == RenewTx(old(db), b, cap, now, ttl)
    {
      var requested :- Expiry(now, ttl);
      var current :- AuthorizeGrant(db, b, Renewal, cap, now);
      var expiry: U64 := if current < requested then requested else current;
      db := db.(grants := Extended(db.grants, b, cap, expiry));
      return Success(Renewed(expiry));
    }

    method Delete(b: Id, cap: Id, now: U64) returns (r: BlobAnswer)
      modifies this
      ensures (db, r) == DeleteTx(old(db), b, cap, now)
    {
      var _ :- AuthorizeGrant(db, b, Deletion, cap, now);
      db := db.(grants := Withdrawn(db.grants, b, cap));
      return Success(Deleted);
    }

    method Execute(r: BlobRequest, now: U64) returns (a: BlobAnswer)
      requires r.Encodable()
      modifies this
      ensures (db, a) == ExecuteTx(sha, old(db), r, now)
    {
      hide BeginTx, PutTx, CommitTx, RenewTx, DeleteTx, GetManifestTx, GetChunkTx;
      match r
      case BeginUpload(u, caps, m, ttl) => a := BeginUpload(u, caps, m, now, ttl);
      case PutChunk(u, cap, i, x) => a := PutChunk(u, cap, i, x, now);
      case Commit(u, cap, b) => a := Commit(u, cap, b, now);
      case GetManifest(b, cap) => a := GetManifestTx(sha, db, b, cap, now);
      case GetChunk(b, cap, i) => a := GetChunkTx(sha, db, b, cap, i, now);
      case Renew(b, cap, ttl) => a := Renew(b, cap, now, ttl);
      case Delete(b, cap) => a := Delete(b, cap, now);
    }
  }
}
