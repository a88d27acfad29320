/** Every answer of the blob commands as an exact condition on the rows they read: who is refused, with
    which error, and what a success writes. */
module BlobAnswers {
  import opened Base
  import opened Manifest
  import opened BlobCodec
  import opened DurableBlob
  import opened BlobInvariant
  import DQ = DurableQueue
  import G = BlobGrants

  // ----- grants -----

  /** The grant names this capability for this use. */
  predicate Names(g: Grant, use: Column, cap: Id) {
    match use
    case Download => g.capabilities.download == cap
    case Renewal => g.capabilities.renew == cap
    case Deletion => g.capabilities.delete == cap
  }

  /** Grant i is the first of the object that names the capability. */
  predicate FirstNaming(grants: seq<Grant>, b: Id, use: Column, cap: Id, i: nat) {
    && i < |grants| && grants[i].blob == b && Names(grants[i], use, cap)
    && forall j :: 0 <= j < i && grants[j].blob == b ==> !Names(grants[j], use, cap)
  }

  /** And it is live. */
  predicate LiveFirst(grants: seq<Grant>, b: Id, use: Column, cap: Id, now: U64, i: nat) {
    FirstNaming(grants, b, use, cap, i) && !grants[i].deleted && now < DQ.Value(grants[i].expiresAt)
  }

  ghost predicate HasGrant(grants: seq<Grant>, b: Id) {
    exists i :: 0 <= i < |grants| && grants[i].blob == b
  }

  ghost predicate Named(grants: seq<Grant>, b: Id, use: Column, cap: Id) {
    exists i: nat :: FirstNaming(grants, b, use, cap, i)
  }

  ghost predicate Live(grants: seq<Grant>, b: Id, use: Column, cap: Id, now: U64) {
    exists i: nat :: LiveFirst(grants, b, use, cap, now, i)
  }

  /** When a capability is refused, and how: an object without grants and a deleted grant are not found,
      a capability no grant names is unauthorized, and a grant past its time is expired. */
  ghost predicate GrantRefused(grants: seq<Grant>, b: Id, use: Column, cap: Id, now: U64, e: BlobError) {
    match e
    case NotFound =>
      !HasGrant(grants, b) || exists i: nat :: FirstNaming(grants, b, use, cap, i) && grants[i].deleted
    case Unauthorized =>
      HasGrant(grants, b) && forall i :: 0 <= i < |grants| && grants[i].blob == b ==> !Names(grants[i], use, cap)
    case Expired =>
      exists i: nat :: FirstNaming(grants, b, use, cap, i) && !grants[i].deleted
                       && DQ.Value(grants[i].expiresAt) <= now
    case _ => false
  }

  lemma FirstIsOne(grants: seq<Grant>, b: Id, use: Column, cap: Id, i: nat)
    requires FirstNaming(grants, b, use, cap, i)
    ensures FirstMatch(grants, b, use, cap) == Some(i)
  {
  }

  lemma MatchIsFirst(grants: seq<Grant>, b: Id, use: Column, cap: Id)
    ensures match FirstMatch(grants, b, use, cap)
            case Some(i) => FirstNaming(grants, b, use, cap, i)
            case None => forall i :: 0 <= i < |grants| && grants[i].blob == b ==> !Names(grants[i], use, cap)
  {
  }

  /** The decision on a capability, exactly. */
  lemma AuthorizedExactly(db: BlobDb, b: Id, use: Column, cap: Id, now: U64)
    ensures var a := AuthorizeGrant(db, b, use, cap, now);
            && (a.Success? <==> Live(db.grants, b, use, cap, now))
            && (forall i: nat :: LiveFirst(db.grants, b, use, cap, now, i) ==>
                  a == Success(DQ.Value(db.grants[i].expiresAt)))
            && (forall e :: a == Failure(e) <==> GrantRefused(db.grants, b, use, cap, now, e))
  {
    hide FirstNaming, LiveFirst, Names, FirstMatch, AuthorizeGrant, HasGrant;
    MatchIsFirst(db.grants, b, use, cap);
    match FirstMatch(db.grants, b, use, cap) {
      case Some(i) => DecidedBy(db, b, use, cap, now, i);
      case None => UnnamedExactly(db, b, use, cap, now);
    }
  }

  /** The first grant that names the capability decides. */
  lemma DecidedBy(db: BlobDb, b: Id, use: Column, cap: Id, now: U64, i: nat)
    requires FirstNaming(db.grants, b, use, cap, i) && FirstMatch(db.grants, b, use, cap) == Some(i)
    ensures var a, g := AuthorizeGrant(db, b, use, cap, now), db.grants[i];
            && (a.Success? <==> LiveFirst(db.grants, b, use, cap, now, i))
            && (forall j: nat :: FirstNaming(db.grants, b, use, cap, j) || LiveFirst(db.grants, b, use, cap, now, j) ==>
                j == i)
            && (a.Success? ==> a == Success(DQ.Value(g.expiresAt)))
            && (a == Failure(NotFound) <==> g.deleted)
            && (a == Failure(Expired) <==> !g.deleted && DQ.Value(g.expiresAt) <= now)
            && (a.Failure? ==> a.error in {NotFound, Expired})
    ensures HasGrant(db.grants, b) && db.grants[i].blob == b && Names(db.grants[i], use, cap)
  {
    hide FirstMatch, Names, DQ.Value;
    forall j: nat | FirstNaming(db.grants, b, use, cap, j) ensures j == i {
      FirstIsOne(db.grants, b, use, cap, j);
    }
  }

  /** A capability no grant of the object names. */
  lemma UnnamedExactly(db: BlobDb, b: Id, use: Column, cap: Id, now: U64)
    requires FirstMatch(db.grants, b, use, cap) == None
    requires forall i :: 0 <= i < |db.grants| && db.grants[i].blob == b ==> !Names(db.grants[i], use, cap)
    ensures AuthorizeGrant(db, b, use, cap, now) == Failure(if HasGrant(db.grants, b) then Unauthorized else NotFound)
    ensures forall j: nat :: !FirstNaming(db.grants, b, use, cap, j) && !LiveFirst(db.grants, b, use, cap, now, j)
  {
    hide FirstMatch, Names;
  }

  // ----- reading -----

  /** In a reachable state GET_MANIFEST succeeds exactly for a live grant that names the reader's download
      capability first; the body is the object's manifest and the grant's expiry; every refusal is one of
      the three above. */
  lemma ManifestReadExactly(sha: Hash, db: BlobDb, b: Id, cap: Id, now: U64)
    requires Sound(sha, db)
    ensures var (db', a) := ExecuteTx(sha, db, GetManifest(b, cap), now);
            && db' == db
            && (a.Success? <==> Live(db.grants, b, Download, cap, now))
            && (forall e :: a == Failure(e) <==> GrantRefused(db.grants, b, Download, cap, now, e))
            && (forall i: nat :: LiveFirst(db.grants, b, Download, cap, now, i) ==>
                  && b in db.objects && Parses(db.objects[b])
                  && a == Success(ManifestGot(Decoded(db.objects[b]), DQ.Value(db.grants[i].expiresAt))))
  {
    hide Sound, AuthorizeGrant, Parse, ManifestBytes, Identify, GrantRefused, LiveFirst;
    AuthorizedExactly(db, b, Download, cap, now);
    if AuthorizeGrant(db, b, Download, cap, now).Success? {
      G.ManifestIsServed(sha, db, b, cap, now);
      G.ChunkIsServed(sha, db, b, cap, 0, now);
    }
  }

  /** GET_CHUNK likewise, and an index out of range is the one other refusal. */
  lemma ChunkReadExactly(sha: Hash, db: BlobDb, b: Id, cap: Id, i: U32, now: U64)
    requires Sound(sha, db)
    ensures var (db', a) := ExecuteTx(sha, db, GetChunk(b, cap, i), now);
            && db' == db
            && (a.Success? <==> Live(db.grants, b, Download, cap, now) && b in db.objects && InRange(db.objects[b], i))
            && (forall e :: a == Failure(e) <==>
                  || GrantRefused(db.grants, b, Download, cap, now, e)
                  || (e == BlobError.LimitOutOfRange && Live(db.grants, b, Download, cap, now)
                      && b in db.objects && !InRange(db.objects[b], i)))
            && (forall g: nat :: a.Success? && LiveFirst(db.grants, b, Download, cap, now, g) ==>
                  (b, i) in db.chunks && a == Success(ChunkGot(db.chunks[(b, i)], DQ.Value(db.grants[g].expiresAt))))
  {
    hide Sound, AuthorizeGrant, Parse, ManifestBytes, Identify, GrantRefused, LiveFirst, ChunkFits;
    AuthorizedExactly(db, b, Download, cap, now);
    if AuthorizeGrant(db, b, Download, cap, now).Success? {
      G.ChunkIsServed(sha, db, b, cap, i, now);
      G.CellOfObject(sha, db, b, i);
      RefusedIsOneOfThree(db.grants, b, Download, cap, now);
    }
  }

  lemma RefusedIsOneOfThree(grants: seq<Grant>, b: Id, use: Column, cap: Id, now: U64)
    ensures forall e :: GrantRefused(grants, b, use, cap, now, e) ==> e in {NotFound, Unauthorized, Expired}
  {
    hide FirstNaming, HasGrant;
  }

  // ----- renewing and deleting -----

  /** The lifetime is no lifetime: zero, or past the largest time. */
  predicate BadLifetime(now: U64, ttl: U64) {
    ttl == 0 || now + ttl >= U64_LIMIT
  }

  /** RENEW refuses a bad lifetime first and then as the grants say; otherwise it succeeds, reports the
      later of the first grant's expiry and now + ttl, gives it to exactly the undeleted grants of the object
      with this renewal capability, and changes nothing else. */
  lemma RenewExactly(sha: Hash, db: BlobDb, b: Id, cap: Id, ttl: U64, now: U64)
    ensures var (db', a) := ExecuteTx(sha, db, Renew(b, cap, ttl), now);
            && (a == Failure(BlobError.LimitOutOfRange) <==> BadLifetime(now, ttl))
            && (!BadLifetime(now, ttl) ==>
                  && (a.Success? <==> Live(db.grants, b, Renewal, cap, now))
                  && (forall e :: a == Failure(e) <==> GrantRefused(db.grants, b, Renewal, cap, now, e)))
            && (a.Failure? ==> db' == db)
            && (forall i: nat :: a.Success? && LiveFirst(db.grants, b, Renewal, cap, now, i) ==>
                  var current := DQ.Value(db.grants[i].expiresAt);
                  var expiry := if current < now + ttl then now + ttl else current;
                  && a == Success(Renewed(expiry)) && db' == db.(grants := db'.grants) && |db'.grants| == |db.grants|
                  && forall j :: 0 <= j < |db.grants| ==>
                       db'.grants[j] ==
                         if db.grants[j].blob == b && db.grants[j].capabilities.renew == cap && !db.grants[j].deleted
                         then db.grants[j].(expiresAt := DQ.Cell(expiry)) else db.grants[j])
  {
    hide AuthorizeGrant, GrantRefused, LiveFirst, DQ.Cell, DQ.Value;
    AuthorizedExactly(db, b, Renewal, cap, now);
    RefusedIsOneOfThree(db.grants, b, Renewal, cap, now);
  }

  /** DELETE succeeds exactly for a live first grant with this deletion capability; then exactly the grants of
      the object with that capability are deleted, and nothing else changes. */
  lemma DeleteExactly(sha: Hash, db: BlobDb, b: Id, cap: Id, now: U64)
    ensures var (db', a) := ExecuteTx(sha, db, Delete(b, cap), now);
            && (a == Success(Deleted) <==> Live(db.grants, b, Deletion, cap, now))
            && (forall e :: a == Failure(e) <==> GrantRefused(db.grants, b, Deletion, cap, now, e))
            && (a.Failure? ==> db' == db)
            && (a.Success? ==>
                  && db' == db.(grants := db'.grants) && |db'.grants| == |db.grants|
                  && forall j :: 0 <= j < |db.grants| ==>
                       db'.grants[j] ==
                         if db.grants[j].blob == b && db.grants[j].capabilities.delete == cap
                         then db.grants[j].(deleted := true) else db.grants[j])
  {
    hide AuthorizeGrant, GrantRefused, LiveFirst;
    AuthorizedExactly(db, b, Deletion, cap, now);
  }

  // ----- uploading -----

  /** The capability may write to the upload: it is the upload's own, and the upload has not expired. */
  predicate Writable(db: BlobDb, u: Id, cap: Id, now: U64) {
    u in db.uploads && db.uploads[u].capabilities.upload == cap && now < DQ.Value(db.uploads[u].expiresAt)
  }

  /** When writing is refused, and how. */
  predicate UploadRefused(db: BlobDb, u: Id, cap: Id, now: U64, e: BlobError) {
    match e
    case NotFound => u !in db.uploads
    case Unauthorized => u in db.uploads && db.uploads[u].capabilities.upload != cap
    case Expired =>
      u in db.uploads && db.uploads[u].capabilities.upload == cap && DQ.Value(db.uploads[u].expiresAt) <= now
    case _ => false
  }

  lemma WritableExactly(db: BlobDb, u: Id, cap: Id, now: U64)
    ensures var a := LiveUpload(db, u, cap, now);
            && (a.Success? <==> Writable(db, u, cap, now))
            && (a.Success? ==> a.value == db.uploads[u])
            && (forall e :: a == Failure(e) <==> UploadRefused(db, u, cap, now, e))
  {
    hide DQ.Value;
  }

  lemma CellIsValue(cell: Blob8, n: U64)
    ensures DQ.Cell(n) == cell <==> DQ.Value(cell) == n
  {
    BeOfFromBe(cell);
  }

  /** BEGIN_UPLOAD: a bad lifetime is refused, a new identifier gets its row, the same upload again is a
      duplicate, and anything else under a used identifier is a conflict. */
  lemma BeginExactly(sha: Hash, db: BlobDb, u: Id, caps: Capabilities, m: Manifest, ttl: U64, now: U64)
    requires m.Valid()
    ensures var (db', a) := ExecuteTx(sha, db, BeginUpload(u, caps, m, ttl), now);
            && (a == Failure(BlobError.LimitOutOfRange) <==> BadLifetime(now, ttl))
            && (a.Success? || a in {Failure(BlobError.LimitOutOfRange), Failure(IdConflict)})
            && (!BadLifetime(now, ttl) ==>
                  && (a == Success(Begun(false)) <==> u !in db.uploads)
                  && (a == Success(Begun(true)) <==>
                        && u in db.uploads && db.uploads[u].capabilities == caps
                        && db.uploads[u].manifest == ManifestBytes(m) && DQ.Value(db.uploads[u].expiresAt) == now + ttl)
                  && (a == Success(Begun(false)) ==>
                        var row := UploadRow(caps, ManifestBytes(m), DQ.Cell(now + ttl), None);
                        db' == db.(uploads := db.uploads[u := row])))
            && (a != Success(Begun(false)) ==> db' == db)
  {
    hide ManifestBytes, DQ.Cell, DQ.Value;
    if !BadLifetime(now, ttl) && u in db.uploads {
      CellIsValue(db.uploads[u].expiresAt, now + ttl);
    }
  }

  /** PUT_CHUNK in a reachable state: refused as above, for an index out of range, or for bytes that are not
      the chunk of that index or not the ones staged before; a chunk already staged is a duplicate. */
  lemma PutExactly(sha: Hash, db: BlobDb, u: Id, cap: Id, i: U32, x: Cell, now: U64)
    requires Sound(sha, db)
    ensures var (db', a) := ExecuteTx(sha, db, PutChunk(u, cap, i, x), now);
            && (!Writable(db, u, cap, now) ==> forall e :: a == Failure(e) <==> UploadRefused(db, u, cap, now, e))
            && (Writable(db, u, cap, now) ==>
                  var manifest := db.uploads[u].manifest;
                  && (a == Failure(BlobError.LimitOutOfRange) <==> !InRange(manifest, i))
                  && (a == Failure(ChunkConflict) <==>
                        InRange(manifest, i)
                        && (!Fits(sha, manifest, i, x) || ((u, i) in db.staged && db.staged[(u, i)] != x)))
                  && (a == Success(ChunkPut(true)) <==> (u, i) in db.staged && db.staged[(u, i)] == x)
                  && (a == Success(ChunkPut(false)) <==> (u, i) !in db.staged && Fits(sha, manifest, i, x)))
            && (a.Success? ==> Writable(db, u, cap, now))
            && db' == (if a == Success(ChunkPut(false)) then db.(staged := db.staged[(u, i) := x]) else db)
  {
    hide LiveUpload, Parse, ManifestBytes, UploadRefused, DQ.Value;
    WritableExactly(db, u, cap, now);
    if LiveUpload(db, u, cap, now).Success? {
      StagedFits(sha, db, u, i);
    }
  }

  lemma StagedFits(sha: Hash, db: BlobDb, u: Id, i: nat)
    requires Sound(sha, db) && u in db.uploads
    ensures Parses(db.uploads[u].manifest)
    ensures (u, i) in db.staged ==> Fits(sha, db.uploads[u].manifest, i, db.staged[(u, i)])
  {
    hide Parses, Fits;
  }

  /** Every chunk of the upload is staged. */
  ghost predicate Complete(db: BlobDb, u: Id)
    requires u in db.uploads
  {
    forall i: nat :: InRange(db.uploads[u].manifest, i) ==> (u, i) in db.staged
  }

  /** The identity already names another manifest. */
  predicate Clashes(db: BlobDb, u: Id, b: Id)
    requires u in db.uploads
  {
    b in db.objects && db.objects[b] != db.uploads[u].manifest
  }

  lemma CommitRefused(sha: Hash, db: BlobDb, u: Id, cap: Id, b: Id, now: U64)
    requires LiveUpload(db, u, cap, now).Failure?
    ensures CommitTx(sha, db, u, cap, b, now).1 == Failure(LiveUpload(db, u, cap, now).error)
  {
    hide LiveUpload;
  }

  lemma CommittedAgain(sha: Hash, db: BlobDb, u: Id, cap: Id, b: Id, now: U64)
    requires LiveUpload(db, u, cap, now).Success? && db.uploads[u].committed.Some?
    ensures CommitTx(sha, db, u, cap, b, now).1
            == if db.uploads[u].committed == Some(b) then Success(Committed(DQ.Value(db.uploads[u].expiresAt)))
               else Failure(IdConflict)
  {
    hide DQ.Value;
  }

  lemma CommittedFirst(sha: Hash, db: BlobDb, u: Id, cap: Id, b: Id, now: U64)
    requires Sound(sha, db) && LiveUpload(db, u, cap, now).Success? && db.uploads[u].committed.None?
    ensures var a, manifest := CommitTx(sha, db, u, cap, b, now).1, db.uploads[u].manifest;
            && (a == Failure(IdentityMismatch) <==> !Identified(sha, manifest, b))
            && (a == Failure(Incomplete) <==> Identified(sha, manifest, b) && !Complete(db, u))
            && (a == Failure(IdConflict) <==> Identified(sha, manifest, b) && Complete(db, u) && Clashes(db, u, b))
            && (a.Success? <==> Identified(sha, manifest, b) && Complete(db, u) && !Clashes(db, u, b))
            && (a.Success? ==> a == Success(Committed(DQ.Value(db.uploads[u].expiresAt))))
  {
    hide CommitTx, Sound, Identified, InRange, DQ.Value, Publish, Granted;
    CommitExact(sha, db, u, cap, b, now);
  }

  /** COMMIT in a reachable state: the exact condition of every answer. */
  lemma CommitExactly(sha: Hash, db: BlobDb, u: Id, cap: Id, b: Id, now: U64)
    requires Sound(sha, db)
    ensures var a := ExecuteTx(sha, db, BlobCodec.Commit(u, cap, b), now).1;
            && (!Writable(db, u, cap, now) ==> forall e :: a == Failure(e) <==> UploadRefused(db, u, cap, now, e))
            && (a.Success? ==> Writable(db, u, cap, now) && a == Success(Committed(DQ.Value(db.uploads[u].expiresAt))))
            && (Writable(db, u, cap, now) && db.uploads[u].committed.Some? ==>
                  && (a.Success? <==> db.uploads[u].committed == Some(b))
                  && (a.Failure? ==> a == Failure(IdConflict)))
            && (Writable(db, u, cap, now) && db.uploads[u].committed.None? ==>
                  var manifest := db.uploads[u].manifest;
                  && (a == Failure(IdentityMismatch) <==> !Identified(sha, manifest, b))
                  && (a == Failure(Incomplete) <==> Identified(sha, manifest, b) && !Complete(db, u))
                  && (a == Failure(IdConflict) <==>
                      Identified(sha, manifest, b) && Complete(db, u) && Clashes(db, u, b))
                  && (a.Success? <==> Identified(sha, manifest, b) && Complete(db, u) && !Clashes(db, u, b)))
  {
    hide LiveUpload, CommitTx, Sound, UploadRefused, DQ.Value, Identified, Complete, Clashes;
    WritableExactly(db, u, cap, now);
    if LiveUpload(db, u, cap, now).Failure? {
      CommitRefused(sha, db, u, cap, b, now);
    } else if db.uploads[u].committed.Some? {
      CommittedAgain(sha, db, u, cap, b, now);
    } else {
      CommittedFirst(sha, db, u, cap, b, now);
    }
  }

  /** What a first COMMIT writes: the mark on the upload, the object, its chunks (those staged, or those the
      object has already) and one live grant with the upload's capabilities and expiry, after all others. */
  lemma CommitWrites(sha: Hash, db: BlobDb, u: Id, cap: Id, b: Id, now: U64)
    requires Sound(sha, db)
    ensures var (db', a) := ExecuteTx(sha, db, BlobCodec.Commit(u, cap, b), now);
            if a.Success? && db.uploads[u].committed.None? then
              var row := db.uploads[u];
              && db'.uploads == db.uploads[u := row.(committed := Some(b))] && db'.staged == db.staged
              && db'.objects == db.objects[b := row.manifest]
              && db'.grants == db.grants + [Grant(u, b, row.capabilities, row.expiresAt, false)]
              && (forall k :: k in db.chunks ==> k in db'.chunks && db'.chunks[k] == db.chunks[k])
              && (forall k :: k in db'.chunks && k !in db.chunks ==>
                    k.0 == b && b !in db.objects && (u, k.1) in db.staged && db'.chunks[k] == db.staged[(u, k.1)])
            else db' == db
  {
    hide CommitTx, Identified, InRange, Parses, Fits, Granted, Copied, LiveUpload, DQ.Value;
    CommitExactly(sha, db, u, cap, b, now);
    WritableExactly(db, u, cap, now);
    var db' := CommitTx(sha, db, u, cap, b, now).0;
    if CommitTx(sha, db, u, cap, b, now).1.Success? {
      CommitExact(sha, db, u, cap, b, now);
      if db.uploads[u].committed.None? {
        forall k ensures k in db.chunks ==> k in db'.chunks && db'.chunks[k] == db.chunks[k]
          ensures k in db'.chunks && k !in db.chunks ==>
                    k.0 == b && b !in db.objects && (u, k.1) in db.staged && db'.chunks[k] == db.staged[(u, k.1)]
        {
          CopiedCells(db, u, b, k);
          PublishClosed(sha, db, db', u, b);
        }
      }
    } else {
      CommitRejected(sha, db, u, cap, b, now);
    }
  }

  lemma CommitRejected(sha: Hash, db: BlobDb, u: Id, cap: Id, b: Id, now: U64)
    requires CommitTx(sha, db, u, cap, b, now).1.Failure?
    ensures CommitTx(sha, db, u, cap, b, now).0 == db
  {
    hide Parse, Identify, ManifestBytes, Granted, Copied, StagedKeys, FirstFlaw, DQ.Value;
  }
}
