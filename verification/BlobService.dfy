/** The daemon's blob entry point, and what holds of the blob tables over every run of it. */
module BlobService {
  import opened Base
  import opened Cbor
  import opened Manifest
  import opened BlobCodec
  import opened DurableBlob
  import opened BlobInvariant
  import G = BlobGrants
  import R = Replay
  import RL = RateLimiter
  import QS = QueueService

  type Buildable = r: BlobRequest | r.Encodable() witness Delete(seq(32, _ => 0), seq(32, _ => 0))

  /** A decoded request with the identifier its response must echo. */
  datatype BlobJob = BlobJob(requestId: RequestId, request: Buildable)

  function StatusOf(e: BlobError): (s: BlobStatus)
    requires !e.StorageFault?
    ensures s != BLOB_OK
  {
    match e
    case NotFound => NOT_FOUND
    case Unauthorized => BLOB_UNAUTHORIZED
    case IdConflict => ID_CONFLICT
    case LimitOutOfRange => BLOB_LIMIT_OUT_OF_RANGE
    case ChunkConflict => CHUNK_CONFLICT
    case Incomplete => INCOMPLETE
    case IdentityMismatch => IDENTITY_MISMATCH
    case Expired => EXPIRED
  }

  /** The status tells which error it was. */
  lemma StatusTellsError(e: BlobError, f: BlobError)
    requires !e.StorageFault? && !f.StorageFault?
    ensures StatusOf(e) == StatusOf(f) <==> e == f
  {
  }

  function ErrorResponse(id: RequestId, command: Option<BlobCommand>, status: BlobStatus): Bytes {
    BlobResponseBytes(BlobReply(id, Declined(command, status)))
  }

  lemma ExecutedIsEncodable(sha: Hash, db: BlobDb, r: Buildable, now: U64)
    ensures var a := ExecuteTx(sha, db, r, now).1;
            a.Success? ==> a.value.Encodable() && a.value.Command() == r.Command()
  {
    hide Parse, ManifestBytes, Identify, AuthorizeGrant, FirstFlaw, Copied, LiveUpload;
    if r.GetManifest? && r.blobId in db.objects && Parse(db.objects[r.blobId]).Success? {
      ParseExact(db.objects[r.blobId], Parse(db.objects[r.blobId]).value);
    }
  }

  /** The response an executed request is answered with. */
  function Rendered(job: BlobJob, a: BlobAnswer): BlobReply
    requires a != Failure(StorageFault)
  {
    BlobReply(job.requestId,
              match a
              case Success(body) => BlobResponse(Some(job.request.Command()), BLOB_OK, Some(body))
              case Failure(e) => Declined(Some(job.request.Command()), StatusOf(e)))
  }

  /** Runs a decoded request in a transaction and renders its response. */
  function Perform(sha: Hash, db: BlobDb, job: BlobJob, now: U64): R.Verdict<BlobDb> {
    var (after, a) := ExecuteTx(sha, db, job.request, now);
    if a == Failure(StorageFault) then R.Broken
    else
      ExecutedIsEncodable(sha, db, job.request, now);
      var response := BlobResponseBytes(Rendered(job, a));
      if a.Success? then R.Done(after, response) else R.Rejected(response)
  }

  function BlobEngine(sha: Hash): R.Engine<BlobDb, BlobJob> {
    (db: BlobDb, job: BlobJob, now: U64) => Perform(sha, db, job, now)
  }

  /** The call a frame makes, if it decodes. */
  function CallOf(bytes: Bytes): Option<R.Call<BlobJob>> {
    match ParseBlobRequest(bytes)
    case Failure(_) => None
    case Success(d) =>
      BlobRequestExact(bytes, d);
      var f := d.frame;
      Some(R.Call(R.Key(f.request.Capability(), f.requestId), bytes, BlobJob(f.requestId, f.request)))
  }

  function DecodeErrorResponse(bytes: Bytes, e: DecodeError): Bytes {
    match e
    case UnsupportedVersion(_, id) => ErrorResponse(id, None, BLOB_UNSUPPORTED_VERSION)
    case FrameTooLarge => ErrorResponse(QS.PrefixId(bytes), None, BLOB_FRAME_TOO_LARGE)
    case UnknownBlobCommand => ErrorResponse(QS.PrefixId(bytes), None, BLOB_UNKNOWN_COMMAND)
    case _ => ErrorResponse(QS.PrefixId(bytes), None, BLOB_MALFORMED_FRAME)
  }

  /** One frame at one relay time: new limiter windows, new store, and the response frame. */
  function Served(sha: Hash, verify: QS.Verifier, p: RL.Policy, windows: map<Id, seq<nat>>,
                  s: R.Store<BlobDb>, bytes: Bytes, now: U64)
    : (map<Id, seq<nat>>, R.Store<BlobDb>, Result<Bytes, QS.ExchangeError>)
  {
    match ParseBlobRequest(bytes)
    case Failure(e) => (windows, s, Success(DecodeErrorResponse(bytes, e)))
    case Success(d) =>
      var f := d.frame;
      var cap, command := f.request.Capability(), f.request.Command();
      if !verify(cap, d.authenticated, f.auth) then
        (windows, s, Success(ErrorResponse(f.requestId, Some(command), BLOB_AUTH_INVALID)))
      else
        var (after, admitted) := RL.AdmitStep(p, windows, cap, now);
        if !admitted then (after, s, Failure(QS.Overloaded))
        else
          var (store, outcome) := R.LookupFirst(BlobEngine(sha), s, CallOf(bytes).value, now);
          (after, store,
           match outcome
           case Respond(response) => Success(response)
           case Conflict => Success(ErrorResponse(f.requestId, Some(command), BLOB_AUTH_REPLAY))
           case Fault => Failure(QS.Storage))
  }

  class BlobRelayService {
    const limiter: RL.RateLimiter<Id>
    const connection: R.Connection<BlobDb, BlobJob>

    constructor (limiter: RL.RateLimiter<Id>, connection: R.Connection<BlobDb, BlobJob>)
      ensures this.limiter == limiter && this.connection == connection
    {
      this.limiter := limiter;
      this.connection := connection;
    }

    method ExchangeBlobAt(sha: Hash, verify: QS.Verifier, bytes: Bytes, now: U64)
      returns (r: Result<Bytes, QS.ExchangeError>)
      modifies limiter, connection
      ensures (limiter.windows, connection.store, r)
              == Served(sha, verify, limiter.policy, old(limiter.windows), old(connection.store), bytes, now)
    {
      hide ParseBlobRequest, Perform, BlobResponseBytes;
      var decoded := DecodeBlobRequest(bytes);
      if decoded.Failure? {
        return Success(DecodeErrorResponse(bytes, decoded.error));
      }
      BlobRequestExact(bytes, decoded.value);
      var frame := decoded.value.frame;
      var cap, command := frame.request.Capability(), frame.request.Command();
      if !verify(cap, decoded.value.authenticated, frame.auth) {
        return Success(ErrorResponse(frame.requestId, Some(command), BLOB_AUTH_INVALID));
      }
      var admitted := limiter.Admit(cap, now);
      if !admitted {
        return Failure(QS.Overloaded);
      }
      var call := R.Call(R.Key(cap, frame.requestId), bytes, BlobJob(frame.requestId, frame.request));
      if call.key in connection.store.records {
        var stored := connection.store.records[call.key];
        if stored.request == bytes {
          return Success(stored.response);
        }
        return Success(ErrorResponse(frame.requestId, Some(command), BLOB_AUTH_REPLAY));
      }
      var outcome := connection.Exchange(BlobEngine(sha), call, now, connection.store, {});
      match outcome
      case Respond(response) => return Success(response);
      case Conflict => return Success(ErrorResponse(frame.requestId, Some(command), BLOB_AUTH_REPLAY));
      case Fault => return Failure(QS.Storage);
    }
  }

  // ----- one exchange -----

  /** In a reachable state no command meets a storage fault, and the response decodes to the answer. */
  lemma PerformAnswers(sha: Hash, db: BlobDb, job: BlobJob, now: U64)
    requires Sound(sha, db) && job.request.Valid()
    ensures var v, (db', a) := Perform(sha, db, job, now), ExecuteTx(sha, db, job.request, now);
            && a != Failure(StorageFault)
            && (if a.Success? then v.Done? && v.db == db' else v.Rejected?)
            && ParseBlobResponse(v.response) == Success(Rendered(job, a))
  {
    hide Sound, ExecuteTx, BlobResponseBytes, ParseBlobResponse;
    NoFault(sha, db, job.request, now);
    ExecutedIsEncodable(sha, db, job.request, now);
    ExecutedIsValid(sha, db, job.request, now);
    var f := Rendered(job, ExecuteTx(sha, db, job.request, now).1);
    BlobResponseExact(BlobResponseBytes(f), f);
  }

  lemma NoFault(sha: Hash, db: BlobDb, r: Buildable, now: U64)
    requires Sound(sha, db)
    ensures ExecuteTx(sha, db, r, now).1 != Failure(StorageFault)
  {
    hide Sound, Parse, ManifestBytes, Identify, FirstFlaw, Copied, Publishes, StagedKeys;
    match r {
      case Commit(u, cap, b) =>
        if LiveUpload(db, u, cap, now).Success? {
          CommitExact(sha, db, u, cap, b, now);
        }
      case GetManifest(b, cap) =>
        if AuthorizeGrant(db, b, Download, cap, now).Success? {
          G.ManifestIsServed(sha, db, b, cap, now);
        }
      case GetChunk(b, cap, i) =>
        if AuthorizeGrant(db, b, Download, cap, now).Success? {
          G.ChunkIsServed(sha, db, b, cap, i, now);
        }
      case _ =>
    }
  }

  /** Chunks that are served have the length of their manifest's chunks. */
  lemma ExecutedIsValid(sha: Hash, db: BlobDb, r: Buildable, now: U64)
    requires Sound(sha, db)
    ensures var a := ExecuteTx(sha, db, r, now).1; a.Success? ==> a.value.Valid()
  {
    hide Sound, Parse, ManifestBytes, Identify, FirstFlaw, Copied, StagedKeys, AuthorizeGrant, LiveUpload;
    ExecutedIsEncodable(sha, db, r, now);
    if r.GetChunk? && AuthorizeGrant(db, r.blobId, Download, r.downloadCap, now).Success? {
      G.ChunkIsServed(sha, db, r.blobId, r.downloadCap, r.index, now);
    }
  }

  // ----- what the entry point promises -----

  /** Every recorded response decodes and echoes the identifier of its request. */
  ghost predicate RecordsEcho(s: R.Store<BlobDb>) {
    forall k :: k in s.records ==> Echoes(s.records[k].response, k.requestId)
  }

  predicate Echoes(response: Bytes, id: RequestId) {
    ParseBlobResponse(response).Success? && ParseBlobResponse(response).value.requestId == id
  }

  lemma ErrorResponseEchoes(id: RequestId, command: Option<BlobCommand>, status: BlobStatus)
    requires status != BLOB_OK
    ensures ParseBlobResponse(ErrorResponse(id, command, status)) == Success(BlobReply(id, Declined(command, status)))
  {
    hide BlobResponseBytes, ParseBlobResponse;
    BlobResponseExact(ErrorResponse(id, command, status), BlobReply(id, Declined(command, status)));
  }

  /** The identifier a response to these bytes must echo: the one in the preamble. */
  lemma FrameIdIsPrefix(bytes: Bytes)
    ensures match ParseBlobRequest(bytes)
            case Success(d) => d.frame.requestId == QS.PrefixId(bytes)
            case Failure(e) => e.UnsupportedVersion? ==> e.requestId == QS.PrefixId(bytes)
  {
    hide ParseBlobPayload, ParseBytes;
  }

  lemma DecodeErrorEchoes(bytes: Bytes, e: DecodeError)
    requires ParseBlobRequest(bytes) == Failure(e)
    ensures Echoes(DecodeErrorResponse(bytes, e), QS.PrefixId(bytes))
  {
    hide ParseBlobRequest, ParseBlobResponse, QS.PrefixId, ErrorResponse;
    FrameIdIsPrefix(bytes);
    match e
    case UnsupportedVersion(_, id) => ErrorResponseEchoes(id, None, BLOB_UNSUPPORTED_VERSION);
    case FrameTooLarge => ErrorResponseEchoes(QS.PrefixId(bytes), None, BLOB_FRAME_TOO_LARGE);
    case UnknownBlobCommand => ErrorResponseEchoes(QS.PrefixId(bytes), None, BLOB_UNKNOWN_COMMAND);
    case _ => ErrorResponseEchoes(QS.PrefixId(bytes), None, BLOB_MALFORMED_FRAME);
  }

  /** Whatever the bytes, the response frame that goes back decodes and echoes their identifier. */
  lemma ServedEchoes(sha: Hash, verify: QS.Verifier, p: RL.Policy, windows: map<Id, seq<nat>>, s: R.Store<BlobDb>,
                     bytes: Bytes, now: U64)
    requires Sound(sha, s.db) && RecordsEcho(s)
    ensures var (_, s', r) := Served(sha, verify, p, windows, s, bytes, now);
            RecordsEcho(s') && (r.Success? ==> Echoes(r.value, QS.PrefixId(bytes)))
  {
    hide ParseBlobRequest, ParseBlobResponse, BlobResponseBytes, QS.PrefixId, Perform, RL.AdmitStep, Sound,
      ErrorResponse, DecodeErrorResponse;
    match ParseBlobRequest(bytes) {
      case Failure(e) => DecodeErrorEchoes(bytes, e);
      case Success(d) =>
        FrameIdIsPrefix(bytes);
        BlobRequestExact(bytes, d);
        ErrorResponseEchoes(d.frame.requestId, Some(d.frame.request.Command()), BLOB_AUTH_INVALID);
        ErrorResponseEchoes(d.frame.requestId, Some(d.frame.request.Command()), BLOB_AUTH_REPLAY);
        PerformAnswers(sha, s.db, CallOf(bytes).value.job, now);
    }
  }

  /** Bytes that do not decode, or whose proof does not verify, change nothing. */
  lemma UnauthenticatedIsIgnored(sha: Hash, verify: QS.Verifier, p: RL.Policy, windows: map<Id, seq<nat>>,
                                 s: R.Store<BlobDb>, bytes: Bytes, now: U64)
    requires match ParseBlobRequest(bytes)
             case Failure(_) => true
             case Success(d) => !verify(d.frame.request.Capability(), d.authenticated, d.frame.auth)
    ensures Served(sha, verify, p, windows, s, bytes, now).0 == windows
    ensures Served(sha, verify, p, windows, s, bytes, now).1 == s
  {
    hide ParseBlobRequest;
  }

  /** An answered frame, sent again byte for byte at any later time: the same response, and the store
      is not touched, unless the limiter turns it away. */
  lemma RetryIsAnsweredAlike(sha: Hash, verify: QS.Verifier, p: RL.Policy, windows: map<Id, seq<nat>>,
                             s: R.Store<BlobDb>, bytes: Bytes, now: U64, windows2: map<Id, seq<nat>>, later: U64)
    requires Served(sha, verify, p, windows, s, bytes, now).2.Success?
    ensures var (_, s1, first) := Served(sha, verify, p, windows, s, bytes, now);
            var (_, s2, second) := Served(sha, verify, p, windows2, s1, bytes, later);
            s2 == s1 && (second == first || second == Failure(QS.Overloaded))
  {
    hide ParseBlobRequest, BlobResponseBytes, RL.AdmitStep, Perform, ErrorResponse;
  }

  // ----- every run -----

  lemma EffectKeeps(sha: Hash, db: BlobDb, job: BlobJob, now: U64)
    requires Sound(sha, db)
    ensures var v := BlobEngine(sha)(db, job, now); v.Done? ==> Sound(sha, v.db) && Keeps(db, v.db)
  {
    hide ExecuteTx, Sound, Keeps, BlobResponseBytes;
    ExecuteSound(sha, db, job.request, now);
  }

  lemma {:induction false} AfterSound(sha: Hash, effects: seq<R.Effect<BlobJob>>)
    ensures Sound(sha, R.After(BlobEngine(sha), EMPTY, effects))
  {
    hide Sound, BlobEngine;
    if effects == [] {
      EmptySound(sha);
    } else {
      var n := |effects| - 1;
      AfterSound(sha, effects[..n]);
      EffectKeeps(sha, R.After(BlobEngine(sha), EMPTY, effects[..n]), effects[n].call.job, effects[n].now);
    }
  }

  /** The database after a run of the daemon's storage steps. */
  function DbAfter(sha: Hash, evs: seq<R.Event<BlobJob>>): BlobDb {
    R.Run(BlobEngine(sha), R.Initial(EMPTY), evs).store.db
  }

  /** Over every run, with any interleaving, crash and storage fault: every published object has the
      identity of its manifest and all its chunks, every grant points to such an object, an upload is
      committed exactly when it has a grant, and staged chunks are in range with their digests. */
  lemma ReachableSound(sha: Hash, evs: seq<R.Event<BlobJob>>)
    ensures Sound(sha, DbAfter(sha, evs))
  {
    hide Sound, BlobEngine, R.Run;
    R.RunExactlyOnce(BlobEngine(sha), EMPTY, evs);
    var s := R.Run(BlobEngine(sha), R.Initial(EMPTY), evs);
    AfterSound(sha, s.effects);
  }

  lemma EventKeeps(sha: Hash, evs: seq<R.Event<BlobJob>>, ev: R.Event<BlobJob>)
    ensures Keeps(DbAfter(sha, evs), DbAfter(sha, evs + [ev]))
  {
    hide Sound, Keeps, BlobEngine, R.Step;
    var s := R.Run(BlobEngine(sha), R.Initial(EMPTY), evs);
    assert (evs + [ev])[..|evs|] == evs;
    ReachableSound(sha, evs);
    R.StepShape(BlobEngine(sha), s, ev);
    KeepsItself(s.store.db);
    if ev.Start? {
      EffectKeeps(sha, s.store.db, ev.call.job, ev.now);
    }
  }

  /** Over every continuation of every run: what is published stays, unchanged. */
  lemma {:induction false} PublishedIsImmutable(sha: Hash, evs: seq<R.Event<BlobJob>>, more: seq<R.Event<BlobJob>>)
    ensures Keeps(DbAfter(sha, evs), DbAfter(sha, evs + more))
    decreases |more|
  {
    hide Keeps, DbAfter;
    if more == [] {
      assert evs + more == evs;
      KeepsItself(DbAfter(sha, evs));
    } else {
      EventKeeps(sha, evs, more[0]);
      PublishedIsImmutable(sha, evs + [more[0]], more[1..]);
      assert evs + [more[0]] + more[1..] == evs + more;
      KeepsTransitive(DbAfter(sha, evs), DbAfter(sha, evs + [more[0]]), DbAfter(sha, evs + more));
    }
  }
}
