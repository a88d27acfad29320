/** The daemon's queue entry point: decode, authenticate, limit, validate, replay, execute. */
module QueueService {
  import opened Base
  import opened Cbor
  import opened QueueCodec
  import opened Relay
  import opened DurableQueue
  import opened Replay
  import RL = RateLimiter

  /** A decoded request with the identifier its response must echo. */
  datatype Job = Job(requestId: RequestId, request: Request)

  /** The principal whose key must have signed the request. */
  function Principal(r: Request): Id {
    match r
    case CreateQueue(_, s, _, _, _) => s
    case Send(_, s, _, _, _) => s
    case Fetch(_, d) => d
    case Ack(_, d, _) => d
    case DeleteQueue(_, d) => d
  }

  function StatusOf(e: RelayError): (s: Status)
    requires !e.StorageFault?
    ensures s != OK
  {
    match e
    case QueueNotFound => QUEUE_NOT_FOUND
    case Unauthorized => UNAUTHORIZED
    case QueueIdConflict => QUEUE_ID_CONFLICT
    case MessageIdConflict => MESSAGE_ID_CONFLICT
    case MessageTooLarge => MESSAGE_TOO_LARGE
    case QueueFull => QUEUE_FULL
    case ExpiryOverflow => EXPIRY_OVERFLOW
    case LimitOutOfRange => LIMIT_OUT_OF_RANGE
    case AckMismatch => ACK_MISMATCH
    case NotDelivered => NOT_DELIVERED
  }

  /** The status tells which error it was. */
  lemma StatusTellsError(e: RelayError, f: RelayError)
    requires !e.StorageFault? && !f.StorageFault?
    ensures StatusOf(e) == StatusOf(f) <==> e == f
  {
  }

  function ErrorResponse(id: RequestId, command: Option<Command>, status: Status): Bytes
    requires status != OK
  {
    ResponseBytes(ResponseFrame(id, Refused(command, status)))
  }

  /** The response an executed request is answered with. */
  function Rendered(job: Job, answer: Answer): Response
    requires answer != Failure(StorageFault)
  {
    match answer
    case Success(body) => Completed(body)
    case Failure(e) => Refused(Some(job.request.Command()), StatusOf(e))
  }

  lemma ExecutedBodyIsValid(db: QueueDb, r: Request, now: U64)
    ensures ExecuteTx(db, r, now).1.Success? ==> ExecuteTx(db, r, now).1.value.Valid()
  {
    hide ApplyTx;
  }

  /** Runs a decoded request in a transaction and renders its response. */
  function QueueEngine(db: QueueDb, job: Job, now: U64): Verdict<QueueDb> {
    var (after, answer) := ExecuteTx(db, job.request, now);
    if answer == Failure(StorageFault) then Broken
    else
      ExecutedBodyIsValid(db, job.request, now);
      var response := ResponseBytes(ResponseFrame(job.requestId, Rendered(job, answer)));
      if answer.Success? then Done(after, response) else Rejected(response)
  }

  /** The call a frame makes, if it decodes. */
  function CallOf(bytes: Bytes): Option<Call<Job>> {
    match ParseRequest(bytes)
    case Failure(_) => None
    case Success(d) =>
      var f := d.frame;
      Some(Call(Key(Principal(f.request), f.requestId), bytes, Job(f.requestId, f.request)))
  }

  // ----- the entry point -----

  datatype ExchangeError = Overloaded | Storage

  /** The proof check: principal, authenticated bytes, auth. */
  type Verifier = (Id, Bytes, Bytes) -> bool

  function PrefixId(bytes: Bytes): RequestId {
    if |bytes| >= 17 then bytes[1..17] else seq(16, _ => 0)
  }

  function DecodeErrorResponse(bytes: Bytes, e: DecodeError): Bytes {
    match e
    case UnsupportedVersion(_, id) => ErrorResponse(id, None, UNSUPPORTED_VERSION)
    case FrameTooLarge => ErrorResponse(PrefixId(bytes), None, FRAME_TOO_LARGE)
    case _ => ErrorResponse(PrefixId(bytes), None, MALFORMED_FRAME)
  }

  /** Requests whose numbers have no relay value are refused without a record. */
  function Validate(r: Request): Option<Status> {
    if r.Send? && r.ttl == 0 then Some(LIMIT_OUT_OF_RANGE) else None
  }

  /** One frame at one relay time: new limiter windows, new store, and the response frame. */
  function Served(verify: Verifier, p: RL.Policy, windows: map<Id, seq<nat>>, s: Store<QueueDb>, bytes: Bytes, now: U64)
    : (map<Id, seq<nat>>, Store<QueueDb>, Result<Bytes, ExchangeError>)
  {
    match ParseRequest(bytes)
    case Failure(e) => (windows, s, Success(DecodeErrorResponse(bytes, e)))
    case Success(d) =>
      var f := d.frame;
      var principal, command := Principal(f.request), f.request.Command();
      if !verify(principal, d.authenticated, f.auth) then
        (windows, s, Success(ErrorResponse(f.requestId, Some(command), AUTH_INVALID)))
      else
        var (after, admitted) := RL.AdmitStep(p, windows, principal, now);
        if !admitted then (after, s, Failure(Overloaded))
        else if Validate(f.request).Some? then
          (after, s, Success(ErrorResponse(f.requestId, Some(command), LIMIT_OUT_OF_RANGE)))
        else
          var (store, outcome) := LookupFirst(QueueEngine, s, CallOf(bytes).value, now);
          (after, store,
           match outcome
           case Respond(response) => Success(response)
           case Conflict => Success(ErrorResponse(f.requestId, Some(command), AUTH_REPLAY))
           case Fault => Failure(Storage))
  }

  class RelayService {
    const limiter: RL.RateLimiter<Id>
    const connection: Connection<QueueDb, Job>

    constructor (limiter: RL.RateLimiter<Id>, connection: Connection<QueueDb, Job>)
      ensures this.limiter == limiter && this.connection == connection
    {
      this.limiter := limiter;
      this.connection := connection;
    }

    method ExchangeAt(verify: Verifier, bytes: Bytes, now: U64) returns (r: Result<Bytes, ExchangeError>)
      modifies limiter, connection
      ensures (limiter.windows, connection.store, r)
              == Served(verify, limiter.policy, old(limiter.windows), old(connection.store), bytes, now)
    {
      var decoded := DecodeRequest(bytes);
      if decoded.Failure? {
        return Success(DecodeErrorResponse(bytes, decoded.error));
      }
      var frame := decoded.value.frame;
      var principal, command := Principal(frame.request), frame.request.Command();
      if !verify(principal, decoded.value.authenticated, frame.auth) {
        return Success(ErrorResponse(frame.requestId, Some(command), AUTH_INVALID));
      }
      var admitted := limiter.Admit(principal, now);
      if !admitted {
        return Failure(Overloaded);
      }
      if Validate(frame.request).Some? {
        return Success(ErrorResponse(frame.requestId, Some(command), LIMIT_OUT_OF_RANGE));
      }
      var call := Call(Key(principal, frame.requestId), bytes, Job(frame.requestId, frame.request));
      if call.key in connection.store.records {
        var stored := connection.store.records[call.key];
        if stored.request == bytes {
          return Success(stored.response);
        }
        return Success(ErrorResponse(frame.requestId, Some(command), AUTH_REPLAY));
      }
      var outcome := connection.Exchange(QueueEngine, call, now, connection.store, {});
      match outcome
      case Respond(response) => return Success(response);
      case Conflict => return Success(ErrorResponse(frame.requestId, Some(command), AUTH_REPLAY));
      case Fault => return Failure(Storage);
    }
  }

  // ----- what the entry point promises -----

  /** Every recorded response decodes and echoes the identifier of its request. */
  ghost predicate RecordsEcho(s: Store<QueueDb>) {
    forall k :: k in s.records ==>
      var f := ParseResponse(s.records[k].response); f.Success? && f.value.requestId == k.requestId
  }

  lemma ErrorResponseEchoes(id: RequestId, command: Option<Command>, status: Status)
    requires status != OK
    ensures ParseResponse(ErrorResponse(id, command, status)) == Success(ResponseFrame(id, Refused(command, status)))
  {
    ResponseExact(ErrorResponse(id, command, status), ResponseFrame(id, Refused(command, status)));
  }

  /** A rendered response decodes to the answer that was rendered, under the request's identifier. */
  lemma EngineEchoes(db: QueueDb, job: Job, now: U64)
    ensures var v, a := QueueEngine(db, job, now), ExecuteTx(db, job.request, now).1;
            && (v.Broken? <==> a == Failure(StorageFault))
            && (v.Done? <==> a.Success?)
            && (!v.Broken? ==> ParseResponse(v.response) == Success(ResponseFrame(job.requestId, Rendered(job, a))))
  {
    hide ExecuteTx, ResponseBytes, ParseResponse;
    var a := ExecuteTx(db, job.request, now).1;
    if a != Failure(StorageFault) {
      ExecutedBodyIsValid(db, job.request, now);
      var f := ResponseFrame(job.requestId, Rendered(job, a));
      ResponseExact(ResponseBytes(f), f);
    }
  }

  /** The identifier a response to these bytes must echo: the one in the preamble. */
  lemma FrameIdIsPrefix(bytes: Bytes)
    ensures ParseRequest(bytes).Success? ==> ParseRequest(bytes).value.frame.requestId == PrefixId(bytes)
    ensures ParseRequest(bytes).Failure? && ParseRequest(bytes).error.UnsupportedVersion? ==>
              ParseRequest(bytes).error.requestId == PrefixId(bytes)
  {
    hide ParseRequestPayload, ParseBytes;
  }

  /** Whatever the bytes, the response frame that goes back decodes and echoes their identifier. */
  lemma ServedEchoes(verify: Verifier, p: RL.Policy, windows: map<Id, seq<nat>>, s: Store<QueueDb>, bytes: Bytes,
                     now: U64)
    requires RecordsEcho(s)
    ensures var (_, s', r) := Served(verify, p, windows, s, bytes, now);
            && RecordsEcho(s')
            && (r.Success? ==>
                  ParseResponse(r.value).Success?
                  && ParseResponse(r.value).value.requestId == PrefixId(bytes))
  {
    hide ParseRequest, ParseResponse, ResponseBytes, PrefixId, QueueEngine, RL.AdmitStep;
    FrameIdIsPrefix(bytes);
    forall id: RequestId, c, status: Status | status != OK
      ensures ParseResponse(ErrorResponse(id, c, status)) == Success(ResponseFrame(id, Refused(c, status)))
    {
      ErrorResponseEchoes(id, c, status);
    }
    if ParseRequest(bytes).Success? {
      var call := CallOf(bytes).value;
      EngineEchoes(s.db, call.job, now);
    }
  }

  /** Bytes that do not decode, or whose proof does not verify, change nothing. */
  lemma UnauthenticatedIsIgnored(verify: Verifier, p: RL.Policy, windows: map<Id, seq<nat>>, s: Store<QueueDb>,
                                 bytes: Bytes, now: U64)
    requires match ParseRequest(bytes)
             case Failure(_) => true
             case Success(d) => !verify(Principal(d.frame.request), d.authenticated, d.frame.auth)
    ensures Served(verify, p, windows, s, bytes, now).0 == windows
    ensures Served(verify, p, windows, s, bytes, now).1 == s
  {
  }

  /** An answered frame, sent again byte for byte at any later time: the same response, and the store
      is not touched, unless the limiter turns it away. */
  lemma RetryIsAnsweredAlike(verify: Verifier, p: RL.Policy, windows: map<Id, seq<nat>>, s: Store<QueueDb>,
                             bytes: Bytes, now: U64, windows2: map<Id, seq<nat>>, later: U64)
    requires Served(verify, p, windows, s, bytes, now).2.Success?
    ensures var (_, s1, first) := Served(verify, p, windows, s, bytes, now);
            var (_, s2, second) := Served(verify, p, windows2, s1, bytes, later);
            s2 == s1 && (second == first || second == Failure(Overloaded))
  {
    hide ParseRequest, ResponseBytes, RL.AdmitStep, QueueEngine;
  }
}
