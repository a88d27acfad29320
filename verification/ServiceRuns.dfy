/** What the daemon's two entry points answer over every sequence of arriving byte strings. */
module ServiceRuns {
  import opened Base
  import opened Cbor
  import opened QueueCodec
  import Relay
  import opened DurableQueue
  import opened QueueService
  import R = Replay
  import RL = RateLimiter
  import BC = BlobCodec
  import DB = DurableBlob
  import BI = BlobInvariant
  import BS = BlobService

  /** Bytes and the relay time at which they arrive. */
  datatype Arrival = Arrival(bytes: Bytes, now: U64)

  // ----- the queue's statuses -----

  /** What the status of a response to a frame that did not decode is. */
  function StatusOfError(e: DecodeError): Status {
    match e
    case UnsupportedVersion(_, _) => UNSUPPORTED_VERSION
    case FrameTooLarge => FRAME_TOO_LARGE
    case _ => MALFORMED_FRAME
  }

  /** The response decodes, echoes the identifier, and has one of the statuses of executed requests: none of
      those for undecoded frames, and LIMIT_OUT_OF_RANGE for a SEND only. */
  predicate Executed(response: Bytes, id: RequestId) {
    && ParseResponse(response).Success?
    && var f := ParseResponse(response).value;
       && f.requestId == id
       && match f.response {
            case Completed(_) => true
            case Refused(command, status) =>
              && command.Some?
              && status !in {UNSUPPORTED_VERSION, MALFORMED_FRAME, FRAME_TOO_LARGE, UNKNOWN_COMMAND}
              && (status == LIMIT_OUT_OF_RANGE ==> command == Some(SEND))
          }
  }

  /** What may go back for these bytes: the status of the decoding error, or that of an executed request. */
  predicate Answers(bytes: Bytes, response: Bytes) {
    match ParseRequest(bytes)
    case Failure(e) => ParseResponse(response) ==
      Success(ResponseFrame(PrefixId(bytes), Refused(None, StatusOfError(e))))
    case Success(_) => Executed(response, PrefixId(bytes))
  }

  ghost predicate RecordsExecuted(s: R.Store<QueueDb>) {
    forall k :: k in s.records ==> Executed(s.records[k].response, k.requestId)
  }

  lemma ErrorIsExecuted(id: RequestId, command: Command, status: Status)
    requires status !in {OK, UNSUPPORTED_VERSION, MALFORMED_FRAME, FRAME_TOO_LARGE, UNKNOWN_COMMAND}
    requires status == LIMIT_OUT_OF_RANGE ==> command == SEND
    ensures Executed(ErrorResponse(id, Some(command), status), id)
  {
    hide ErrorResponse, ParseResponse;
    ErrorResponseEchoes(id, Some(command), status);
  }

  /** Limits out of range reach the relay only from a SEND: the decoder refuses all others. */
  lemma LimitIsOfSend(db: QueueDb, r: Request, now: U64)
    requires r.Valid() && ExecuteTx(db, r, now).1 == Failure(Relay.LimitOutOfRange)
    ensures r.Send?
  {
    hide DiscardExpired, FirstOf, RowsOf, RowsWithId, NextRow, Value;
  }

  lemma EngineExecutes(db: QueueDb, job: Job, now: U64)
    requires job.request.Valid() && !QueueEngine(db, job, now).Broken?
    ensures Executed(QueueEngine(db, job, now).response, job.requestId)
  {
    hide ExecuteTx, QueueEngine, ParseResponse;
    EngineEchoes(db, job, now);
    if ExecuteTx(db, job.request, now).1 == Failure(Relay.LimitOutOfRange) {
      LimitIsOfSend(db, job.request, now);
    }
  }

  lemma DecodeErrorAnswers(bytes: Bytes)
    requires ParseRequest(bytes).Failure?
    ensures Answers(bytes, DecodeErrorResponse(bytes, ParseRequest(bytes).error))
  {
    hide ParseRequest, ParseResponse, PrefixId, ErrorResponse;
    FrameIdIsPrefix(bytes);
    var e := ParseRequest(bytes).error;
    ErrorResponseEchoes(PrefixId(bytes), None, StatusOfError(e));
  }

  lemma DecodedIsValid(bytes: Bytes)
    requires ParseRequest(bytes).Success?
    ensures ParseRequest(bytes).value.frame.request.Valid()
  {
    hide ParseRequest, RequestBytes, AuthenticatedBytes;
    RequestExact(bytes, ParseRequest(bytes).value);
  }

  /** One arrival: the response is an answer to its bytes, and so is every response recorded. */
  lemma ServedAnswers(verify: Verifier, p: RL.Policy, windows: map<Id, seq<nat>>, s: R.Store<QueueDb>, a: Arrival)
    requires RecordsExecuted(s)
    ensures var (_, s', r) := Served(verify, p, windows, s, a.bytes, a.now);
            RecordsExecuted(s') && (r.Success? ==> Answers(a.bytes, r.value))
  {
    hide ParseRequest, ParseResponse, ErrorResponse, DecodeErrorResponse, PrefixId, QueueEngine, RL.AdmitStep, Executed;
    if ParseRequest(a.bytes).Failure? {
      DecodeErrorAnswers(a.bytes);
    } else {
      var f := ParseRequest(a.bytes).value.frame;
      FrameIdIsPrefix(a.bytes);
      DecodedIsValid(a.bytes);
      ErrorIsExecuted(f.requestId, f.request.Command(), AUTH_INVALID);
      ErrorIsExecuted(f.requestId, f.request.Command(), AUTH_REPLAY);
      if f.request.Send? {
        ErrorIsExecuted(f.requestId, SEND, LIMIT_OUT_OF_RANGE);
      }
      if !QueueEngine(s.db, Job(f.requestId, f.request), a.now).Broken? {
        EngineExecutes(s.db, Job(f.requestId, f.request), a.now);
      }
    }
  }

  /** Limiter windows, store and responses after a sequence of arrivals, from an empty relay. */
  function ServedRun(verify: Verifier, p: RL.Policy, arrivals: seq<Arrival>)
    : (r: (map<Id, seq<nat>>, R.Store<QueueDb>, seq<Result<Bytes, ExchangeError>>))
    ensures |r.2| == |arrivals|
  {
    if arrivals == [] then (map[], R.Store(DurableQueue.EMPTY, map[]), [])
    else
      var n := |arrivals| - 1;
      var (windows, s, responses) := ServedRun(verify, p, arrivals[..n]);
      var (windows', s', response) := Served(verify, p, windows, s, arrivals[n].bytes, arrivals[n].now);
      (windows', s', responses + [response])
  }

  /** Over every sequence of byte strings, from an empty relay: each response decodes and echoes the
      identifier of its bytes; a frame that does not decode gets MALFORMED_FRAME exactly when its error is
      neither an unsupported version nor its size, and no other frame does; UNKNOWN_COMMAND is never
      answered, and LIMIT_OUT_OF_RANGE to a SEND only. */
  lemma {:induction false} RunAnswers(verify: Verifier, p: RL.Policy, arrivals: seq<Arrival>)
    ensures RecordsExecuted(ServedRun(verify, p, arrivals).1)
    ensures forall i :: 0 <= i < |arrivals| && ServedRun(verify, p, arrivals).2[i].Success? ==>
              Answers(arrivals[i].bytes, ServedRun(verify, p, arrivals).2[i].value)
  {
    hide Served, Answers, RecordsExecuted;
    if arrivals == [] {
      NoRecords();
    } else {
      var n := |arrivals| - 1;
      RunAnswers(verify, p, arrivals[..n]);
      var (windows, s, _) := ServedRun(verify, p, arrivals[..n]);
      ServedAnswers(verify, p, windows, s, arrivals[n]);
    }
  }

  lemma NoRecords()
    ensures RecordsExecuted(R.Store(DurableQueue.EMPTY, map[]))
  {
  }

  /** The specification asks for UNKNOWN_COMMAND: every frame with an unassigned command is answered
      MALFORMED_FRAME instead. */
  lemma UnknownCommandIsMalformed(verify: Verifier, p: RL.Policy, windows: map<Id, seq<nat>>, s: R.Store<QueueDb>,
                                  now: U64, id: RequestId, n: U64, rest: Bytes)
    requires n == 0 || n > 5
    requires var bytes := PutPreamble(id, PutArray(3, PutUnsigned(0, PutUnsigned(n, rest)))); |bytes| <= MAX_FRAME_BYTES
    ensures var bytes := PutPreamble(id, PutArray(3, PutUnsigned(0, PutUnsigned(n, rest))));
            var r := Served(verify, p, windows, s, bytes, now).2;
            r.Success? && ParseResponse(r.value) ==
              Success(ResponseFrame(PrefixId(bytes), Refused(None, MALFORMED_FRAME)))
  {
    hide PutPreamble, ParsePreamble, PutArray, PutUnsigned, ParseUnsigned, ParseArrayLength, ParseRequestBody,
      ParseResponse, PrefixId;
    var t := PutArray(3, PutUnsigned(0, PutUnsigned(n, rest)));
    var bytes := PutPreamble(id, t);
    PreambleLength(id, t);
    ParseOfPutPreamble(id, t, MAX_FRAME_BYTES);
    ItemsRoundTrip();
    DecodeErrorAnswers(bytes);
  }

  /** The specification asks for LIMIT_OUT_OF_RANGE: every CREATE_QUEUE with a limit out of range is
      answered MALFORMED_FRAME instead. */
  lemma BadLimitsAreMalformed(verify: Verifier, p: RL.Policy, windows: map<Id, seq<nat>>, s: R.Store<QueueDb>, now: U64,
                              id: RequestId, q: Id, sender: Id, recipient: Id, m: U64, n: U64, rest: Bytes)
    requires m == 0 || n == 0 || n > MAX_MESSAGE_BYTES
    requires |CreateFrame(id, q, sender, recipient, m, n, rest)| <= MAX_FRAME_BYTES
    ensures var bytes := CreateFrame(id, q, sender, recipient, m, n, rest);
            var r := Served(verify, p, windows, s, bytes, now).2;
            r.Success? && ParseResponse(r.value) ==
              Success(ResponseFrame(PrefixId(bytes), Refused(None, MALFORMED_FRAME)))
  {
    var bytes := CreateFrame(id, q, sender, recipient, m, n, rest);
    BadLimitsDoNotDecode(id, q, sender, recipient, m, n, rest);
    hide CreateFrame, ParseRequest, ParseResponse, PrefixId;
    DecodeErrorAnswers(bytes);
  }

  /** A CREATE_QUEUE frame with any limits, before its proof. */
  function CreateFrame(id: RequestId, q: Id, sender: Id, recipient: Id, m: U64, n: U64, rest: Bytes): Bytes {
    var body := CreateBody(q, sender, recipient, m, n, rest);
    PutPreamble(id, PutArray(3, PutUnsigned(0, PutUnsigned(CREATE_QUEUE, body))))
  }

  function CreateBody(q: Id, sender: Id, recipient: Id, m: U64, n: U64, rest: Bytes): Bytes {
    PutArray(5, PutBytes(q, PutBytes(sender, PutBytes(recipient, PutUnsigned(m, PutUnsigned(n, rest))))))
  }

  lemma BadLimitsDoNotDecode(id: RequestId, q: Id, sender: Id, recipient: Id, m: U64, n: U64, rest: Bytes)
    requires m == 0 || n == 0 || n > MAX_MESSAGE_BYTES
    requires |CreateFrame(id, q, sender, recipient, m, n, rest)| <= MAX_FRAME_BYTES
    ensures ParseRequest(CreateFrame(id, q, sender, recipient, m, n, rest)) == Failure(InvalidProtocolValue)
  {
    hide PutPreamble, ParsePreamble, PutArray, PutUnsigned, ParseUnsigned, ParseArrayLength, CreateBody,
      ParseRequestBody;
    var body := CreateBody(q, sender, recipient, m, n, rest);
    var t := PutArray(3, PutUnsigned(0, PutUnsigned(CREATE_QUEUE, body)));
    PreambleLength(id, t);
    ParseOfPutPreamble(id, t, MAX_FRAME_BYTES);
    ItemsRoundTrip();
    BadLimitsBody(q, sender, recipient, m, n, rest);
  }

  lemma BadLimitsBody(q: Id, sender: Id, recipient: Id, m: U64, n: U64, rest: Bytes)
    requires m == 0 || n == 0 || n > MAX_MESSAGE_BYTES
    ensures ParseRequestBody(CreateBody(q, sender, recipient, m, n, rest), CREATE_QUEUE) == Fail(InvalidProtocolValue)
  {
    hide PutArgument, ParseArgument, PutUnsigned, PutArray, PutBytes, ParseUnsigned, ParseArrayLength, ParseBytes,
      ParseId;
    ItemsRoundTrip();
  }

  /** The status of bytes that do not decode, read off the bytes: their length, then their first byte; and
      the identifier in the response: bytes 1 to 16, or zeros. */
  lemma DecodeStatusExactly(bytes: Bytes)
    requires ParseRequest(bytes).Failure?
    ensures StatusOfError(ParseRequest(bytes).error) ==
              if |bytes| > 65_536 then FRAME_TOO_LARGE
              else if |bytes| >= 17 && bytes[0] > 1 then UNSUPPORTED_VERSION
              else MALFORMED_FRAME
    ensures forall i :: 0 <= i < 16 ==> PrefixId(bytes)[i] == if |bytes| >= 17 then bytes[i + 1] else 0
  {
    hide ParseRequestPayload, ParseBytes;
  }

  // ----- the blob entry point -----

  function BlobRun(sha: DB.Hash, verify: Verifier, p: RL.Policy, arrivals: seq<Arrival>)
    : (r: (map<Id, seq<nat>>, R.Store<DB.BlobDb>, seq<Result<Bytes, ExchangeError>>))
    ensures |r.2| == |arrivals|
  {
    if arrivals == [] then (map[], R.Store(DB.EMPTY, map[]), [])
    else
      var n := |arrivals| - 1;
      var (windows, s, responses) := BlobRun(sha, verify, p, arrivals[..n]);
      var (windows', s', response) := BS.Served(sha, verify, p, windows, s, arrivals[n].bytes, arrivals[n].now);
      (windows', s', responses + [response])
  }

  /** One arrival keeps the tables sound. */
  lemma BlobServedSound(sha: DB.Hash, verify: Verifier, p: RL.Policy, windows: map<Id, seq<nat>>,
                        s: R.Store<DB.BlobDb>, a: Arrival)
    requires BI.Sound(sha, s.db)
    ensures BI.Sound(sha, BS.Served(sha, verify, p, windows, s, a.bytes, a.now).1.db)
  {
    hide BI.Sound, BC.ParseBlobRequest, BS.ErrorResponse, RL.AdmitStep, BS.BlobEngine;
    if BC.ParseBlobRequest(a.bytes).Success? {
      BS.EffectKeeps(sha, s.db, BS.CallOf(a.bytes).value.job, a.now);
    }
  }

  /** Over every sequence of byte strings, from an empty relay: the tables are sound, and each response
      decodes and echoes the identifier of its bytes. */
  lemma {:induction false} BlobRunEchoes(sha: DB.Hash, verify: Verifier, p: RL.Policy, arrivals: seq<Arrival>)
    ensures var (_, s, responses) := BlobRun(sha, verify, p, arrivals);
            && BI.Sound(sha, s.db) && BS.RecordsEcho(s)
            && forall i :: 0 <= i < |arrivals| && responses[i].Success? ==>
                 BS.Echoes(responses[i].value, PrefixId(arrivals[i].bytes))
  {
    hide BS.Served, BS.Echoes, BS.RecordsEcho, BI.Sound, PrefixId;
    if arrivals == [] {
      BI.EmptySound(sha);
      NoBlobRecords();
    } else {
      var n := |arrivals| - 1;
      BlobRunEchoes(sha, verify, p, arrivals[..n]);
      var (windows, s, _) := BlobRun(sha, verify, p, arrivals[..n]);
      BS.ServedEchoes(sha, verify, p, windows, s, arrivals[n].bytes, arrivals[n].now);
      BlobServedSound(sha, verify, p, windows, s, arrivals[n]);
    }
  }

  lemma NoBlobRecords()
    ensures BS.RecordsEcho(R.Store(DB.EMPTY, map[]))
  {
  }
}
