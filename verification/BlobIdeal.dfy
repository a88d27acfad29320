/** The blob daemon against an ideal one, which keeps the whole list of admissions, the commands executed
    so far, one after the other, and for each key the bytes and the response first given. */
module BlobIdeal {
  import opened Base
  import opened Cbor
  import opened BlobCodec
  import opened DurableBlob
  import opened BlobInvariant
  import opened BlobService
  import opened ServiceRuns
  import R = Replay
  import RL = RateLimiter
  import QI = QueueIdeal
  import QS = QueueService

  datatype Command = Command(request: Buildable, now: U64)

  datatype Given = Given(request: Bytes, response: BlobResponse)

  datatype Ideal = Ideal(log: seq<RL.Admission<Id>>, commands: seq<Command>, given: map<R.Key, Given>)

  datatype IdealReply = Replied(frame: BlobReply) | TurnedAway

  const START := Ideal([], [], map[])

  /** The tables after these commands, from empty. */
  function Tables(sha: Hash, commands: seq<Command>): BlobDb {
    if commands == [] then EMPTY
    else
      var n := |commands| - 1;
      ExecuteTx(sha, Tables(sha, commands[..n]), commands[n].request, commands[n].now).0
  }

  lemma {:induction false} TablesSound(sha: Hash, commands: seq<Command>)
    ensures Sound(sha, Tables(sha, commands))
  {
    hide Sound, ExecuteTx;
    if commands == [] {
      EmptySound(sha);
    } else {
      var n := |commands| - 1;
      TablesSound(sha, commands[..n]);
      ExecuteSound(sha, Tables(sha, commands[..n]), commands[n].request, commands[n].now);
    }
  }

  /** What the tables answer after the commands so far: never a storage fault. */
  function AnswerTo(sha: Hash, commands: seq<Command>, r: Buildable, now: U64): (a: BlobAnswer)
    ensures a != Failure(StorageFault)
  {
    TablesSound(sha, commands);
    NoFault(sha, Tables(sha, commands), r, now);
    ExecuteTx(sha, Tables(sha, commands), r, now).1
  }

  /** How an answer is told. */
  function Telling(r: Buildable, a: BlobAnswer): BlobResponse
    requires a != Failure(StorageFault)
  {
    match a
    case Success(body) => BlobResponse(Some(r.Command()), BLOB_OK, Some(body))
    case Failure(e) => BlobResponse(Some(r.Command()), StatusOf(e), None)
  }

  /** An admitted frame. */
  ghost function Handled(sha: Hash, w: Ideal, f: BlobFrame, bytes: Bytes, now: U64): (Ideal, BlobResponse)
    requires f.request.Encodable()
  {
    var r, key := f.request, R.Key(f.request.Capability(), f.requestId);
    if key in w.given then
      (w, if w.given[key].request == bytes then w.given[key].response
          else Declined(Some(r.Command()), BLOB_AUTH_REPLAY))
    else
      var response := Telling(r, AnswerTo(sha, w.commands, r, now));
      (Ideal(w.log, w.commands + [Command(r, now)], w.given[key := Given(bytes, response)]), response)
  }

  /** The status for bytes that do not decode. */
  function StatusOfError(e: DecodeError): BlobStatus {
    match e
    case UnsupportedVersion(_, _) => BLOB_UNSUPPORTED_VERSION
    case FrameTooLarge => BLOB_FRAME_TOO_LARGE
    case UnknownBlobCommand => BLOB_UNKNOWN_COMMAND
    case _ => BLOB_MALFORMED_FRAME
  }

  ghost function Ideally(sha: Hash, verify: QS.Verifier, p: RL.Policy, w: Ideal, a: Arrival): (Ideal, IdealReply) {
    match ParseBlobRequest(a.bytes)
    case Failure(e) => (w, Replied(BlobReply(QS.PrefixId(a.bytes), Declined(None, StatusOfError(e)))))
    case Success(d) =>
      BlobRequestExact(a.bytes, d);
      var f, cap := d.frame, d.frame.request.Capability();
      if !verify(cap, d.authenticated, f.auth) then
        (w, Replied(BlobReply(f.requestId, Declined(Some(f.request.Command()), BLOB_AUTH_INVALID))))
      else if !RL.LogAdmits(p, w.log, cap, a.now) then (w, TurnedAway)
      else
        var (w', response) := Handled(sha, w.(log := w.log + [RL.Admission(cap, a.now)]), f, a.bytes, a.now);
        (w', Replied(BlobReply(f.requestId, response)))
  }

  ghost function IdealRun(sha: Hash, verify: QS.Verifier, p: RL.Policy, arrivals: seq<Arrival>)
    : (r: (Ideal, seq<IdealReply>))
    ensures |r.1| == |arrivals|
  {
    if arrivals == [] then (START, [])
    else
      var n := |arrivals| - 1;
      var (w, replies) := IdealRun(sha, verify, p, arrivals[..n]);
      var (w', reply) := Ideally(sha, verify, p, w, arrivals[n]);
      (w', replies + [reply])
  }

  ghost predicate Is(r: Result<Bytes, QS.ExchangeError>, reply: IdealReply) {
    match reply
    case TurnedAway => r == Failure(QS.Overloaded)
    case Replied(f) => r.Success? && ParseBlobResponse(r.value) == Success(f)
  }

  // ----- one arrival -----

  ghost predicate RecordsFollow(records: map<R.Key, R.Record>, given: map<R.Key, Given>) {
    && records.Keys == given.Keys
    && forall k :: k in given ==>
         && records[k].request == given[k].request
         && ParseBlobResponse(records[k].response) == Success(BlobReply(k.requestId, given[k].response))
  }

  ghost predicate Follows(sha: Hash, p: RL.Policy, windows: map<Id, seq<nat>>, s: R.Store<BlobDb>, w: Ideal, t: U64) {
    RL.Agrees(p, windows, w.log, t) && s.db == Tables(sha, w.commands) && RecordsFollow(s.records, w.given)
  }

  /** One more command: the engine's response says what the tables answer. */
  lemma EngineFollows(sha: Hash, commands: seq<Command>, job: BlobJob, now: U64)
    requires job.request.Valid()
    ensures var db := Tables(sha, commands);
            var v, a := BlobEngine(sha)(db, job, now), AnswerTo(sha, commands, job.request, now);
            && !v.Broken?
            && ParseBlobResponse(v.response) == Success(BlobReply(job.requestId, Telling(job.request, a)))
            && (if v.Done? then v.db else db) == Tables(sha, commands + [Command(job.request, now)])
  {
    hide Sound, ExecuteTx, ParseBlobResponse, Perform, Keeps;
    var db := Tables(sha, commands);
    TablesSound(sha, commands);
    PerformAnswers(sha, db, job, now);
    ExecuteSound(sha, db, job.request, now);
    assert (commands + [Command(job.request, now)])[..|commands|] == commands;
  }

  lemma LookedUp(sha: Hash, s: R.Store<BlobDb>, w: Ideal, f: BlobFrame, bytes: Bytes, now: U64)
    requires s.db == Tables(sha, w.commands) && RecordsFollow(s.records, w.given) && f.request.Valid()
    ensures var call := R.Call(R.Key(f.request.Capability(), f.requestId), bytes, BlobJob(f.requestId, f.request));
            var (s', outcome) := R.LookupFirst(BlobEngine(sha), s, call, now);
            var (w', response) := Handled(sha, w, f, bytes, now);
            && w'.log == w.log && s'.db == Tables(sha, w'.commands) && RecordsFollow(s'.records, w'.given)
            && match outcome
               case Respond(b) => ParseBlobResponse(b) == Success(BlobReply(f.requestId, response))
               case Conflict => response == Declined(Some(f.request.Command()), BLOB_AUTH_REPLAY)
               case Fault => false
  {
    hide Perform, BlobEngine, ParseBlobResponse, Tables, AnswerTo, Telling;
    var key := R.Key(f.request.Capability(), f.requestId);
    if key !in w.given {
      EngineFollows(sha, w.commands, BlobJob(f.requestId, f.request), now);
    }
  }

  lemma DecodeErrorAnswers(bytes: Bytes, e: DecodeError)
    requires ParseBlobRequest(bytes) == Failure(e)
    ensures ParseBlobResponse(DecodeErrorResponse(bytes, e))
            == Success(BlobReply(QS.PrefixId(bytes), Declined(None, StatusOfError(e))))
  {
    hide ParseBlobRequest, ParseBlobResponse, QS.PrefixId, ErrorResponse;
    FrameIdIsPrefix(bytes);
    ErrorResponseEchoes(QS.PrefixId(bytes), None, StatusOfError(e));
  }

  /** The status of bytes that do not decode, read off the bytes: their length, their first byte, and the
      command number of a well-formed head. */
  lemma DecodeStatusExactly(bytes: Bytes)
    requires ParseBlobRequest(bytes).Failure?
    ensures StatusOfError(ParseBlobRequest(bytes).error) ==
              if |bytes| > MAX_BLOB_FRAME_BYTES then BLOB_FRAME_TOO_LARGE
              else if |bytes| >= 17 && bytes[0] > 1 then BLOB_UNSUPPORTED_VERSION
              else if |bytes| >= 17 && bytes[0] == 1 && exists n: U64, rest: Bytes :: Unassigned(bytes[17..], n, rest)
              then BLOB_UNKNOWN_COMMAND
              else BLOB_MALFORMED_FRAME
  {
    hide ParseBlobPayload, ParseBytes, Unassigned;
    if 17 <= |bytes| <= MAX_BLOB_FRAME_BYTES && bytes[0] == 1 {
      UnknownCommandExactly(bytes[17..]);
    }
  }

  lemma ServedFollows(sha: Hash, verify: QS.Verifier, p: RL.Policy, windows: map<Id, seq<nat>>, s: R.Store<BlobDb>,
                      w: Ideal, t: U64, a: Arrival)
    requires Follows(sha, p, windows, s, w, t) && t <= a.now
    ensures var (windows', s', r) := Served(sha, verify, p, windows, s, a.bytes, a.now);
            var (w', reply) := Ideally(sha, verify, p, w, a);
            Follows(sha, p, windows', s', w', a.now) && Is(r, reply)
  {
    hide ParseBlobRequest, ParseBlobResponse, RL.Agrees, RL.LogAdmits, RL.AdmitStep, RecordsFollow, BlobEngine,
      ErrorResponse, DecodeErrorResponse, QS.PrefixId, R.LookupFirst, Tables, Handled;
    QI.LaterAgrees(p, windows, w.log, t, a.now);
    match ParseBlobRequest(a.bytes) {
      case Failure(e) => DecodeErrorAnswers(a.bytes, e);
      case Success(d) =>
        var f, cap := d.frame, d.frame.request.Capability();
        BlobRequestExact(a.bytes, d);
        ErrorResponseEchoes(f.requestId, Some(f.request.Command()), BLOB_AUTH_INVALID);
        ErrorResponseEchoes(f.requestId, Some(f.request.Command()), BLOB_AUTH_REPLAY);
        RL.AdmitAgrees(p, windows, w.log, t, cap, a.now);
        LookedUp(sha, s, w.(log := w.log + [RL.Admission(cap, a.now)]), f, a.bytes, a.now);
    }
  }

  // ----- every sequence of arrivals -----

  lemma StartFollows(sha: Hash, p: RL.Policy)
    ensures Follows(sha, p, map[], R.Store(EMPTY, map[]), START, 0)
  {
  }

  /** Over every sequence of arriving byte strings under a clock that does not go back, the daemon replies
      as the ideal one does. */
  lemma {:induction false} RunFollows(sha: Hash, verify: QS.Verifier, p: RL.Policy, arrivals: seq<Arrival>)
    requires QI.InOrder(arrivals)
    ensures var (windows, s, responses) := BlobRun(sha, verify, p, arrivals);
            var (w, replies) := IdealRun(sha, verify, p, arrivals);
            && Follows(sha, p, windows, s, w, if arrivals == [] then 0 else arrivals[|arrivals| - 1].now)
            && forall i :: 0 <= i < |arrivals| ==> Is(responses[i], replies[i])
  {
    hide Served, Ideally, Follows, Is;
    if arrivals == [] {
      StartFollows(sha, p);
    } else {
      var n := |arrivals| - 1;
      RunFollows(sha, verify, p, arrivals[..n]);
      var (windows, s, _) := BlobRun(sha, verify, p, arrivals[..n]);
      ServedFollows(sha, verify, p, windows, s, IdealRun(sha, verify, p, arrivals[..n]).0,
                    if n == 0 then 0 else arrivals[n - 1].now, arrivals[n]);
    }
  }

  // ----- who is turned away -----

  /** The capability whose proof the bytes carry, if they decode and it verifies. */
  function AuthenticBy(verify: QS.Verifier, bytes: Bytes): Option<Id> {
    match ParseBlobRequest(bytes)
    case Failure(_) => None
    case Success(d) =>
      var cap := d.frame.request.Capability();
      if verify(cap, d.authenticated, d.frame.auth) then Some(cap) else None
  }

  /** The authentic arrivals that were not turned away, in order. */
  function AdmittedLog(verify: QS.Verifier, arrivals: seq<Arrival>, responses: seq<Result<Bytes, QS.ExchangeError>>)
    : seq<RL.Admission<Id>>
    requires |responses| == |arrivals|
  {
    if arrivals == [] then []
    else
      var n := |arrivals| - 1;
      var before := AdmittedLog(verify, arrivals[..n], responses[..n]);
      match AuthenticBy(verify, arrivals[n].bytes)
      case Some(cap) =>
        if responses[n] == Failure(QS.Overloaded) then before else before + [RL.Admission(cap, arrivals[n].now)]
      case None => before
  }

  lemma IdealLog(sha: Hash, verify: QS.Verifier, p: RL.Policy, w: Ideal, a: Arrival)
    ensures var (w', reply) := Ideally(sha, verify, p, w, a);
            && (reply.TurnedAway? <==> AuthenticBy(verify, a.bytes).Some?
                                       && !RL.LogAdmits(p, w.log, AuthenticBy(verify, a.bytes).value, a.now))
            && w'.log == match AuthenticBy(verify, a.bytes)
                         case Some(cap) =>
                           if reply.TurnedAway? then w.log else w.log + [RL.Admission(cap, a.now)]
                         case None => w.log
  {
    hide ParseBlobRequest, RL.LogAdmits, QS.PrefixId, Telling, AnswerTo;
  }

  lemma {:induction false} LogIsAdmitted(sha: Hash, verify: QS.Verifier, p: RL.Policy, arrivals: seq<Arrival>)
    requires QI.InOrder(arrivals)
    ensures IdealRun(sha, verify, p, arrivals).0.log
            == AdmittedLog(verify, arrivals, BlobRun(sha, verify, p, arrivals).2)
  {
    hide ParseBlobRequest, ParseBlobResponse, Served, Ideally, AuthenticBy;
    if arrivals != [] {
      var n := |arrivals| - 1;
      LogIsAdmitted(sha, verify, p, arrivals[..n]);
      RunFollows(sha, verify, p, arrivals);
      assert BlobRun(sha, verify, p, arrivals).2[..n] == BlobRun(sha, verify, p, arrivals[..n]).2;
      IdealLog(sha, verify, p, IdealRun(sha, verify, p, arrivals[..n]).0, arrivals[n]);
    }
  }

  lemma {:induction false} RunPrefix(sha: Hash, verify: QS.Verifier, p: RL.Policy, arrivals: seq<Arrival>, i: nat)
    requires i <= |arrivals|
    ensures BlobRun(sha, verify, p, arrivals).2[..i] == BlobRun(sha, verify, p, arrivals[..i]).2
  {
    hide Served;
    if i == |arrivals| {
      assert arrivals[..i] == arrivals;
    } else {
      var n := |arrivals| - 1;
      assert arrivals[..n][..i] == arrivals[..i];
      RunPrefix(sha, verify, p, arrivals[..n], i);
    }
  }

  /** Over every sequence of arrivals: a frame is answered Overloaded exactly when it decodes and verifies
      and counting its capability's earlier admissions in the window refuses it. */
  lemma OverloadedExactly(sha: Hash, verify: QS.Verifier, p: RL.Policy, arrivals: seq<Arrival>, i: nat)
    requires QI.InOrder(arrivals) && i < |arrivals|
    ensures var responses := BlobRun(sha, verify, p, arrivals).2;
            var cap := AuthenticBy(verify, arrivals[i].bytes);
            responses[i] == Failure(QS.Overloaded) <==>
              cap.Some? && !RL.LogAdmits(p, AdmittedLog(verify, arrivals[..i], responses[..i]), cap.value,
                                         arrivals[i].now)
  {
    hide AuthenticBy, RL.LogAdmits, Ideally, Served, ParseBlobResponse, AdmittedLog;
    var before, upTo := arrivals[..i], arrivals[..i + 1];
    assert upTo[..i] == before;
    RunFollows(sha, verify, p, upTo);
    LogIsAdmitted(sha, verify, p, before);
    IdealLog(sha, verify, p, IdealRun(sha, verify, p, before).0, arrivals[i]);
    RunPrefix(sha, verify, p, arrivals, i + 1);
    RunPrefix(sha, verify, p, arrivals, i);
    assert Is(BlobRun(sha, verify, p, upTo).2[i], IdealRun(sha, verify, p, upTo).1[i]);
  }

  /** Over every sequence of arrivals: in no window, wherever it ends, are more frames of one capability let
      through to be executed or replayed than the budget. */
  lemma AnswersWithinBudget(sha: Hash, verify: QS.Verifier, p: RL.Policy, arrivals: seq<Arrival>, cap: Id, t: nat)
    requires QI.InOrder(arrivals)
    ensures var log := AdmittedLog(verify, arrivals, BlobRun(sha, verify, p, arrivals).2);
            RL.CountInWindow(RL.Times(log, cap), p.window, t) <= RL.Budget(p)
  {
    hide Served, Ideally, AdmittedLog, RL.CountInWindow, RL.Times, RecordsFollow, Tables;
    RunFollows(sha, verify, p, arrivals);
    LogIsAdmitted(sha, verify, p, arrivals);
    var (windows, w) := (BlobRun(sha, verify, p, arrivals).0, IdealRun(sha, verify, p, arrivals).0);
    var last := if arrivals == [] then 0 else arrivals[|arrivals| - 1].now;
    assert RL.KeyAgrees(p, windows, w.log, last, cap);
    RL.SpacedCounts(RL.Times(w.log, cap), RL.Budget(p), p.window, last, t);
  }

  // ----- who is served -----

  /** Whose proof a request must carry, column by column. */
  ghost predicate SignedBy(verify: QS.Verifier, d: DecodedBlob) {
    match d.frame.request
    case BeginUpload(_, caps, _, _) => verify(caps.upload, d.authenticated, d.frame.auth)
    case PutChunk(_, uploadCap, _, _) => verify(uploadCap, d.authenticated, d.frame.auth)
    case Commit(_, uploadCap, _) => verify(uploadCap, d.authenticated, d.frame.auth)
    case GetManifest(_, downloadCap) => verify(downloadCap, d.authenticated, d.frame.auth)
    case GetChunk(_, downloadCap, _) => verify(downloadCap, d.authenticated, d.frame.auth)
    case Renew(_, renewCap, _) => verify(renewCap, d.authenticated, d.frame.auth)
    case Delete(_, deleteCap) => verify(deleteCap, d.authenticated, d.frame.auth)
  }

  /** Over every sequence of arrivals: an OK response goes only to bytes that decode and carry the proof of
      the capability they name. */
  lemma SuccessIsSigned(sha: Hash, verify: QS.Verifier, p: RL.Policy, arrivals: seq<Arrival>, i: nat)
    requires QI.InOrder(arrivals) && i < |arrivals|
    ensures var r := BlobRun(sha, verify, p, arrivals).2[i];
            r.Success? && ParseBlobResponse(r.value).Success?
            && ParseBlobResponse(r.value).value.response.status == BLOB_OK ==>
              && ParseBlobRequest(arrivals[i].bytes).Success?
              && SignedBy(verify, ParseBlobRequest(arrivals[i].bytes).value)
  {
    hide Served, ParseBlobRequest, ParseBlobResponse, Handled, RL.LogAdmits, QS.PrefixId;
    var upTo := arrivals[..i + 1];
    assert upTo[..i] == arrivals[..i];
    RunFollows(sha, verify, p, upTo);
    RunPrefix(sha, verify, p, arrivals, i + 1);
    assert Is(BlobRun(sha, verify, p, upTo).2[i], IdealRun(sha, verify, p, upTo).1[i]);
  }
}
