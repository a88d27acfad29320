/** The queue daemon against an ideal one. The ideal daemon keeps the whole list of admissions instead of
    trimmed windows, the commands executed so far on the in-memory relay instead of tables, and for each
    key the bytes and the response first given. Over every sequence of arriving byte strings under a
    clock that does not go back, the daemon replies as the ideal one does. */
module QueueIdeal {
  import opened Base
  import opened QueueCodec
  import opened Relay
  import opened DurableQueue
  import opened QueueService
  import opened QueueSimulation
  import opened ServiceRuns
  import R = Replay
  import RL = RateLimiter

  datatype Given = Given(request: Bytes, response: Response)

  datatype Ideal = Ideal(log: seq<RL.Admission<Id>>, commands: seq<Timed>, given: map<R.Key, Given>)

  datatype IdealReply = Replied(frame: ResponseFrame) | TurnedAway

  const START := Ideal([], [], map[])

  lemma NeverFaults(qs: Queues, r: Request, now: U64)
    ensures Apply(qs, r, now).1 != Failure(StorageFault)
  {
    hide Live, IndexOf;
  }

  /** The in-memory relay's answer after the commands so far. */
  function AnswerTo(commands: seq<Timed>, r: Request, now: U64): (a: Answer)
    ensures a != Failure(StorageFault)
  {
    NeverFaults(Run(map[], commands), r, now);
    Apply(Run(map[], commands), r, now).1
  }

  /** How an answer is told. */
  function Telling(r: Request, a: Answer): Response
    requires a != Failure(StorageFault)
  {
    match a
    case Success(body) => Completed(body)
    case Failure(e) => Refused(Some(r.Command()), StatusOf(e))
  }

  /** An admitted frame. */
  ghost function Handled(w: Ideal, f: RequestFrame, bytes: Bytes, now: U64): (Ideal, Response) {
    var r, key := f.request, R.Key(Principal(f.request), f.requestId);
    if r.Send? && r.ttl == 0 then (w, Refused(Some(SEND), LIMIT_OUT_OF_RANGE))
    else if key in w.given then
      (w, if w.given[key].request == bytes then w.given[key].response else Refused(Some(r.Command()), AUTH_REPLAY))
    else
      var response := Telling(r, AnswerTo(w.commands, r, now));
      (Ideal(w.log, w.commands + [Timed(r, now)], w.given[key := Given(bytes, response)]), response)
  }

  ghost function Ideally(verify: Verifier, p: RL.Policy, w: Ideal, a: Arrival): (Ideal, IdealReply) {
    match ParseRequest(a.bytes)
    case Failure(e) => (w, Replied(ResponseFrame(PrefixId(a.bytes), Refused(None, StatusOfError(e)))))
    case Success(d) =>
      var f, who := d.frame, Principal(d.frame.request);
      if !verify(who, d.authenticated, f.auth) then
        (w, Replied(ResponseFrame(f.requestId, Refused(Some(f.request.Command()), AUTH_INVALID))))
      else if !RL.LogAdmits(p, w.log, who, a.now) then (w, TurnedAway)
      else
        var (w', response) := Handled(w.(log := w.log + [RL.Admission(who, a.now)]), f, a.bytes, a.now);
        (w', Replied(ResponseFrame(f.requestId, response)))
  }

  ghost function IdealRun(verify: Verifier, p: RL.Policy, arrivals: seq<Arrival>): (r: (Ideal, seq<IdealReply>))
    ensures |r.1| == |arrivals|
  {
    if arrivals == [] then (START, [])
    else
      var n := |arrivals| - 1;
      var (w, replies) := IdealRun(verify, p, arrivals[..n]);
      var (w', reply) := Ideally(verify, p, w, arrivals[n]);
      (w', replies + [reply])
  }

  /** The daemon's result is this reply, byte for byte: a frame has one encoding. */
  ghost predicate Is(r: Result<Bytes, ExchangeError>, reply: IdealReply) {
    match reply
    case TurnedAway => r == Failure(Overloaded)
    case Replied(f) => r.Success? && ParseResponse(r.value) == Success(f)
  }

  ghost predicate InOrder(arrivals: seq<Arrival>) {
    forall i, j :: 0 <= i < j < |arrivals| ==> arrivals[i].now <= arrivals[j].now
  }

  // ----- one executed command -----

  /** On the wire the durable relay answers as the in-memory relay does, except that a delivery too large
      for a frame is refused. */
  lemma WireAgrees(qs: Queues, db: QueueDb, t: U64, r: Request, now: U64)
    requires Matches(qs, db, t) && Sound(qs) && t <= now
    ensures var a, b := Apply(qs, r, now).1, ExecuteTx(db, r, now).1;
            b == match a
                 case Success(Fetched(Some(d))) =>
                   if |d.payload| > MAX_MESSAGE_BYTES then Failure(MessageTooLarge) else a
                 case _ => a
  {
    hide Matches, Apply, ApplyTx, Sound;
    StepAgrees(qs, db, t, r, now);
  }

  /** The tables are those of the commands so far, which came in order. */
  ghost predicate TablesFollow(db: QueueDb, commands: seq<Timed>, t: U64) {
    && db == DurableRun(commands) && ClockNeverGoesBack(commands)
    && (forall i :: 0 <= i < |commands| ==> commands[i].now <= t && commands[i].request.Valid())
  }

  lemma {:induction false} PayloadsFit(commands: seq<Timed>, k: nat)
    requires forall i :: 0 <= i < |commands| ==> commands[i].request.Valid()
    requires k in DurableRun(commands).messages
    ensures |DurableRun(commands).messages[k].payload| <= MAX_MESSAGE_BYTES
  {
    hide ApplyTx;
    if commands != [] {
      var n := |commands| - 1;
      var c, before := commands[n], DurableRun(commands[..n]);
      if ApplyTx(before, c.request, c.now).1.Success? {
        RowKeptOrAccepted(before, c.request, c.now, k);
      }
      if k in before.messages {
        PayloadsFit(commands[..n], k);
      }
    }
  }

  /** What a FETCH delivers is in the table. */
  lemma DeliveredIsRow(db: QueueDb, r: Request, now: U64)
    ensures match ApplyTx(db, r, now).1
            case Success(Fetched(Some(d))) => exists k :: k in db.messages && db.messages[k].payload == d.payload
            case _ => true
  {
    hide Value, DiscardExpired, FirstOf, RowsOf, RowsWithId;
    DiscardOnlyRemoves(db, r.queueId, now);
    FirstRowOf(DiscardExpired(db, r.queueId, now), r.queueId);
  }

  lemma NothingTooLarge(commands: seq<Timed>, r: Request, now: U64)
    requires forall i :: 0 <= i < |commands| ==> commands[i].request.Valid()
    ensures ExecuteTx(DurableRun(commands), r, now) == ApplyTx(DurableRun(commands), r, now)
  {
    hide ApplyTx;
    var db := DurableRun(commands);
    DeliveredIsRow(db, r, now);
    match ApplyTx(db, r, now).1 {
      case Success(Fetched(Some(d))) =>
        var k :| k in db.messages && db.messages[k].payload == d.payload;
        PayloadsFit(commands, k);
      case _ =>
    }
  }

  /** One more command: the engine's response says what the in-memory relay answers. */
  lemma EngineFollows(db: QueueDb, commands: seq<Timed>, t: U64, job: Job, now: U64)
    requires TablesFollow(db, commands, t) && t <= now && job.request.Valid()
    ensures var v, a := QueueEngine(db, job, now), AnswerTo(commands, job.request, now);
            && !v.Broken? && (v.Done? <==> a.Success?)
            && ParseResponse(v.response) == Success(ResponseFrame(job.requestId, Telling(job.request, a)))
            && TablesFollow(if v.Done? then v.db else db, commands + [Timed(job.request, now)], now)
  {
    hide Apply, ApplyTx, ExecuteTx, QueueEngine, ParseResponse, Matches;
    var r := job.request;
    DurableRefinesRelay(commands);
    RunSound(commands);
    StepAgrees(Run(map[], commands), db, if commands == [] then 0 else commands[|commands| - 1].now, r, now);
    NothingTooLarge(commands, r, now);
    assert ExecuteTx(db, r, now).1 == AnswerTo(commands, r, now);
    EngineEchoes(db, job, now);
    EngineTables(db, job, now);
    OneMore(commands, Timed(r, now));
    OneMoreInOrder(commands, t, Timed(r, now));
  }

  lemma OneMoreInOrder(commands: seq<Timed>, t: U64, c: Timed)
    requires ClockNeverGoesBack(commands) && t <= c.now && forall i :: 0 <= i < |commands| ==> commands[i].now <= t
    ensures ClockNeverGoesBack(commands + [c])
  {
  }

  lemma EngineTables(db: QueueDb, job: Job, now: U64)
    ensures var v := QueueEngine(db, job, now); v.Done? ==> v.db == ExecuteTx(db, job.request, now).0
  {
    hide ExecuteTx, ResponseBytes;
  }

  // ----- one arrival -----

  ghost predicate RecordsFollow(records: map<R.Key, R.Record>, given: map<R.Key, Given>) {
    && records.Keys == given.Keys
    && forall k :: k in given ==>
         && records[k].request == given[k].request
         && ParseResponse(records[k].response) == Success(ResponseFrame(k.requestId, given[k].response))
  }

  /** The daemon's state stands for this ideal state, and nothing in it is later than t. */
  ghost predicate Follows(p: RL.Policy, windows: map<Id, seq<nat>>, s: R.Store<QueueDb>, w: Ideal, t: U64) {
    RL.Agrees(p, windows, w.log, t) && TablesFollow(s.db, w.commands, t) && RecordsFollow(s.records, w.given)
  }

  /** What the daemon does with an admitted frame. */
  function Admitted(s: R.Store<QueueDb>, f: RequestFrame, bytes: Bytes, now: U64)
    : (R.Store<QueueDb>, Result<Bytes, ExchangeError>)
  {
    var c := f.request.Command();
    if Validate(f.request).Some? then (s, Success(ErrorResponse(f.requestId, Some(c), LIMIT_OUT_OF_RANGE)))
    else
      var call := R.Call(R.Key(Principal(f.request), f.requestId), bytes, Job(f.requestId, f.request));
      var (store, outcome) := R.LookupFirst(QueueEngine, s, call, now);
      (store, match outcome
              case Respond(response) => Success(response)
              case Conflict => Success(ErrorResponse(f.requestId, Some(c), AUTH_REPLAY))
              case Fault => Failure(Storage))
  }

  /** The first frame under its key. */
  lemma FreshFollows(s: R.Store<QueueDb>, w: Ideal, t: U64, f: RequestFrame, bytes: Bytes, now: U64)
    requires TablesFollow(s.db, w.commands, t) && RecordsFollow(s.records, w.given) && t <= now && f.request.Valid()
    requires R.Key(Principal(f.request), f.requestId) !in w.given
    ensures var r, key := f.request, R.Key(Principal(f.request), f.requestId);
            var response := Telling(r, AnswerTo(w.commands, r, now));
            var (s', outcome) := R.LookupFirst(QueueEngine, s, R.Call(key, bytes, Job(f.requestId, r)), now);
            && TablesFollow(s'.db, w.commands + [Timed(r, now)], now)
            && RecordsFollow(s'.records, w.given[key := Given(bytes, response)])
            && outcome.Respond? && ParseResponse(outcome.response) == Success(ResponseFrame(f.requestId, response))
  {
    hide QueueEngine, ParseResponse, Telling, AnswerTo, TablesFollow;
    EngineFollows(s.db, w.commands, t, Job(f.requestId, f.request), now);
  }

  lemma AdmittedFollows(s: R.Store<QueueDb>, w: Ideal, t: U64, f: RequestFrame, bytes: Bytes, now: U64)
    requires TablesFollow(s.db, w.commands, t) && RecordsFollow(s.records, w.given) && t <= now && f.request.Valid()
    ensures var (s', r) := Admitted(s, f, bytes, now);
            var (w', response) := Handled(w, f, bytes, now);
            && w'.log == w.log && TablesFollow(s'.db, w'.commands, now) && RecordsFollow(s'.records, w'.given)
            && Is(r, Replied(ResponseFrame(f.requestId, response)))
  {
    hide QueueEngine, ErrorResponse, ParseResponse, Telling, AnswerTo, DurableRun, R.LookupFirst, RecordsFollow;
    var c, key := f.request.Command(), R.Key(Principal(f.request), f.requestId);
    ErrorResponseEchoes(f.requestId, Some(c), LIMIT_OUT_OF_RANGE);
    ErrorResponseEchoes(f.requestId, Some(c), AUTH_REPLAY);
    if key !in w.given {
      FreshFollows(s, w, t, f, bytes, now);
    } else {
      RecordedFollows(s, w, f, bytes, now);
    }
  }

  lemma RecordedFollows(s: R.Store<QueueDb>, w: Ideal, f: RequestFrame, bytes: Bytes, now: U64)
    requires RecordsFollow(s.records, w.given) && R.Key(Principal(f.request), f.requestId) in w.given
    ensures var key := R.Key(Principal(f.request), f.requestId);
            var (s', outcome) := R.LookupFirst(QueueEngine, s, R.Call(key, bytes, Job(f.requestId, f.request)), now);
            && s' == s
            && (if w.given[key].request == bytes
                then outcome.Respond?
                     && ParseResponse(outcome.response) == Success(ResponseFrame(f.requestId, w.given[key].response))
                else outcome == R.Conflict)
  {
    hide QueueEngine, ParseResponse;
  }

  lemma ServedFollows(verify: Verifier, p: RL.Policy, windows: map<Id, seq<nat>>, s: R.Store<QueueDb>, w: Ideal,
                      t: U64, a: Arrival)
    requires Follows(p, windows, s, w, t) && t <= a.now
    ensures var (windows', s', r) := Served(verify, p, windows, s, a.bytes, a.now);
            var (w', reply) := Ideally(verify, p, w, a);
            Follows(p, windows', s', w', a.now) && Is(r, reply)
  {
    hide ParseRequest, ParseResponse, RL.Agrees, RL.LogAdmits, RL.AdmitStep, RecordsFollow, QueueEngine, ErrorResponse,
      DecodeErrorResponse, PrefixId, R.LookupFirst, Telling, AnswerTo, DurableRun;
    LaterAgrees(p, windows, w.log, t, a.now);
    match ParseRequest(a.bytes) {
      case Failure(e) => DecodeErrorAnswers(a.bytes);
      case Success(d) =>
        var f, who := d.frame, Principal(d.frame.request);
        DecodedIsValid(a.bytes);
        ErrorResponseEchoes(f.requestId, Some(f.request.Command()), AUTH_INVALID);
        RL.AdmitAgrees(p, windows, w.log, t, who, a.now);
        AdmittedFollows(s, w.(log := w.log + [RL.Admission(who, a.now)]), t, f, a.bytes, a.now);
    }
  }

  lemma LaterAgrees(p: RL.Policy, windows: map<Id, seq<nat>>, log: seq<RL.Admission<Id>>, t: nat, now: nat)
    requires RL.Agrees(p, windows, log, t) && t <= now
    ensures RL.Agrees(p, windows, log, now)
  {
    hide RL.KeyAgrees, RL.Keys;
    forall key ensures RL.KeyAgrees(p, windows, log, now, key) {
      assert RL.KeyAgrees(p, windows, log, t, key);
      RL.KeyLater(p, windows, log, t, now, key);
    }
  }

  // ----- every sequence of arrivals -----

  lemma StartFollows(p: RL.Policy)
    ensures Follows(p, map[], R.Store(DurableQueue.EMPTY, map[]), START, 0)
  {
  }

  lemma {:induction false} RunFollows(verify: Verifier, p: RL.Policy, arrivals: seq<Arrival>)
    requires InOrder(arrivals)
    ensures var (windows, s, responses) := ServedRun(verify, p, arrivals);
            var (w, replies) := IdealRun(verify, p, arrivals);
            && Follows(p, windows, s, w, if arrivals == [] then 0 else arrivals[|arrivals| - 1].now)
            && forall i :: 0 <= i < |arrivals| ==> Is(responses[i], replies[i])
  {
    hide Served, Ideally, Follows, Is;
    if arrivals == [] {
      StartFollows(p);
    } else {
      var n := |arrivals| - 1;
      RunFollows(verify, p, arrivals[..n]);
      var (windows, s, _) := ServedRun(verify, p, arrivals[..n]);
      ServedFollows(verify, p, windows, s, IdealRun(verify, p, arrivals[..n]).0,
                    if n == 0 then 0 else arrivals[n - 1].now, arrivals[n]);
    }
  }

  // ----- who is turned away -----

  /** The principal whose proof the bytes carry, if they decode and it verifies. */
  function AuthenticBy(verify: Verifier, bytes: Bytes): Option<Id> {
    match ParseRequest(bytes)
    case Failure(_) => None
    case Success(d) =>
      var who := Principal(d.frame.request);
      if verify(who, d.authenticated, d.frame.auth) then Some(who) else None
  }

  /** The authentic arrivals that were not turned away, in order. */
  function AdmittedLog(verify: Verifier, arrivals: seq<Arrival>, responses: seq<Result<Bytes, ExchangeError>>)
    : seq<RL.Admission<Id>>
    requires |responses| == |arrivals|
  {
    if arrivals == [] then []
    else
      var n := |arrivals| - 1;
      var before := AdmittedLog(verify, arrivals[..n], responses[..n]);
      match AuthenticBy(verify, arrivals[n].bytes)
      case Some(who) =>
        if responses[n] == Failure(Overloaded) then before else before + [RL.Admission(who, arrivals[n].now)]
      case None => before
  }

  lemma {:induction false} LogIsAdmitted(verify: Verifier, p: RL.Policy, arrivals: seq<Arrival>)
    requires InOrder(arrivals)
    ensures IdealRun(verify, p, arrivals).0.log == AdmittedLog(verify, arrivals, ServedRun(verify, p, arrivals).2)
  {
    hide ParseRequest, ParseResponse, Served, Handled, RL.LogAdmits, PrefixId;
    if arrivals != [] {
      var n := |arrivals| - 1;
      LogIsAdmitted(verify, p, arrivals[..n]);
      RunFollows(verify, p, arrivals);
      assert ServedRun(verify, p, arrivals).2[..n] == ServedRun(verify, p, arrivals[..n]).2;
      var w := IdealRun(verify, p, arrivals[..n]).0;
      IdealLog(verify, p, w, arrivals[n]);
    }
  }

  lemma IdealLog(verify: Verifier, p: RL.Policy, w: Ideal, a: Arrival)
    ensures var (w', reply) := Ideally(verify, p, w, a);
            && (reply.TurnedAway? <==> AuthenticBy(verify, a.bytes).Some?
                                       && !RL.LogAdmits(p, w.log, AuthenticBy(verify, a.bytes).value, a.now))
            && w'.log == match AuthenticBy(verify, a.bytes)
                         case Some(who) =>
                           if reply.TurnedAway? then w.log else w.log + [RL.Admission(who, a.now)]
                         case None => w.log
  {
    hide ParseRequest, RL.LogAdmits, PrefixId, Telling, AnswerTo;
  }

  /** Over every sequence of arrivals: a frame is answered Overloaded exactly when it decodes and verifies
      and counting its principal's earlier admissions in the window refuses it. */
  lemma OverloadedExactly(verify: Verifier, p: RL.Policy, arrivals: seq<Arrival>, i: nat)
    requires InOrder(arrivals) && i < |arrivals|
    ensures var responses := ServedRun(verify, p, arrivals).2;
            var who := AuthenticBy(verify, arrivals[i].bytes);
            responses[i] == Failure(Overloaded) <==>
              who.Some? && !RL.LogAdmits(p, AdmittedLog(verify, arrivals[..i], responses[..i]), who.value,
                                         arrivals[i].now)
  {
    hide AuthenticBy, RL.LogAdmits, Ideally, Served, ParseResponse, AdmittedLog;
    var before, upTo := arrivals[..i], arrivals[..i + 1];
    assert upTo[..i] == before;
    RunFollows(verify, p, upTo);
    LogIsAdmitted(verify, p, before);
    IdealLog(verify, p, IdealRun(verify, p, before).0, arrivals[i]);
    RunPrefix(verify, p, arrivals, i + 1);
    RunPrefix(verify, p, arrivals, i);
    assert Is(ServedRun(verify, p, upTo).2[i], IdealRun(verify, p, upTo).1[i]);
  }

  lemma {:induction false} RunPrefix(verify: Verifier, p: RL.Policy, arrivals: seq<Arrival>, i: nat)
    requires i <= |arrivals|
    ensures ServedRun(verify, p, arrivals).2[..i] == ServedRun(verify, p, arrivals[..i]).2
  {
    hide Served;
    if i == |arrivals| {
      assert arrivals[..i] == arrivals;
    } else {
      var n := |arrivals| - 1;
      assert arrivals[..n][..i] == arrivals[..i];
      RunPrefix(verify, p, arrivals[..n], i);
    }
  }

  /** Over every sequence of arrivals: in no window, wherever it ends, are more frames of one principal let
      through to be executed or replayed than the budget. */
  lemma AnswersWithinBudget(verify: Verifier, p: RL.Policy, arrivals: seq<Arrival>, who: Id, t: nat)
    requires InOrder(arrivals)
    ensures var log := AdmittedLog(verify, arrivals, ServedRun(verify, p, arrivals).2);
            RL.CountInWindow(RL.Times(log, who), p.window, t) <= RL.Budget(p)
  {
    hide Served, Ideally, AdmittedLog, RL.CountInWindow, RL.Times, RecordsFollow, TablesFollow;
    RunFollows(verify, p, arrivals);
    LogIsAdmitted(verify, p, arrivals);
    var (windows, w) := (ServedRun(verify, p, arrivals).0, IdealRun(verify, p, arrivals).0);
    var last := if arrivals == [] then 0 else arrivals[|arrivals| - 1].now;
    assert RL.KeyAgrees(p, windows, w.log, last, who);
    RL.SpacedCounts(RL.Times(w.log, who), RL.Budget(p), p.window, last, t);
  }

  // ----- who is served -----

  /** Whose proof a request must carry: the sender creates and sends, the recipient does the rest. */
  ghost predicate SignedBy(verify: Verifier, d: DecodedRequest) {
    match d.frame.request
    case CreateQueue(_, sender, _, _, _) => verify(sender, d.authenticated, d.frame.auth)
    case Send(_, sender, _, _, _) => verify(sender, d.authenticated, d.frame.auth)
    case Fetch(_, recipient) => verify(recipient, d.authenticated, d.frame.auth)
    case Ack(_, recipient, _) => verify(recipient, d.authenticated, d.frame.auth)
    case DeleteQueue(_, recipient) => verify(recipient, d.authenticated, d.frame.auth)
  }

  /** Over every sequence of arrivals: a success goes only to bytes that decode and carry the proof of the
      sender or recipient they name. */
  lemma SuccessIsSigned(verify: Verifier, p: RL.Policy, arrivals: seq<Arrival>, i: nat)
    requires InOrder(arrivals) && i < |arrivals|
    ensures var r := ServedRun(verify, p, arrivals).2[i];
            r.Success? && ParseResponse(r.value).Success? && ParseResponse(r.value).value.response.Completed? ==>
              ParseRequest(arrivals[i].bytes).Success? && SignedBy(verify, ParseRequest(arrivals[i].bytes).value)
  {
    hide Served, ParseRequest, ParseResponse, Handled, RL.LogAdmits, PrefixId;
    var upTo := arrivals[..i + 1];
    assert upTo[..i] == arrivals[..i];
    RunFollows(verify, p, upTo);
    RunPrefix(verify, p, arrivals, i + 1);
    assert Is(ServedRun(verify, p, upTo).2[i], IdealRun(verify, p, upTo).1[i]);
  }

  /** And a command succeeds only for the sender or recipient its queue is configured with. */
  lemma SuccessIsConfigured(commands: seq<Timed>, r: Request, now: U64)
    ensures var qs := Run(map[], commands);
            AnswerTo(commands, r, now).Success? && !r.CreateQueue? ==>
              r.queueId in qs && (if r.Send? then qs[r.queueId].config.sender == r.sender
                                  else qs[r.queueId].config.recipient == r.recipient)
  {
    hide Live, Offer, Deliver, Confirm, Run;
  }

  // ----- what an ACK removes -----

  /** Row k is the message the recipient last fetched: of those alive in the queue the first, delivered, and
      with this identifier. */
  ghost predicate DeliveredHead(db: QueueDb, q: Id, m: Id, now: U64, k: nat) {
    && k in db.messages && db.messages[k].queue == q && now < Value(db.messages[k].expiresAt)
    && db.messages[k].id == m && db.messages[k].delivered
    && forall j :: j in db.messages && db.messages[j].queue == q && now < Value(db.messages[j].expiresAt) ==> k <= j
  }

  /** The queue is there, usable, and the recipient's. */
  ghost predicate OwnedBy(db: QueueDb, q: Id, recipient: Id) {
    && q in db.queues && db.queues[q].recipient == recipient
    && Value(db.queues[q].maxMessages) > 0 && Value(db.queues[q].maxMessageBytes) > 0
  }

  /** Acked is answered exactly when the queue is the recipient's and its delivered head has the identifier;
      then that row leaves the table and, apart from expired rows of the queue, no other. */
  lemma AckedExactly(db: QueueDb, q: Id, recipient: Id, m: Id, now: U64)
    ensures var (db', a) := ExecuteTx(db, Request.Ack(q, recipient, m), now);
            && (a == Success(Acked) <==> OwnedBy(db, q, recipient) && exists k :: DeliveredHead(db, q, m, now, k))
            && (a.Success? ==> a == Success(Acked))
            && (forall k :: a.Success? && DeliveredHead(db, q, m, now, k) ==>
                  k !in db'.messages
                  && forall j :: j in db.messages && j != k ==>
                       (j in db'.messages <==> db.messages[j].queue != q || now < Value(db.messages[j].expiresAt))
                       && (j in db'.messages ==> db'.messages[j] == db.messages[j]))
  {
    hide Value, DiscardExpired;
    var d := DiscardExpired(db, q, now);
    DiscardOnlyRemoves(db, q, now);
    forall k | k in db.messages
      ensures k in d.messages <==> db.messages[k].queue != q || now < Value(db.messages[k].expiresAt)
    {
      DiscardedIsExpired(db, q, now, k);
    }
    FirstRowOf(d, q);
    var first := FirstOf(RowsOf(d, q));
    if first.Some? && d.messages[first.value].id == m && d.messages[first.value].delivered {
      assert DeliveredHead(db, q, m, now, first.value) by {
        forall j | j in db.messages && db.messages[j].queue == q && now < Value(db.messages[j].expiresAt)
          ensures first.value <= j
        {
          assert j in RowsOf(d, q);
        }
      }
    }
    forall k | DeliveredHead(db, q, m, now, k) ensures first == Some(k) {
      assert k in RowsOf(d, q);
    }
  }
}
