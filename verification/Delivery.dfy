/** End-to-end delivery: one sender, one recipient, an honest relay, and a network that loses, delays,
    duplicates and reorders frames, with crashes and storage faults anywhere.

    The network is the growing set of requests the two devices have signed: any of them may reach the
    relay any number of times, at any relay time. Other principals' frames are unrestricted. */
module Delivery {
  import opened Base
  import opened QueueCodec
  import opened DurableQueue
  import opened Replay
  import opened QueueService
  import opened Client

  /** Where the recipient's poll stands. */
  datatype Stage = Idle | Fetching(job: Job) | Holding(message: Id)

  /** The relay with its connections, the requests signed so far, the sender's outbox (one plaintext per
      message identifier), the recipient's durable inbox, and the recipient's volatile poll state. */
  datatype World = World(relay: System<QueueDb, Job>, signed: set<Job>, outbox: map<Id, Bytes>, inbox: map<Id, Bytes>,
                         stage: Stage)

  datatype Act =
    | Compose(id: RequestId, message: Id, ciphertext: Bytes, ttl: U64, plaintext: Bytes)
    | SignOther(job: Job)
    | Fetch(id: RequestId)
    | Receive(reply: Reply<Job>, stores: bool)
    | Acknowledge(id: RequestId)
    | CrashRecipient
    | AtRelay(event: Event<Job>)

  function Init(): World {
    World(Initial(DurableQueue.EMPTY), {}, map[], map[], Idle)
  }

  /** What the two devices sign outside of sending on, and acknowledging on, this queue. */
  predicate Unrelated(u: Device, job: Job) {
    && (Principal(job.request) == u.sender || Principal(job.request) == u.recipient)
    && !(job.request.Send? && job.request.queueId == u.queue && job.request.sender == u.sender)
    && !(job.request.Ack? && job.request.queueId == u.queue && job.request.recipient == u.recipient)
  }

  /** A call is the one its bytes decode to. */
  ghost predicate Decodes(c: Call<Job>) {
    CallOf(c.request) == Some(c)
  }

  /** The relay starts an exchange only for bytes that decode and verify; only what the two devices
      signed verifies under their keys; and nobody but the sender makes a payload that opens as theirs. */
  ghost predicate Authentic(u: Device, w: World, event: Event<Job>) {
    event.Start? ==>
      && Decodes(event.call)
      && (Principal(event.call.job.request) in {u.sender, u.recipient} ==> event.call.job in w.signed)
      && Unforged(u, event.call.job.request)
  }

  predicate Unforged(u: Device, r: Request) {
    r.Send? && r.queueId == u.queue && r.sender != u.sender ==> u.open(r.messageId, r.payload).None?
  }

  ghost predicate Enabled(u: Device, w: World, a: Act) {
    match a
    case Compose(_, m, c, _, p) =>
      && |c| <= MAX_MESSAGE_BYTES
      && u.open(m, c) == Some(p)
      && (m in w.outbox ==> w.outbox[m] == p)
    case SignOther(job) => Unrelated(u, job)
    case Fetch(_) => w.stage.Idle?
    case Receive(reply, _) =>
      w.stage.Fetching? && reply in w.relay.replies && reply.call.job == w.stage.job
    case Acknowledge(_) => w.stage.Holding?
    case CrashRecipient => true
    case AtRelay(event) => Authentic(u, w, event)
  }

  ghost function Do(u: Device, w: World, a: Act): World
    requires Enabled(u, w, a)
  {
    match a
    case Compose(id, m, c, ttl, p) =>
      w.(signed := w.signed + {Job(id, Request.Send(u.queue, u.sender, m, c, ttl))}, outbox := w.outbox[m := p])
    case SignOther(job) => w.(signed := w.signed + {job})
    case Fetch(id) =>
      var job := Job(id, Request.Fetch(u.queue, u.recipient));
      w.(signed := w.signed + {job}, stage := Fetching(job))
    case Receive(reply, stores) =>
      (match reply.outcome
       case Respond(response) =>
         (match Incoming(u, w.stage.job.requestId, Some(response))
          case Success(Some(m)) =>
            if stores then w.(inbox := Client.Commit(w.inbox, m), stage := Holding(m.messageId)) else w.(stage := Idle)
          case _ => w.(stage := Idle))
       case _ => w.(stage := Idle))
    case Acknowledge(id) =>
      w.(signed := w.signed + {Job(id, Request.Ack(u.queue, u.recipient, w.stage.message))}, stage := Idle)
    case CrashRecipient => w.(stage := Idle)
    case AtRelay(event) => w.(relay := Step(QueueEngine, w.relay, event))
  }

  /** A run: the worlds it passes through and the acts between them. */
  ghost predicate Behaviour(u: Device, ws: seq<World>, acts: seq<Act>) {
    && |ws| == |acts| + 1
    && ws[0] == Init()
    && forall i :: 0 <= i < |acts| ==> Enabled(u, ws[i], acts[i]) && ws[i + 1] == Do(u, ws[i], acts[i])
  }

  // ----- the invariant -----

  /** Signed acknowledgements name committed messages; signed sends carry the outbox's plaintexts. */
  ghost predicate SignedSound(u: Device, w: World) {
    forall job :: job in w.signed ==>
      && (job.request.Ack? && job.request.queueId == u.queue && job.request.recipient == u.recipient ==>
            job.request.messageId in w.inbox)
      && (job.request.Send? && job.request.queueId == u.queue && job.request.sender == u.sender ==>
            Sealed(u, w, job.request.messageId, job.request.payload))
  }

  /** The payload opens to the one plaintext of its message identifier. */
  predicate Sealed(u: Device, w: World, message: Id, payload: Bytes) {
    message in w.outbox && u.open(message, payload) == Some(w.outbox[message])
  }

  /** While the queue is configured for this sender, every message in it was sealed by the sender. */
  ghost predicate QueueSound(u: Device, w: World) {
    var db := w.relay.store.db;
    && ForeignKeys(db)
    && (u.queue in db.queues && db.queues[u.queue].sender == u.sender ==>
          forall k :: k in db.messages && db.messages[k].queue == u.queue ==>
            Sealed(u, w, db.messages[k].id, db.messages[k].payload))
  }

  /** If the payload opens, the sender sealed it. */
  predicate Genuine(u: Device, w: World, message: Id, payload: Bytes) {
    u.open(message, payload).Some? ==> Sealed(u, w, message, payload)
  }

  /** Whoever the queue is configured for, what opens among its messages was sealed by the sender. */
  ghost predicate RowsSound(u: Device, w: World) {
    forall k :: k in w.relay.store.db.messages && w.relay.store.db.messages[k].queue == u.queue ==>
      Genuine(u, w, w.relay.store.db.messages[k].id, w.relay.store.db.messages[k].payload)
  }

  /** A recorded answer to a FETCH on the queue delivers nothing that opens but was not sealed. */
  ghost predicate RecordSound(u: Device, w: World, request: Bytes, response: Bytes) {
    match (CallOf(request), ParseResponse(response))
    case (Some(c), Success(ResponseFrame(_, Completed(Fetched(Some(d)))))) =>
      c.job.request.Fetch? && c.job.request.queueId == u.queue ==> Genuine(u, w, d.messageId, d.payload)
    case _ => true
  }

  ghost predicate RecordsSound(u: Device, w: World) {
    forall k :: k in w.relay.store.records ==>
      RecordSound(u, w, w.relay.store.records[k].request, w.relay.store.records[k].response)
  }

  ghost predicate RelaySound(s: System<QueueDb, Job>) {
    ExactlyOnce(QueueEngine, DurableQueue.EMPTY, s) && AllCalls(s, Decodes)
  }

  /** What the recipient holds is what the sender wrote. */
  ghost predicate InboxSound(u: Device, w: World) {
    && (forall m :: m in w.inbox ==> m in w.outbox && w.inbox[m] == w.outbox[m])
    && (w.stage.Holding? ==> w.stage.message in w.inbox)
    && (w.stage.Fetching? ==> w.stage.job.request == Request.Fetch(u.queue, u.recipient))
  }

  ghost predicate Sound(u: Device, w: World) {
    && RelaySound(w.relay) && SignedSound(u, w) && QueueSound(u, w)
    && RowsSound(u, w) && RecordsSound(u, w) && InboxSound(u, w)
  }

  // ----- one relay step -----

  /** The relay's database changes only by one authentic request executed to completion. */
  lemma RelayChanges(u: Device, w: World, event: Event<Job>)
    requires Authentic(u, w, event)
    ensures var db, db' := w.relay.store.db, Step(QueueEngine, w.relay, event).store.db;
            db' == db || (event.Start? && db' == ApplyTx(db, event.call.job.request, event.now).0
                          && ApplyTx(db, event.call.job.request, event.now).1.Success?)
  {
    hide Step, ApplyTx, ResponseBytes;
    StepShape(QueueEngine, w.relay, event);
  }

  lemma QueueStaysSound(u: Device, w: World, event: Event<Job>)
    requires Sound(u, w) && Authentic(u, w, event)
    ensures QueueSound(u, w.(relay := Step(QueueEngine, w.relay, event)))
  {
    hide Step, ApplyTx, QueueEngine, RelaySound, RowsSound, RecordsSound, InboxSound, Decodes, Unforged;
    RelayChanges(u, w, event);
    var db := w.relay.store.db;
    var w' := w.(relay := Step(QueueEngine, w.relay, event));
    var db' := w'.relay.store.db;
    if db' != db {
      var r, now := event.call.job.request, event.now;
      ApplyKeepsForeignKeys(db, r, now);
      if u.queue in db'.queues && db'.queues[u.queue].sender == u.sender {
        QueueRowKept(db, r, now, u.queue);
        forall k | k in db'.messages && db'.messages[k].queue == u.queue
          ensures Sealed(u, w', db'.messages[k].id, db'.messages[k].payload)
        {
          RowKeptOrAccepted(db, r, now, k);
        }
      }
    }
  }

  lemma RowsStaySound(u: Device, w: World, event: Event<Job>)
    requires Sound(u, w) && Authentic(u, w, event)
    ensures RowsSound(u, w.(relay := Step(QueueEngine, w.relay, event)))
  {
    hide Step, ApplyTx, QueueEngine, RelaySound, RecordsSound, QueueSound, Decodes;
    RelayChanges(u, w, event);
    var db := w.relay.store.db;
    var w' := w.(relay := Step(QueueEngine, w.relay, event));
    var db' := w'.relay.store.db;
    if db' != db {
      forall k | k in db'.messages && db'.messages[k].queue == u.queue
        ensures Genuine(u, w', db'.messages[k].id, db'.messages[k].payload)
      {
        RowKeptOrAccepted(db, event.call.job.request, event.now, k);
      }
    }
  }

  /** What a FETCH delivers is a row of its queue. */
  lemma FetchedIsRow(db: QueueDb, q: Id, recipient: Id, now: U64)
    ensures match ExecuteTx(db, Request.Fetch(q, recipient), now).1
            case Success(Fetched(Some(d))) =>
              exists k :: k in db.messages && db.messages[k].queue == q
                          && db.messages[k].id == d.messageId && db.messages[k].payload == d.payload
            case _ => true
  {
    hide Value, DiscardExpired, FirstOf, RowsOf;
    DiscardOnlyRemoves(db, q, now);
    FirstRowOf(DiscardExpired(db, q, now), q);
  }

  /** The record of a call that took effect. */
  lemma AppliedRecordSound(u: Device, w: World, c: Call<Job>, now: U64)
    requires RowsSound(u, w) && Decodes(c) && QueueEngine(w.relay.store.db, c.job, now).Done?
    ensures RecordSound(u, w, c.request, QueueEngine(w.relay.store.db, c.job, now).response)
  {
    hide ExecuteTx, QueueEngine, ParseResponse, CallOf, Genuine;
    EngineEchoes(w.relay.store.db, c.job, now);
    if c.job.request.Fetch? && c.job.request.queueId == u.queue {
      FetchedIsRow(w.relay.store.db, u.queue, c.job.request.recipient, now);
    }
  }

  /** The record of a refusal delivers nothing. */
  lemma NotedRecordSound(u: Device, w: World, db: QueueDb, c: Call<Job>, now: U64, response: Bytes)
    requires QueueEngine(db, c.job, now) == Rejected(response)
    ensures RecordSound(u, w, c.request, response)
  {
    hide ExecuteTx, QueueEngine, ParseResponse, CallOf, Genuine;
    EngineEchoes(db, c.job, now);
  }

  lemma RecordsStaySound(u: Device, w: World, event: Event<Job>)
    requires Sound(u, w) && Authentic(u, w, event)
    ensures RecordsSound(u, w.(relay := Step(QueueEngine, w.relay, event)))
  {
    hide Step, QueueEngine, RowsSound, QueueSound, SignedSound, InboxSound, Decodes, RecordSound, Justified, After;
    var w' := w.(relay := Step(QueueEngine, w.relay, event));
    StepShape(QueueEngine, w.relay, event);
    if event.Start? && Applies(QueueEngine, w.relay, w'.relay, event.call, event.now) {
      AppliedRecordSound(u, w, event.call, event.now);
    } else if event.Write? && event.conn in w.relay.phases && Notes(w.relay, w'.relay, w.relay.phases[event.conn]) {
      var p := w.relay.phases[event.conn];
      assert PhaseSound(QueueEngine, DurableQueue.EMPTY, w.relay, p);
      NotedRecordSound(u, w, After(QueueEngine, DurableQueue.EMPTY, w.relay.effects[..p.seen]), p.call, p.now,
                       p.response);
    }
    forall k | k in w'.relay.store.records
      ensures RecordSound(u, w', w'.relay.store.records[k].request, w'.relay.store.records[k].response)
    {
      RecordSoundLater(u, w, w', w'.relay.store.records[k].request, w'.relay.store.records[k].response);
    }
  }

  /** The outbox only grows. */
  ghost predicate OutboxGrows(w: World, w': World) {
    forall m :: m in w.outbox ==> m in w'.outbox && w'.outbox[m] == w.outbox[m]
  }

  lemma RecordSoundLater(u: Device, w: World, w': World, request: Bytes, response: Bytes)
    requires RecordSound(u, w, request, response) && OutboxGrows(w, w')
    ensures RecordSound(u, w', request, response)
  {
    hide CallOf, ParseResponse;
  }

  lemma RelaySoundStays(w: World, event: Event<Job>)
    requires RelaySound(w.relay) && (event.Start? ==> Decodes(event.call))
    ensures RelaySound(Step(QueueEngine, w.relay, event))
  {
    hide Step, QueueEngine, Decodes, ExactlyOnce, AllCalls;
    StepExactlyOnce(QueueEngine, DurableQueue.EMPTY, w.relay, event);
    StepAllCalls(QueueEngine, w.relay, event, Decodes);
  }

  // ----- what the recipient opens -----

  /** A reply the relay gave to the outstanding FETCH opens, if it opens, to what the sender wrote. */
  lemma ReceivedIsGenuine(u: Device, w: World, reply: Reply<Job>, stores: bool)
    requires Sound(u, w) && Enabled(u, w, Receive(reply, stores)) && reply.outcome.Respond?
    ensures match Incoming(u, w.stage.job.requestId, Some(reply.outcome.response))
            case Success(Some(m)) => m.messageId in w.outbox && w.outbox[m.messageId] == m.plaintext
            case _ => true
  {
    hide ParseResponse, CallOf, SignedSound, QueueSound, RowsSound, StoreExact, PhaseSound;
    assert Decodes(reply.call);
    assert ReplySound(w.relay.store.records, reply);
    assert RecordSound(u, w, reply.call.request, reply.outcome.response);
  }

  // ----- every act -----

  /** The parts of the invariant that speak of the outbox stay when it only grows. */
  lemma SoundLater(u: Device, w: World, w': World)
    requires Sound(u, w) && OutboxGrows(w, w') && w'.relay == w.relay
    ensures QueueSound(u, w') && RowsSound(u, w') && RecordsSound(u, w')
  {
    hide RelaySound, SignedSound, InboxSound, ForeignKeys, RecordSound;
    forall k | k in w.relay.store.records
      ensures RecordSound(u, w', w.relay.store.records[k].request, w.relay.store.records[k].response)
    {
      RecordSoundLater(u, w, w', w.relay.store.records[k].request, w.relay.store.records[k].response);
    }
  }

  lemma AtRelaySound(u: Device, w: World, event: Event<Job>)
    requires Sound(u, w) && Authentic(u, w, event)
    ensures Sound(u, w.(relay := Step(QueueEngine, w.relay, event)))
  {
    hide Step, QueueEngine, QueueSound, RowsSound, RecordsSound, RelaySound, Decodes, Principal, Unforged;
    QueueStaysSound(u, w, event);
    RowsStaySound(u, w, event);
    RecordsStaySound(u, w, event);
    RelaySoundStays(w, event);
    DevicesSoundAnywhere(u, w, Step(QueueEngine, w.relay, event));
    hide SignedSound, InboxSound;
  }

  /** The devices' part does not depend on the relay. */
  lemma DevicesSoundAnywhere(u: Device, w: World, relay: System<QueueDb, Job>)
    requires SignedSound(u, w) && InboxSound(u, w)
    ensures SignedSound(u, w.(relay := relay)) && InboxSound(u, w.(relay := relay))
  {
  }

  lemma DeviceActSound(u: Device, w: World, a: Act)
    requires Sound(u, w) && Enabled(u, w, a) && !a.AtRelay?
    ensures Sound(u, Do(u, w, a))
  {
    hide Incoming, RelaySound, QueueSound, RowsSound, RecordsSound, Step, Client.Commit;
    if a.Receive? {
      ReceiveActSound(u, w, a.reply, a.stores);
    }
    SoundLater(u, w, Do(u, w, a));
  }

  lemma ReceiveActSound(u: Device, w: World, reply: Reply<Job>, stores: bool)
    requires Sound(u, w) && Enabled(u, w, Receive(reply, stores))
    ensures var w' := Do(u, w, Receive(reply, stores));
            SignedSound(u, w') && InboxSound(u, w') && OutboxGrows(w, w') && w'.relay == w.relay
  {
    hide Incoming, RelaySound, QueueSound, RowsSound, RecordsSound, Step;
    if reply.outcome.Respond? {
      ReceivedIsGenuine(u, w, reply, stores);
    }
  }

  lemma DoKeepsSound(u: Device, w: World, a: Act)
    requires Sound(u, w) && Enabled(u, w, a)
    ensures Sound(u, Do(u, w, a))
  {
    hide Sound, Incoming, Step, Client.Commit, QueueEngine, Authentic;
    if a.AtRelay? {
      AtRelaySound(u, w, a.event);
    } else {
      DeviceActSound(u, w, a);
    }
  }

  lemma InitSound(u: Device)
    ensures Sound(u, Init())
  {
    hide QueueEngine, Decodes;
    InitialExactlyOnce<QueueDb, Job>(QueueEngine, DurableQueue.EMPTY);
  }

  lemma {:induction false} BehaviourSound(u: Device, ws: seq<World>, acts: seq<Act>, i: nat)
    requires Behaviour(u, ws, acts) && i < |ws|
    ensures Sound(u, ws[i])
  {
    hide Do, Enabled, Sound;
    if i == 0 {
      InitSound(u);
    } else {
      BehaviourSound(u, ws, acts, i - 1);
      DoKeepsSound(u, ws[i - 1], acts[i - 1]);
    }
  }

  // ----- the theorem -----

  /** Message row k of the queue goes at this act, and the act accounts for it: its time was up, the
      recipient deleted the queue, or the recipient acknowledged a message that is already in its inbox
      with exactly the plaintext this message opens to. */
  ghost predicate Accounted(u: Device, w: World, a: Act, k: nat)
    requires k in w.relay.store.db.messages
  {
    var row := w.relay.store.db.messages[k];
    && a.AtRelay? && a.event.Start? && a.event.call.job.request.queueId == u.queue
    && (|| Value(row.expiresAt) <= a.event.now
        || (a.event.call.job.request == DeleteQueue(u.queue, u.recipient) && a.event.call.job in w.signed)
        || (&& a.event.call.job.request == Request.Ack(u.queue, u.recipient, row.id) && a.event.call.job in w.signed
            && row.id in w.inbox && u.open(row.id, row.payload) == Some(w.inbox[row.id])))
  }

  /** The queue is configured for the two devices. */
  predicate Configured(u: Device, db: QueueDb) {
    u.queue in db.queues && db.queues[u.queue].sender == u.sender && db.queues[u.queue].recipient == u.recipient
  }

  lemma DepartureAccounted(u: Device, w: World, event: Event<Job>, k: nat)
    requires Sound(u, w) && Authentic(u, w, event) && event.Start? && Configured(u, w.relay.store.db)
    requires k in w.relay.store.db.messages && w.relay.store.db.messages[k].queue == u.queue
    requires Departs(w.relay.store.db, event.call.job.request, event.now, k)
    ensures Accounted(u, w, AtRelay(event), k)
  {
    hide Value, CallOf, RelaySound, RowsSound, RecordsSound;
  }

  lemma StepAccounts(u: Device, w: World, a: Act, k: nat)
    requires Sound(u, w) && Enabled(u, w, a) && Configured(u, w.relay.store.db)
    requires k in w.relay.store.db.messages && w.relay.store.db.messages[k].queue == u.queue
    ensures Kept(w.relay.store.db, Do(u, w, a).relay.store.db, k) || Accounted(u, w, a, k)
  {
    hide Step, ApplyTx, QueueEngine, Incoming, Accounted, Departs, Sound, Authentic, Client.Commit;
    if a.AtRelay? {
      RelayChanges(u, w, a.event);
      var db := w.relay.store.db;
      if Do(u, w, a).relay.store.db != db {
        var r, now := a.event.call.job.request, a.event.now;
        RowKeptOrDeparts(db, r, now, k);
        if Departs(db, r, now, k) {
          DepartureAccounted(u, w, a.event, k);
        }
      }
    }
  }

  /** The message in row k is there in every world from i to j. */
  ghost predicate Stays(ws: seq<World>, k: nat, i: nat, j: nat)
    requires i <= j < |ws| && k in ws[i].relay.store.db.messages
  {
    forall n :: i <= n <= j ==> Kept(ws[i].relay.store.db, ws[n].relay.store.db, k)
  }

  lemma KeptSelf(db: QueueDb, k: nat)
    requires k in db.messages
    ensures Kept(db, db, k)
  {
  }

  lemma KeptTwice(a: QueueDb, b: QueueDb, c: QueueDb, k: nat)
    requires k in a.messages && Kept(a, b, k)
    ensures b.messages[k].queue == a.messages[k].queue
    ensures Kept(b, c, k) ==> Kept(a, c, k)
  {
  }

  lemma RowHasQueue(u: Device, w: World, k: nat)
    requires Sound(u, w) && k in w.relay.store.db.messages
    ensures w.relay.store.db.messages[k].queue in w.relay.store.db.queues
  {
    hide RelaySound, SignedSound, RowsSound, RecordsSound, InboxSound;
  }

  /** While a message of the queue stays, so does the queue's configuration. */
  lemma ConfiguredStays(u: Device, w: World, a: Act, k: nat)
    requires Sound(u, w) && Enabled(u, w, a) && Configured(u, w.relay.store.db)
    requires k in w.relay.store.db.messages && w.relay.store.db.messages[k].queue == u.queue
    requires Kept(w.relay.store.db, Do(u, w, a).relay.store.db, k)
    ensures Configured(u, Do(u, w, a).relay.store.db)
  {
    hide Step, ApplyTx, QueueEngine, Incoming, Authentic, Client.Commit, Sound;
    if a.AtRelay? {
      DoKeepsSound(u, w, a);
      RelayChanges(u, w, a.event);
      var db, db' := w.relay.store.db, Do(u, w, a).relay.store.db;
      if db' != db {
        RowHasQueue(u, Do(u, w, a), k);
        QueueRowKept(db, a.event.call.job.request, a.event.now, u.queue);
      }
    }
  }

  /** The message stays, and with it the configuration, up to j; or it left at an act that accounts for it. */
  ghost predicate Settled(u: Device, ws: seq<World>, acts: seq<Act>, k: nat, i: nat, j: nat)
    requires i <= j < |ws| == |acts| + 1 && k in ws[i].relay.store.db.messages
  {
    || (Stays(ws, k, i, j) && Configured(u, ws[j].relay.store.db))
    || exists n :: i <= n < j && Stays(ws, k, i, n) && Accounted(u, ws[n], acts[n], k)
  }

  /** Over every run: a message that was in the queue is still there, or it left at a definite act that
      accounts for it. Nothing else removes an accepted message. */
  lemma {:induction false} NoMessageIsLost(u: Device, ws: seq<World>, acts: seq<Act>, k: nat, i: nat, j: nat)
    requires Behaviour(u, ws, acts) && i <= j < |ws|
    requires k in ws[i].relay.store.db.messages && ws[i].relay.store.db.messages[k].queue == u.queue
    requires Configured(u, ws[i].relay.store.db)
    ensures Settled(u, ws, acts, k, i, j)
    ensures Stays(ws, k, i, j) || exists n :: i <= n < j && Stays(ws, k, i, n) && Accounted(u, ws[n], acts[n], k)
    decreases j
  {
    hide Do, Enabled, Accounted, Sound, Configured, SameMessage;
    if i == j {
      KeptSelf(ws[i].relay.store.db, k);
    } else {
      NoMessageIsLost(u, ws, acts, k, i, j - 1);
      if Stays(ws, k, i, j - 1) && Configured(u, ws[j - 1].relay.store.db) {
        BehaviourSound(u, ws, acts, j - 1);
        KeptTwice(ws[i].relay.store.db, ws[j - 1].relay.store.db, ws[j].relay.store.db, k);
        StepAccounts(u, ws[j - 1], acts[j - 1], k);
        if Kept(ws[j - 1].relay.store.db, ws[j].relay.store.db, k) {
          ConfiguredStays(u, ws[j - 1], acts[j - 1], k);
        }
      }
    }
  }

  /** Over every run: the inbox only holds what the sender wrote, and never changes an entry. */
  lemma InboxIsFaithful(u: Device, ws: seq<World>, acts: seq<Act>, i: nat, m: Id)
    requires Behaviour(u, ws, acts) && i < |acts| && m in ws[i].inbox
    ensures m in ws[i].outbox && ws[i].inbox[m] == ws[i].outbox[m]
    ensures m in ws[i + 1].inbox && ws[i + 1].inbox[m] == ws[i].inbox[m]
  {
    hide Init, Step, Incoming, RelaySound, SignedSound, QueueSound, RowsSound, RecordsSound, Authentic, QueueEngine;
    BehaviourSound(u, ws, acts, i);
    assert ws[i + 1] == Do(u, ws[i], acts[i]);
    EntryStays(u, ws[i], acts[i], m);
  }

  lemma EntryStays(u: Device, w: World, a: Act, m: Id)
    requires Enabled(u, w, a) && m in w.inbox
    ensures m in Do(u, w, a).inbox && Do(u, w, a).inbox[m] == w.inbox[m]
  {
    hide Step, Incoming, Authentic, QueueEngine;
  }

  /** The recipient's poll is these acts: it leaves the inbox that Receive leaves, and it sends an ACK
      exactly when Receive leaves a message held, for that message. */
  lemma PollIsActs(u: Device, w: World, reply: Reply<Job>, stores: bool, ackId: RequestId, ackReply: Option<Bytes>)
    requires Enabled(u, w, Receive(reply, stores)) && reply.outcome.Respond?
    ensures var w' := Do(u, w, Receive(reply, stores));
            var p := Polling(u, w.inbox, w.stage.job.requestId, Some(reply.outcome.response), stores, ackId, ackReply);
            && p.inbox == w'.inbox
            && (|p.sent| == 2 <==> w'.stage.Holding?)
            && (w'.stage.Holding? ==> p.sent[1] == AckFrame(u, ackId, w'.stage.message))
  {
    hide Incoming, AckFrame, FetchFrame, CheckedResponse;
  }
}
