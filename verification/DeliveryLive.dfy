/** A message that nothing interrupts is sent, fetched, committed and acknowledged. */
module DeliveryLive {
  import opened Base
  import opened QueueCodec
  import opened DurableQueue
  import opened Replay
  import opened QueueService
  import opened Client
  import opened Delivery

  // ----- the four commands on the tables -----

  function Row(u: Device): QueueRow {
    QueueRow(u.sender, u.recipient, Cell(1), Cell(MAX_MESSAGE_BYTES))
  }

  /** The queue, empty or with one message. */
  function Table(u: Device, messages: map<nat, MessageRow>): QueueDb {
    QueueDb(map[u.queue := Row(u)], messages)
  }

  function Setup(u: Device): Request {
    CreateQueue(u.queue, u.sender, u.recipient, 1, MAX_MESSAGE_BYTES)
  }

  function Message(u: Device, m: Id, c: Bytes, ttl: U64, delivered: bool): MessageRow {
    MessageRow(u.queue, m, c, Cell(ttl), delivered)
  }

  lemma Creates(u: Device)
    ensures ExecuteTx(EMPTY, Setup(u), 0) == (Table(u, map[]), Success(QueueCreated(false)))
  {
    hide Cell;
  }

  lemma ReadsConfig(u: Device, messages: map<nat, MessageRow>)
    ensures ReadQueue(Table(u, messages), u.queue).Success?
    ensures var c := ReadQueue(Table(u, messages), u.queue).value;
            c.sender == u.sender && c.recipient == u.recipient && c.maxMessages == 1
              && c.maxMessageBytes == MAX_MESSAGE_BYTES
  {
    hide FromBe, Be;
  }

  lemma Sends(u: Device, m: Id, c: Bytes, ttl: U64)
    requires |c| <= MAX_MESSAGE_BYTES && ttl > 0
    ensures ExecuteTx(Table(u, map[]), Request.Send(u.queue, u.sender, m, c, ttl), 0)
            == (Table(u, map[1 := Message(u, m, c, ttl, false)]), Success(Sent(false)))
  {
    hide FromBe, Be, FirstOf, ReadQueue, BytewiseLess;
    ReadsConfig(u, map[]);
    var db := Table(u, map[]);
    assert DiscardExpired(db, u.queue, 0) == db;
    assert RowsWithId(db, u.queue, m) == {} && RowsOf(db, u.queue) == {};
    assert db.messages.Keys == {};
  }

  /** The one row of the queue is not pruned at time zero and is the first. */
  lemma OneRow(u: Device, row: MessageRow)
    requires row.queue == u.queue && Value(row.expiresAt) > 0
    ensures var db := Table(u, map[1 := row]);
            DiscardExpired(db, u.queue, 0) == db && FirstOf(RowsOf(db, u.queue)) == Some(1)
  {
    var db := Table(u, map[1 := row]);
    DiscardedIsExpired(db, u.queue, 0, 1);
    hide Value, DiscardExpired, Cell;
    DiscardOnlyRemoves(db, u.queue, 0);
    var d := DiscardExpired(db, u.queue, 0);
    assert d.messages == db.messages;
    assert RowsOf(db, u.queue) == {1};
  }

  lemma Fetches(u: Device, m: Id, c: Bytes, ttl: U64)
    requires |c| <= MAX_MESSAGE_BYTES && ttl > 0
    ensures ExecuteTx(Table(u, map[1 := Message(u, m, c, ttl, false)]), Request.Fetch(u.queue, u.recipient), 0)
            == (Table(u, map[1 := Message(u, m, c, ttl, true)]), Success(Fetched(Some(Delivery(m, c, ttl)))))
  {
    hide FirstOf, ReadQueue, DiscardExpired, RowsOf, FromBe, Be;
    ReadsConfig(u, map[1 := Message(u, m, c, ttl, false)]);
    OneRow(u, Message(u, m, c, ttl, false));
    assert map[1 := Message(u, m, c, ttl, false)][1 := Message(u, m, c, ttl, true)] ==
             map[1 := Message(u, m, c, ttl, true)];
  }

  lemma Acknowledges(u: Device, m: Id, c: Bytes, ttl: U64)
    requires ttl > 0
    ensures ExecuteTx(Table(u, map[1 := Message(u, m, c, ttl, true)]), Request.Ack(u.queue, u.recipient, m), 0)
            == (Table(u, map[]), Success(Acked))
  {
    hide FirstOf, ReadQueue, DiscardExpired, RowsOf, FromBe, Be;
    ReadsConfig(u, map[1 := Message(u, m, c, ttl, true)]);
    OneRow(u, Message(u, m, c, ttl, true));
    assert map[1 := Message(u, m, c, ttl, true)] - {1} == map[];
  }

  // ----- one request at the relay -----

  /** The call a request makes with an empty proof; whether proofs verify is the run's condition. */
  function CallFor(k: U64, r: Request): Call<Job>
    requires r.Valid()
  {
    Call(Key(Principal(r), Numbered(k)), RequestBytes(RequestFrame(Numbered(k), r, [])), Job(Numbered(k), r))
  }

  lemma CallForDecodes(k: U64, r: Request)
    requires r.Valid()
    ensures Decodes(CallFor(k, r))
  {
    hide RequestBytes, AuthenticatedBytes, ParseRequest, Principal, Numbered;
    var f := RequestFrame(Numbered(k), r, []);
    RequestExact(RequestBytes(f), DecodedRequest(f, AuthenticatedBytes(Numbered(k), r)));
  }

  /** Nothing in flight, the tables as given, and only lower identifiers recorded. */
  ghost predicate At(s: System<QueueDb, Job>, db: QueueDb, k: nat) {
    && s.phases == map[] && s.store.db == db
    && forall key :: key in s.store.records ==> FromBe(key.requestId) < k
  }

  /** A request that succeeds on the tables, served alone: the tables after it, and its answer. */
  lemma Serves(s: System<QueueDb, Job>, db: QueueDb, k: U64, r: Request, db': QueueDb, body: ResponseBody)
    returns (response: Bytes)
    requires r.Valid() && At(s, db, k) && ExecuteTx(db, r, 0) == (db', Success(body))
    ensures var t := Step(QueueEngine, s, Start(0, CallFor(k, r), 0, Works));
            && At(t, db', k + 1)
            && Reply(CallFor(k, r), Respond(response)) in t.replies
            && ParseResponse(response) == Success(ResponseFrame(Numbered(k), Completed(body)))
  {
    hide ExecuteTx, ParseResponse, RequestBytes, ResponseBytes, Step, Numbered;
    var c := CallFor(k, r);
    EngineEchoes(db, c.job, 0);
    var v := QueueEngine(db, c.job, 0);
    response := v.response;
    assert FromBe(c.key.requestId) == k;
    StartCommits(QueueEngine, s, 0, c, 0, db', response);
  }

  // ----- the run -----

  /** One act of a run. */
  ghost predicate Leads(u: Device, w: World, a: Act, w': World) {
    Enabled(u, w, a) && w' == Do(u, w, a)
  }

  lemma SignedIsAuthentic(u: Device, w: World, k: U64, r: Request)
    requires r.Valid() && Job(Numbered(k), r) in w.signed && Unforged(u, r)
    ensures Authentic(u, w, Start(0, CallFor(k, r), 0, Works))
  {
    hide RequestBytes, Numbered, Decodes, Unforged;
    CallForDecodes(k, r);
  }

  /** The relay serves a request that one of the two devices signed. */
  lemma ServesSigned(u: Device, w: World, db: QueueDb, k: U64, r: Request, db': QueueDb, body: ResponseBody)
    returns (response: Bytes, w': World)
    requires r.Valid() && At(w.relay, db, k) && ExecuteTx(db, r, 0) == (db', Success(body))
    requires Job(Numbered(k), r) in w.signed && Unforged(u, r)
    ensures Leads(u, w, AtRelay(Start(0, CallFor(k, r), 0, Works)), w')
    ensures w' == w.(relay := w'.relay) && At(w'.relay, db', k + 1)
    ensures Reply(CallFor(k, r), Respond(response)) in w'.relay.replies
    ensures ParseResponse(response) == Success(ResponseFrame(Numbered(k), Completed(body)))
  {
    hide ExecuteTx, ParseResponse, Step, Numbered, At, Authentic, QueueEngine, CallFor;
    SignedIsAuthentic(u, w, k, r);
    response := Serves(w.relay, db, k, r, db', body);
    w' := w.(relay := Step(QueueEngine, w.relay, Start(0, CallFor(k, r), 0, Works)));
  }

  lemma SignsSetup(u: Device, w: World, id: RequestId) returns (w': World)
    ensures Leads(u, w, SignOther(Job(id, Setup(u))), w')
    ensures w' == w.(signed := w.signed + {Job(id, Setup(u))})
  {
    w' := w.(signed := w.signed + {Job(id, Setup(u))});
  }

  lemma Writes(u: Device, w: World, id: RequestId, m: Id, c: Bytes, p: Bytes, ttl: U64) returns (w': World)
    requires |c| <= MAX_MESSAGE_BYTES && u.open(m, c) == Some(p) && m !in w.outbox
    ensures Leads(u, w, Compose(id, m, c, ttl, p), w')
    ensures w' == w.(signed := w.signed + {Job(id, Request.Send(u.queue, u.sender, m, c, ttl))},
                     outbox := w.outbox[m := p])
  {
    w' := Do(u, w, Compose(id, m, c, ttl, p));
  }

  lemma Asks(u: Device, w: World, id: RequestId) returns (w': World)
    requires w.stage.Idle?
    ensures Leads(u, w, Act.Fetch(id), w')
    ensures var job := Job(id, Request.Fetch(u.queue, u.recipient));
            w' == w.(signed := w.signed + {job}, stage := Fetching(job))
  {
    w' := Do(u, w, Act.Fetch(id));
  }

  /** The delivery opens, so a poll that receives it commits it and holds it. */
  lemma ReceivesDelivery(u: Device, w: World, call: Call<Job>, m: Id, c: Bytes, p: Bytes, ttl: U64, response: Bytes)
    returns (w': World)
    requires u.open(m, c) == Some(p) && w.stage == Fetching(call.job) && w.inbox == map[]
    requires Reply(call, Respond(response)) in w.relay.replies
    requires ParseResponse(response) ==
               Success(ResponseFrame(call.job.requestId, Completed(Fetched(Some(Delivery(m, c, ttl))))))
    ensures Leads(u, w, Receive(Reply(call, Respond(response)), true), w')
    ensures w' == w.(inbox := map[m := p], stage := Holding(m))
  {
    hide ParseResponse;
    w' := Do(u, w, Receive(Reply(call, Respond(response)), true));
  }

  lemma Confirms(u: Device, w: World, id: RequestId, m: Id) returns (w': World)
    requires w.stage == Holding(m)
    ensures Leads(u, w, Acknowledge(id), w')
    ensures w' == w.(signed := w.signed + {Job(id, Request.Ack(u.queue, u.recipient, m))}, stage := Idle)
  {
    w' := Do(u, w, Acknowledge(id));
  }

  /** A run from the start to this world. */
  ghost predicate Path(u: Device, ws: seq<World>, acts: seq<Act>, w: World) {
    Behaviour(u, ws, acts) && ws[|acts|] == w
  }

  lemma Extend(u: Device, ws: seq<World>, acts: seq<Act>, w: World, a: Act, w': World)
    requires Path(u, ws, acts, w) && Leads(u, w, a, w')
    ensures Path(u, ws + [w'], acts + [a], w')
  {
    hide Do, Enabled, Init;
  }

  lemma ExtendFourfold(u: Device, ws: seq<World>, acts: seq<Act>, w: World, a1: Act, w1: World, a2: Act, w2: World,
                       a3: Act, w3: World, a4: Act, w4: World)
    requires Path(u, ws, acts, w)
    requires Leads(u, w, a1, w1) && Leads(u, w1, a2, w2) && Leads(u, w2, a3, w3) && Leads(u, w3, a4, w4)
    ensures Path(u, ws + [w1, w2, w3, w4], acts + [a1, a2, a3, a4], w4)
  {
    hide Leads, Path;
    Extend(u, ws, acts, w, a1, w1);
    Extend(u, ws + [w1], acts + [a1], w1, a2, w2);
    Extend(u, ws + [w1] + [w2], acts + [a1] + [a2], w2, a3, w3);
    Extend(u, ws + [w1] + [w2] + [w3], acts + [a1] + [a2] + [a3], w3, a4, w4);
    assert ws + [w1] + [w2] + [w3] + [w4] == ws + [w1, w2, w3, w4];
    assert acts + [a1] + [a2] + [a3] + [a4] == acts + [a1, a2, a3, a4];
  }

  lemma StartPath(u: Device)
    ensures Path(u, [Init()], [], Init()) && At(Init().relay, EMPTY, 0)
    ensures Init().stage == Idle && Init().inbox == map[] && Init().outbox == map[]
  {
  }

  /** A queue is set up. */
  lemma SetupPart(u: Device) returns (ws: seq<World>, acts: seq<Act>, w: World)
    ensures Path(u, ws, acts, w) && |acts| == 2 && w.stage == Idle && w.inbox == map[] && w.outbox == map[]
    ensures At(w.relay, Table(u, map[]), 1)
  {
    hide ExecuteTx, Numbered, Table, Leads, Path, CallFor, ParseResponse, Init, At;
    StartPath(u);
    var w1 := SignsSetup(u, Init(), Numbered(0));
    Extend(u, [Init()], [], Init(), SignOther(Job(Numbered(0), Setup(u))), w1);
    Creates(u);
    var _, w2 := ServesSigned(u, w1, EMPTY, 0, Setup(u), Table(u, map[]), QueueCreated(false));
    ws, acts, w := [Init()] + [w1], [] + [SignOther(Job(Numbered(0), Setup(u)))], w2;
    Extend(u, ws, acts, w1, AtRelay(Start(0, CallFor(0, Setup(u)), 0, Works)), w2);
    ws, acts := ws + [w2], acts + [AtRelay(Start(0, CallFor(0, Setup(u)), 0, Works))];
  }

  /** The message is written and accepted. */
  lemma SendPart(u: Device, m: Id, c: Bytes, p: Bytes, ttl: U64) returns (ws: seq<World>, acts: seq<Act>, w: World)
    requires |c| <= MAX_MESSAGE_BYTES && ttl > 0 && u.open(m, c) == Some(p)
    ensures Path(u, ws, acts, w) && |acts| == 4 && w.stage == Idle && w.inbox == map[]
    ensures At(w.relay, Table(u, map[1 := Message(u, m, c, ttl, false)]), 2)
  {
    hide ExecuteTx, Numbered, Table, Message, Leads, Path, CallFor, ParseResponse, At;
    var send := Request.Send(u.queue, u.sender, m, c, ttl);
    ws, acts, w := SetupPart(u);
    var w3 := Writes(u, w, Numbered(1), m, c, p, ttl);
    Extend(u, ws, acts, w, Compose(Numbered(1), m, c, ttl, p), w3);
    ws, acts := ws + [w3], acts + [Compose(Numbered(1), m, c, ttl, p)];
    Sends(u, m, c, ttl);
    var _, w4 := ServesSigned(u, w3, Table(u, map[]), 1, send, Table(u, map[1 := Message(u, m, c, ttl, false)]),
                              Sent(false));
    Extend(u, ws, acts, w3, AtRelay(Start(0, CallFor(1, send), 0, Works)), w4);
    ws, acts, w := ws + [w4], acts + [AtRelay(Start(0, CallFor(1, send), 0, Works))], w4;
  }

  /** The message is fetched and committed, and its ACK is signed; the row stays meanwhile. */
  lemma FetchPart(u: Device, ws: seq<World>, acts: seq<Act>, w: World, m: Id, c: Bytes, p: Bytes, ttl: U64)
    returns (ws': seq<World>, acts': seq<Act>, w': World)
    requires |c| <= MAX_MESSAGE_BYTES && ttl > 0 && u.open(m, c) == Some(p) && w.stage == Idle && w.inbox == map[]
    requires Path(u, ws, acts, w) && At(w.relay, Table(u, map[1 := Message(u, m, c, ttl, false)]), 2)
    ensures Path(u, ws', acts', w') && |acts'| == |acts| + 4 && |ws'| == |ws| + 4 && ws <= ws'
    ensures forall n :: |ws| <= n < |ws'| ==> Holds(u, ws'[n], m, c, ttl)
    ensures At(w'.relay, Table(u, map[1 := Message(u, m, c, ttl, true)]), 3)
    ensures w'.inbox == map[m := p] && Job(Numbered(3), Request.Ack(u.queue, u.recipient, m)) in w'.signed
  {
    hide ExecuteTx, Numbered, Table, Message, Leads, Path, RequestBytes, ParseResponse;
    var fetch := Request.Fetch(u.queue, u.recipient);
    var w1 := Asks(u, w, Numbered(2));
    Fetches(u, m, c, ttl);
    var response, w2 := ServesSigned(u, w1, Table(u, map[1 := Message(u, m, c, ttl, false)]), 2, fetch,
                                     Table(u, map[1 := Message(u, m, c, ttl, true)]),
                                     Fetched(Some(Delivery(m, c, ttl))));
    var w3 := ReceivesDelivery(u, w2, CallFor(2, fetch), m, c, p, ttl, response);
    w' := Confirms(u, w3, Numbered(3), m);
    hide At, CallFor;
    var a1, a2 := Act.Fetch(Numbered(2)), AtRelay(Start(0, CallFor(2, fetch), 0, Works));
    var a3, a4 := Receive(Reply(CallFor(2, fetch), Respond(response)), true), Acknowledge(Numbered(3));
    ExtendFourfold(u, ws, acts, w, a1, w1, a2, w2, a3, w3, a4, w');
    ws', acts' := ws + [w1, w2, w3, w'], acts + [a1, a2, a3, a4];
  }

  /** The message is in row 1, delivered or not. */
  ghost predicate Holds(u: Device, w: World, m: Id, c: Bytes, ttl: U64) {
    exists d :: w.relay.store.db == Table(u, map[1 := Message(u, m, c, ttl, d)])
  }

  lemma HoldsKeeps(u: Device, w: World, w': World, m: Id, c: Bytes, ttl: U64)
    requires Holds(u, w, m, c, ttl) && Holds(u, w', m, c, ttl)
    ensures 1 in w.relay.store.db.messages && Kept(w.relay.store.db, w'.relay.store.db, 1)
  {
    hide Cell;
  }

  lemma AckAccounts(u: Device, w: World, m: Id, c: Bytes, p: Bytes, ttl: U64)
    requires w.relay.store.db == Table(u, map[1 := Message(u, m, c, ttl, true)]) && w.inbox == map[m := p]
             && u.open(m, c) == Some(p)
    requires Job(Numbered(3), Request.Ack(u.queue, u.recipient, m)) in w.signed
    ensures Accounted(u, w, AtRelay(Start(0, CallFor(3, Request.Ack(u.queue, u.recipient, m)), 0, Works)), 1)
  {
    hide Numbered, RequestBytes, Cell;
    var row := w.relay.store.db.messages[1];
    assert row.id == m && row.payload == c;
    assert m in w.inbox && w.inbox[m] == p;
  }

  /** Every message whose ciphertext opens has a run in which it is sent, fetched, committed to the inbox
      and acknowledged: it is in the queue, and it leaves at the last act by the ACK of a committed message. */
  lemma MessageIsDelivered(u: Device, m: Id, c: Bytes, p: Bytes, ttl: U64) returns (ws: seq<World>, acts: seq<Act>)
    requires |c| <= MAX_MESSAGE_BYTES && ttl > 0 && u.open(m, c) == Some(p)
    ensures Behaviour(u, ws, acts) && |acts| == 9
    ensures Configured(u, ws[4].relay.store.db) && Holds(u, ws[4], m, c, ttl)
    ensures 1 in ws[4].relay.store.db.messages && Stays(ws, 1, 4, 8)
    ensures 1 in ws[8].relay.store.db.messages && Accounted(u, ws[8], acts[8], 1) && ws[8].inbox == map[m := p]
    ensures ws[9].relay.store.db.messages == map[]
  {
    hide ExecuteTx, Numbered, Cell, Accounted, Leads, CallFor, Do, Enabled, Init, ParseResponse;
    var ack := Request.Ack(u.queue, u.recipient, m);
    var ws4, acts4, w4 := SendPart(u, m, c, p, ttl);
    var ws8, acts8, w8 := FetchPart(u, ws4, acts4, w4, m, c, p, ttl);
    Acknowledges(u, m, c, ttl);
    var _, w9 := ServesSigned(u, w8, Table(u, map[1 := Message(u, m, c, ttl, true)]), 3, ack, Table(u, map[]), Acked);
    AckAccounts(u, w8, m, c, p, ttl);
    Extend(u, ws8, acts8, w8, AtRelay(Start(0, CallFor(3, ack), 0, Works)), w9);
    ws, acts := ws8 + [w9], acts8 + [AtRelay(Start(0, CallFor(3, ack), 0, Works))];
    assert Holds(u, ws[4], m, c, ttl);
    forall n | 4 <= n <= 8
      ensures 1 in ws[4].relay.store.db.messages && Kept(ws[4].relay.store.db, ws[n].relay.store.db, 1)
    {
      assert Holds(u, ws[n], m, c, ttl);
      HoldsKeeps(u, ws[4], ws[n], m, c, ttl);
    }
  }
}
