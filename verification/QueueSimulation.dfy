/** The durable relay answers every command exactly as the in-memory relay does.

    The two are not equal step by step: a rejected command keeps its pruning of expired messages in
    memory and rolls it back in the database. They are equal after pruning at the latest time seen,
    which is enough as long as relay time does not go back. */
module QueueSimulation {
  import opened Base
  import opened QueueCodec
  import opened Relay
  import opened DurableQueue

  // ----- the messages of a queue, read from the table in rowid order -----

  ghost predicate Increasing(ks: seq<nat>) {
    forall i, j :: 0 <= i < j < |ks| ==> ks[i] < ks[j]
  }

  /** The elements of a set in increasing order. */
  function Sorted(s: set<nat>): (ks: seq<nat>)
    ensures Increasing(ks) && |ks| == |s|
    ensures forall k :: k in ks <==> k in s
  {
    if s == {} then []
    else
      var m := MaxKey(s);
      Sorted(s - {m}) + [m]
  }

  lemma HeadIsMember(ks: seq<nat>)
    ensures ks != [] ==> ks[0] in ks && ks[|ks| - 1] in ks
  {
  }

  lemma IncreasingLast(ks: seq<nat>)
    requires Increasing(ks) && ks != []
    ensures forall k :: k in ks ==> k <= ks[|ks| - 1]
    ensures forall k :: k in ks[..|ks| - 1] <==> k in ks && k != ks[|ks| - 1]
  {
  }

  lemma {:induction false} IncreasingUnique(a: seq<nat>, b: seq<nat>)
    requires Increasing(a) && Increasing(b)
    requires forall k :: k in a <==> k in b
    ensures a == b
    decreases |a|
  {
    hide Increasing;
    HeadIsMember(a);
    HeadIsMember(b);
    if a != [] {
      var m, n := |a| - 1, |b| - 1;
      IncreasingLast(a);
      IncreasingLast(b);
      assert a[m] == b[n];
      IncreasingInit(a);
      IncreasingInit(b);
      forall k ensures k in a[..m] <==> k in b[..n] {
        assert k in a[..m] <==> k in a && k != a[m];
      }
      IncreasingUnique(a[..m], b[..n]);
      assert a == a[..m] + [a[m]] && b == b[..n] + [b[n]];
    }
  }

  lemma IncreasingInit(ks: seq<nat>)
    requires Increasing(ks) && ks != []
    ensures Increasing(ks[..|ks| - 1])
  {
  }

  function RowMessage(row: MessageRow): Message {
    Message(row.id, row.payload, Value(row.expiresAt), row.delivered)
  }

  function MessagesAt(rows: map<nat, MessageRow>, ks: seq<nat>): (ms: seq<Message>)
    requires forall k :: k in ks ==> k in rows
    ensures |ms| == |ks|
    ensures forall i :: 0 <= i < |ks| ==> ms[i] == RowMessage(rows[ks[i]])
  {
    seq(|ks|, i requires 0 <= i < |ks| => RowMessage(rows[ks[i]]))
  }

  /** The contents of queue q in the database. */
  function Stored(db: QueueDb, q: Id): seq<Message> {
    MessagesAt(db.messages, Sorted(RowsOf(db, q)))
  }

  // ----- the simulation relation -----

  ghost predicate Corresponds(qs: Queues, db: QueueDb, t: U64, q: Id) {
    && (q in qs <==> q in db.queues)
    && (q in qs ==>
          && ReadQueue(db, q) == Success(qs[q].config)
          && Live(qs[q].messages, t) == Live(Stored(db, q), t))
  }

  /** Equal after pruning at time t. Every message row belongs to a queue row. */
  ghost predicate Matches(qs: Queues, db: QueueDb, t: U64) {
    && (forall q: Id :: Corresponds(qs, db, t, q))
    && (forall k :: k in db.messages ==> db.messages[k].queue in db.queues)
  }

  // ----- expiry -----

  lemma {:induction false} LiveTwice(ms: seq<Message>, t: U64, now: U64)
    requires t <= now
    ensures Live(Live(ms, t), now) == Live(ms, now)
  {
    if ms != [] {
      var n := |ms| - 1;
      LiveTwice(ms[..n], t, now);
      if ms[n].expiresAt > t {
        assert (Live(ms[..n], t) + [ms[n]])[..|Live(ms[..n], t)|] == Live(ms[..n], t);
      }
    }
  }

  /** The listed keys whose rows are alive. */
  function LiveKeys(rows: map<nat, MessageRow>, ks: seq<nat>, now: U64): (r: seq<nat>)
    requires forall k :: k in ks ==> k in rows
    ensures forall k :: k in r ==> k in ks && k in rows && Value(rows[k].expiresAt) > now
  {
    if ks == [] then []
    else
      var n := |ks| - 1;
      var before := LiveKeys(rows, ks[..n], now);
      if Value(rows[ks[n]].expiresAt) > now then before + [ks[n]] else before
  }

  lemma {:induction false} LiveKeysComplete(rows: map<nat, MessageRow>, ks: seq<nat>, now: U64)
    requires forall k :: k in ks ==> k in rows
    requires Increasing(ks)
    ensures Increasing(LiveKeys(rows, ks, now))
    ensures forall k :: k in ks && Value(rows[k].expiresAt) > now ==> k in LiveKeys(rows, ks, now)
  {
    hide Value;
    if ks != [] {
      var n := |ks| - 1;
      LiveKeysComplete(rows, ks[..n], now);
      var before := LiveKeys(rows, ks[..n], now);
      forall i | 0 <= i < |before| ensures before[i] < ks[n] {
        assert before[i] in ks[..n];
      }
      assert forall k :: k in ks ==> k in ks[..n] || k == ks[n];
    }
  }

  lemma {:induction false} LiveOfMessagesAt(rows: map<nat, MessageRow>, ks: seq<nat>, now: U64)
    requires forall k :: k in ks ==> k in rows
    ensures Live(MessagesAt(rows, ks), now) == MessagesAt(rows, LiveKeys(rows, ks, now))
  {
    hide Value, MessagesAt, Live;
    if ks == [] {
      LiveOfNone(rows, now);
    } else {
      var n := |ks| - 1;
      LiveOfMessagesAt(rows, ks[..n], now);
      assert ks == ks[..n] + [ks[n]];
      MessagesAtAppend(rows, ks[..n], ks[n]);
      MessagesAtAppend(rows, LiveKeys(rows, ks[..n], now), ks[n]);
      LiveAppend(MessagesAt(rows, ks[..n]), RowMessage(rows[ks[n]]), now);
      assert LiveKeys(rows, ks, now)
             == if Value(rows[ks[n]].expiresAt) > now then LiveKeys(rows, ks[..n], now) + [ks[n]]
                else LiveKeys(rows, ks[..n], now);
    }
  }

  lemma LiveOfNone(rows: map<nat, MessageRow>, now: U64)
    ensures MessagesAt(rows, []) == [] && Live([], now) == []
  {
  }

  lemma MessagesAtAppend(rows: map<nat, MessageRow>, ks: seq<nat>, k: nat)
    requires k in rows && forall j :: j in ks ==> j in rows
    ensures MessagesAt(rows, ks + [k]) == MessagesAt(rows, ks) + [RowMessage(rows[k])]
  {
  }

  /** No row outside queue q was added, removed or changed. */
  ghost predicate OthersKept(db: QueueDb, db': QueueDb, q: Id) {
    && (forall k :: k in db.messages && db.messages[k].queue != q ==>
        k in db'.messages && db'.messages[k] == db.messages[k])
    && (forall k :: k in db'.messages && db'.messages[k].queue != q ==>
        k in db.messages && db.messages[k] == db'.messages[k])
  }

  /** Queue q holds the messages ms, in the rows ks. */
  ghost predicate Holds(db: QueueDb, q: Id, ks: seq<nat>, ms: seq<Message>) {
    && Increasing(ks) && |ms| == |ks|
    && (forall k :: k in ks <==> k in db.messages && db.messages[k].queue == q)
    && (forall i :: 0 <= i < |ks| ==> ks[i] in db.messages && ms[i] == RowMessage(db.messages[ks[i]]))
  }

  lemma StoredHolds(db: QueueDb, q: Id)
    ensures Holds(db, q, Sorted(RowsOf(db, q)), Stored(db, q))
  {
    hide Sorted;
    var ks := Sorted(RowsOf(db, q));
    assert forall i :: 0 <= i < |ks| ==> ks[i] in ks;
  }

  lemma HoldsStored(db: QueueDb, q: Id, ks: seq<nat>, ms: seq<Message>)
    requires Holds(db, q, ks, ms)
    ensures Stored(db, q) == ms
  {
    hide Sorted;
    IncreasingUnique(ks, Sorted(RowsOf(db, q)));
  }

  lemma OthersStored(db: QueueDb, db': QueueDb, q: Id, p: Id)
    requires OthersKept(db, db', q) && p != q
    ensures Stored(db', p) == Stored(db, p)
  {
    hide Sorted, RowMessage;
    StoredHolds(db, p);
    hide Stored;
    var ks := Sorted(RowsOf(db, p));
    assert forall i :: 0 <= i < |ks| ==> ks[i] in ks;
    assert Holds(db', p, ks, Stored(db, p));
    HoldsStored(db', p, ks, Stored(db, p));
  }

  /** Deleting the expired rows of a queue prunes its contents and touches no other queue. */
  lemma DiscardExpiredPrunes(db: QueueDb, q: Id, now: U64)
    ensures var d := DiscardExpired(db, q, now);
            Stored(d, q) == Live(Stored(db, q), now) && OthersKept(db, d, q) && d.queues == db.queues
  {
    hide Sorted, Live, Value, LiveKeys, DiscardExpired, RowMessage, Holds, Stored;
    var d := DiscardExpired(db, q, now);
    DiscardKeepsLive(db, q, now);
    var ks := Sorted(RowsOf(db, q));
    var live := LiveKeys(db.messages, ks, now);
    LiveKeysComplete(db.messages, ks, now);
    LiveOfMessagesAt(db.messages, ks, now);
    assert Stored(db, q) == MessagesAt(db.messages, ks) by {
      StoredReads(db, q);
    }
    LiveHolds(db, d, q, ks, live, now);
    HoldsStored(d, q, live, MessagesAt(db.messages, live));
  }

  lemma StoredReads(db: QueueDb, q: Id)
    ensures Stored(db, q) == MessagesAt(db.messages, Sorted(RowsOf(db, q)))
  {
  }

  lemma LiveHolds(db: QueueDb, d: QueueDb, q: Id, ks: seq<nat>, live: seq<nat>, now: U64)
    requires Increasing(live)
    requires forall k :: k in ks <==> k in RowsOf(db, q)
    requires forall k :: k in live <==> k in ks && k in db.messages && Value(db.messages[k].expiresAt) > now
    requires forall k :: k in d.messages ==> k in db.messages && d.messages[k] == db.messages[k]
    requires forall k :: k in db.messages ==>
               (k in d.messages <==> db.messages[k].queue != q || Value(db.messages[k].expiresAt) > now)
    ensures Holds(d, q, live, MessagesAt(db.messages, live))
  {
    hide Value, RowMessage, Increasing;
    assert forall i :: 0 <= i < |live| ==> live[i] in live;
  }

  lemma DiscardKeepsLive(db: QueueDb, q: Id, now: U64)
    ensures var d := DiscardExpired(db, q, now);
            && d.queues == db.queues
            && (forall k :: k in d.messages ==> k in db.messages && d.messages[k] == db.messages[k])
            && (forall k :: k in db.messages ==>
                  (k in d.messages <==> db.messages[k].queue != q || Value(db.messages[k].expiresAt) > now))
  {
    hide BytewiseLess;
    var d := DiscardExpired(db, q, now);
    forall k | k in db.messages
      ensures k in d.messages <==> db.messages[k].queue != q || Value(db.messages[k].expiresAt) > now
    {
      BytewiseLessIsNumeric(Cell(now), db.messages[k].expiresAt);
    }
  }

  // ----- each command on a table that holds exactly the queue's messages -----

  lemma FirstIsHead(db: QueueDb, q: Id, ks: seq<nat>, ms: seq<Message>)
    requires Holds(db, q, ks, ms)
    ensures FirstOf(RowsOf(db, q)) == if ms == [] then None else Some(ks[0])
  {
    hide RowMessage;
    assert forall k :: k in RowsOf(db, q) <==> k in ks;
    if ms == [] {
      assert RowsOf(db, q) == {};
    } else {
      assert ks[0] in RowsOf(db, q);
      assert forall k :: k in ks ==> ks[0] <= k;
    }
  }

  lemma CountIsLength(db: QueueDb, q: Id)
    ensures |RowsOf(db, q)| == |Stored(db, q)|
  {
  }

  lemma FindsTheSameMessage(db: QueueDb, q: Id, ks: seq<nat>, ms: seq<Message>, id: Id)
    requires Holds(db, q, ks, ms) && Unique(ms)
    ensures match FirstOf(RowsWithId(db, q, id))
            case None => IndexOf(ms, id).None?
            case Some(k) => var i := IndexOf(ms, id); i.Some? && ms[i.value].payload == db.messages[k].payload
  {
    hide IndexOf;
    var found := FirstOf(RowsWithId(db, q, id));
    if found.Some? {
      assert found.value in ks;
      var i :| 0 <= i < |ks| && ks[i] == found.value;
      assert ms[i].id == id;
    } else {
      forall i | 0 <= i < |ms| ensures ms[i].id != id {
        assert ks[i] in ks;
        assert ks[i] !in RowsWithId(db, q, id);
      }
    }
  }

  lemma OfferSimulates(db: QueueDb, config: Config, q: Id, id: Id, payload: Bytes, now: U64, ttl: U64)
    requires Unique(Stored(db, q))
    ensures var (db', b) := OfferTx(db, config, q, id, payload, now, ttl);
            var (ms, a) := Offer(config, Stored(db, q), id, payload, now, ttl);
            a == b && Stored(db', q) == ms && db'.queues == db.queues && OthersKept(db, db', q)
  {
    hide FirstOf, IndexOf, Sorted, Stored, NextRow, Unique;
    StoredHolds(db, q);
    CountIsLength(db, q);
    var ks, ms := Sorted(RowsOf(db, q)), Stored(db, q);
    FindsTheSameMessage(db, q, ks, ms, id);
    hide RowsWithId, RowsOf;
    var (db', b) := OfferTx(db, config, q, id, payload, now, ttl);
    if b == Success(Sent(false)) {
      InsertHolds(db, q, ks, ms, MessageRow(q, id, payload, Cell(now + ttl), false));
    }
  }

  lemma InsertHolds(db: QueueDb, q: Id, ks: seq<nat>, ms: seq<Message>, row: MessageRow)
    requires Holds(db, q, ks, ms) && row.queue == q
    ensures var db' := db.(messages := db.messages[NextRow(db) := row]);
            Stored(db', q) == ms + [RowMessage(row)] && OthersKept(db, db', q)
  {
    hide Stored, RowMessage;
    var n := NextRow(db);
    var db' := db.(messages := db.messages[n := row]);
    assert forall i :: 0 <= i < |ks| ==> ks[i] < n;
    assert Holds(db', q, ks + [n], ms + [RowMessage(row)]);
    HoldsStored(db', q, ks + [n], ms + [RowMessage(row)]);
  }

  lemma DeliverSimulates(db: QueueDb, q: Id)
    ensures var (db', b) := DeliverTx(db, q);
            var (ms, a) := Deliver(Stored(db, q));
            a == b && Stored(db', q) == ms && db'.queues == db.queues && OthersKept(db, db', q)
  {
    hide FirstOf, Sorted, Stored, RowsOf;
    StoredHolds(db, q);
    var ks, ms := Sorted(RowsOf(db, q)), Stored(db, q);
    FirstIsHead(db, q, ks, ms);
    hide Increasing;
    var (db', b) := DeliverTx(db, q);
    if ms != [] {
      MarkHolds(db, q, ks, ms);
    }
  }

  lemma MarkHolds(db: QueueDb, q: Id, ks: seq<nat>, ms: seq<Message>)
    requires Holds(db, q, ks, ms) && ms != []
    ensures var db' := db.(messages := db.messages[ks[0] := db.messages[ks[0]].(delivered := true)]);
            Stored(db', q) == ms[0 := ms[0].(delivered := true)] && OthersKept(db, db', q)
  {
    hide Stored, Value;
    var db' := db.(messages := db.messages[ks[0] := db.messages[ks[0]].(delivered := true)]);
    assert ks[0] in ks;
    assert Holds(db', q, ks, ms[0 := ms[0].(delivered := true)]);
    HoldsStored(db', q, ks, ms[0 := ms[0].(delivered := true)]);
  }

  lemma ConfirmSimulates(db: QueueDb, q: Id, id: Id)
    ensures var (db', b) := ConfirmTx(db, q, id);
            var (ms, a) := Confirm(Stored(db, q), id);
            a == b && Stored(db', q) == ms && db'.queues == db.queues && OthersKept(db, db', q)
  {
    hide FirstOf, Sorted, Stored, RowsOf;
    StoredHolds(db, q);
    var ks, ms := Sorted(RowsOf(db, q)), Stored(db, q);
    FirstIsHead(db, q, ks, ms);
    hide Increasing;
    var (db', b) := ConfirmTx(db, q, id);
    if b.Success? {
      RemoveHolds(db, q, ks, ms);
    }
  }

  lemma RemoveHolds(db: QueueDb, q: Id, ks: seq<nat>, ms: seq<Message>)
    requires Holds(db, q, ks, ms) && ms != []
    ensures var db' := db.(messages := db.messages - {ks[0]});
            Stored(db', q) == ms[1..] && OthersKept(db, db', q)
  {
    hide Stored, RowMessage;
    var db' := db.(messages := db.messages - {ks[0]});
    assert ks[0] in ks;
    forall k ensures k in ks[1..] <==> k in ks && k != ks[0] {
      assert ks == [ks[0]] + ks[1..];
    }
    assert Holds(db', q, ks[1..], ms[1..]);
    HoldsStored(db', q, ks[1..], ms[1..]);
  }

  // ----- one command -----

  /** Pruning further keeps a correspondence. */
  lemma CorrespondsLater(qs: Queues, db: QueueDb, t: U64, now: U64, q: Id)
    requires Corresponds(qs, db, t, q) && t <= now
    ensures Corresponds(qs, db, now, q)
  {
    if q in qs {
      LiveTwice(qs[q].messages, t, now);
      LiveTwice(Stored(db, q), t, now);
    }
  }

  lemma MatchesLater(qs: Queues, db: QueueDb, t: U64, now: U64)
    requires Matches(qs, db, t) && t <= now
    ensures Matches(qs, db, now)
  {
    forall q: Id ensures Corresponds(qs, db, now, q) {
      CorrespondsLater(qs, db, t, now, q);
    }
  }

  lemma MatchesQueue(qs: Queues, db: QueueDb, t: U64, q: Id)
    requires Matches(qs, db, t)
    ensures q in qs <==> q in db.queues
    ensures q in qs ==> ReadQueue(db, q) == Success(qs[q].config)
  {
    assert Corresponds(qs, db, t, q);
  }

  /** A queue whose contents were changed on both sides alike; the others untouched on both. */
  lemma Transfer(qs: Queues, db: QueueDb, q: Id, ms: seq<Message>, db': QueueDb, now: U64)
    requires Matches(qs, db, now) && q in qs
    requires db'.queues == db.queues && Stored(db', q) == ms && OthersKept(db, db', q)
    ensures Matches(qs[q := Queue(qs[q].config, ms)], db', now)
  {
    hide Live, Stored;
    MatchesQueue(qs, db, now, q);
    var qs' := qs[q := Queue(qs[q].config, ms)];
    forall p: Id ensures Corresponds(qs', db', now, p) {
      assert Corresponds(qs, db, now, p);
      if p != q {
        OthersStored(db, db', q, p);
      }
    }
  }

  /** On one side only the pruning was kept. */
  lemma TransferPruned(qs: Queues, db: QueueDb, q: Id, now: U64)
    requires Matches(qs, db, now) && q in qs
    ensures Matches(qs[q := Queue(qs[q].config, Live(qs[q].messages, now))], db, now)
  {
    hide Live, Stored;
    LiveTwice(qs[q].messages, now, now);
    var qs' := qs[q := Queue(qs[q].config, Live(qs[q].messages, now))];
    forall p: Id ensures Corresponds(qs', db, now, p) {
      assert Corresponds(qs, db, now, p);
    }
  }

  /** The table after the expired rows of q are gone holds exactly what memory holds. */
  lemma PrunedTable(qs: Queues, db: QueueDb, q: Id, now: U64)
    requires Matches(qs, db, now) && Sound(qs) && q in qs
    ensures var d := DiscardExpired(db, q, now);
            && Stored(d, q) == Live(qs[q].messages, now) && Unique(Stored(d, q))
            && d.queues == db.queues && OthersKept(db, d, q)
  {
    hide Stored, Live;
    assert Corresponds(qs, db, now, q);
    DiscardExpiredPrunes(db, q, now);
    LiveSound(qs[q].config, qs[q].messages, now);
  }

  lemma OthersKeptTwice(a: QueueDb, b: QueueDb, c: QueueDb, q: Id)
    requires OthersKept(a, b, q) && OthersKept(b, c, q)
    ensures OthersKept(a, c, q)
  {
  }

  /** The command answers the same on both sides and leaves them matching. */
  ghost predicate Agrees(qs: Queues, db: QueueDb, r: Request, now: U64) {
    var (qs', a) := Apply(qs, r, now);
    var (db', b) := Durably(db, ApplyTx(db, r, now));
    a == b && Matches(qs', db', now)
  }

  lemma SendAgrees(qs: Queues, db: QueueDb, r: Request, now: U64)
    requires Matches(qs, db, now) && Sound(qs) && r.Send? && r.queueId in qs
    ensures Agrees(qs, db, r, now)
  {
    hide Stored, Live, OfferTx, Sound, Unique, DiscardExpired, Matches, IndexOf, OthersKept;
    var q, config := r.queueId, qs[r.queueId].config;
    MatchesQueue(qs, db, now, q);
    PrunedTable(qs, db, q, now);
    var d := DiscardExpired(db, q, now);
    OfferSimulates(d, config, q, r.messageId, r.payload, now, r.ttl);
    var (db', b) := OfferTx(d, config, q, r.messageId, r.payload, now, r.ttl);
    OthersKeptTwice(db, d, db', q);
    if b.Success? {
      Transfer(qs, db, q, Stored(db', q), db', now);
    } else {
      TransferPruned(qs, db, q, now);
    }
  }

  lemma FetchAgrees(qs: Queues, db: QueueDb, r: Request, now: U64)
    requires Matches(qs, db, now) && Sound(qs) && r.Fetch? && r.queueId in qs
    ensures Agrees(qs, db, r, now)
  {
    hide Stored, Live, DeliverTx, Sound, Unique, DiscardExpired, Matches, OthersKept;
    var q := r.queueId;
    MatchesQueue(qs, db, now, q);
    PrunedTable(qs, db, q, now);
    var d := DiscardExpired(db, q, now);
    DeliverSimulates(d, q);
    OthersKeptTwice(db, d, DeliverTx(d, q).0, q);
    Transfer(qs, db, q, Stored(DeliverTx(d, q).0, q), DeliverTx(d, q).0, now);
  }

  lemma AckAgrees(qs: Queues, db: QueueDb, r: Request, now: U64)
    requires Matches(qs, db, now) && Sound(qs) && r.Ack? && r.queueId in qs
    ensures Agrees(qs, db, r, now)
  {
    hide Stored, Live, ConfirmTx, Sound, Unique, DiscardExpired, Matches, OthersKept;
    var q := r.queueId;
    MatchesQueue(qs, db, now, q);
    PrunedTable(qs, db, q, now);
    var d := DiscardExpired(db, q, now);
    ConfirmSimulates(d, q, r.messageId);
    var (db', b) := ConfirmTx(d, q, r.messageId);
    OthersKeptTwice(db, d, db', q);
    if b.Success? {
      Transfer(qs, db, q, Stored(db', q), db', now);
    } else {
      TransferPruned(qs, db, q, now);
    }
  }

  lemma CreateAgrees(qs: Queues, db: QueueDb, r: Request, now: U64)
    requires Matches(qs, db, now) && Sound(qs) && r.CreateQueue? && r.queueId !in qs && r.maxMessages > 0
             && r.maxMessageBytes > 0
    ensures Agrees(qs, db, r, now)
  {
    hide Live, Sorted;
    var q := r.queueId;
    MatchesQueue(qs, db, now, q);
    var (qs', a) := Apply(qs, r, now);
    var (db', b) := Durably(db, ApplyTx(db, r, now));
    forall p: Id ensures Corresponds(qs', db', now, p) {
      assert Corresponds(qs, db, now, p);
      assert RowsOf(db', p) == RowsOf(db, p);
      if p == q {
        assert RowsOf(db', q) == {};
        assert Stored(db', q) == [];
      }
    }
  }

  lemma DeleteAgrees(qs: Queues, db: QueueDb, r: Request, now: U64)
    requires Matches(qs, db, now) && Sound(qs) && r.DeleteQueue? && r.queueId in qs
             && r.recipient == qs[r.queueId].config.recipient
    ensures Agrees(qs, db, r, now)
  {
    hide Live, Stored;
    var q := r.queueId;
    MatchesQueue(qs, db, now, q);
    var (qs', a) := Apply(qs, r, now);
    var (db', b) := Durably(db, ApplyTx(db, r, now));
    assert OthersKept(db, db', q);
    forall p: Id ensures Corresponds(qs', db', now, p) {
      assert Corresponds(qs, db, now, p);
      if p != q {
        OthersStored(db, db', q, p);
      }
    }
  }

  /** One command at a time not before the last: same answer, and the states match again. */
  lemma StepAgrees(qs: Queues, db: QueueDb, t: U64, r: Request, now: U64)
    requires Matches(qs, db, t) && Sound(qs) && t <= now
    ensures Agrees(qs, db, r, now)
  {
    hide Matches, Live, OfferTx, DeliverTx, ConfirmTx, Offer, Deliver, Confirm, DiscardExpired;
    MatchesLater(qs, db, t, now);
    var q := r.queueId;
    MatchesQueue(qs, db, now, q);
    match r
    case CreateQueue(_, _, _, m, n) =>
      if q !in qs && m > 0 && n > 0 {
        CreateAgrees(qs, db, r, now);
      }
    case Send(_, _, _, _, _) =>
      if q in qs {
        SendAgrees(qs, db, r, now);
      }
    case Fetch(_, _) =>
      if q in qs {
        FetchAgrees(qs, db, r, now);
      }
    case Ack(_, _, _) =>
      if q in qs {
        AckAgrees(qs, db, r, now);
      }
    case DeleteQueue(_, d) =>
      if q in qs && d == qs[q].config.recipient {
        DeleteAgrees(qs, db, r, now);
      }
  }

  // ----- every run -----

  /** The answers the in-memory relay gives, from empty. */
  function RelayAnswers(cmds: seq<Timed>): (r: seq<Answer>)
    ensures |r| == |cmds|
  {
    if cmds == [] then []
    else
      var n := |cmds| - 1;
      RelayAnswers(cmds[..n]) + [Apply(Run(map[], cmds[..n]), cmds[n].request, cmds[n].now).1]
  }

  function DurableRun(cmds: seq<Timed>): QueueDb {
    if cmds == [] then DurableQueue.EMPTY
    else
      var n := |cmds| - 1;
      var before := DurableRun(cmds[..n]);
      Durably(before, ApplyTx(before, cmds[n].request, cmds[n].now)).0
  }

  /** The answers the durable relay gives, from an empty database. */
  function DurableAnswers(cmds: seq<Timed>): (r: seq<Answer>)
    ensures |r| == |cmds|
  {
    if cmds == [] then []
    else
      var n := |cmds| - 1;
      var before := DurableRun(cmds[..n]);
      DurableAnswers(cmds[..n]) + [Durably(before, ApplyTx(before, cmds[n].request, cmds[n].now)).1]
  }

  ghost predicate ClockNeverGoesBack(cmds: seq<Timed>) {
    forall i, j :: 0 <= i < j < |cmds| ==> cmds[i].now <= cmds[j].now
  }

  /** For every command sequence under a clock that never goes back, both relays give the same answers. */
  lemma {:induction false} DurableRefinesRelay(cmds: seq<Timed>)
    requires ClockNeverGoesBack(cmds)
    ensures DurableAnswers(cmds) == RelayAnswers(cmds)
    ensures Matches(Run(map[], cmds), DurableRun(cmds), if cmds == [] then 0 else cmds[|cmds| - 1].now)
  {
    hide Apply, ApplyTx, Matches;
    if cmds == [] {
      EmptyMatches();
    } else {
      var n := |cmds| - 1;
      var init := cmds[..n];
      DurableRefinesRelay(init);
      RunSound(init);
      var last := if init == [] then 0 else init[n - 1].now;
      StepAgrees(Run(map[], init), DurableRun(init), last, cmds[n].request, cmds[n].now);
    }
  }

  lemma EmptyMatches()
    ensures Matches(map[], DurableQueue.EMPTY, 0)
  {
  }

  // ----- the condition on the clock is exact -----

  /** A run under a clock that behaves until its last two commands, which come at t and then at u. */
  ghost predicate EndsAt(cmds: seq<Timed>, t: U64, u: U64) {
    && |cmds| >= 2
    && ClockNeverGoesBack(cmds[..|cmds| - 2])
    && (forall i :: 0 <= i < |cmds| - 2 ==> cmds[i].now <= t && cmds[i].now <= u)
    && cmds[|cmds| - 2].now == t
    && cmds[|cmds| - 1].now == u
  }

  /** The state and answers after one more command. */
  lemma OneMore(cmds: seq<Timed>, c: Timed)
    ensures Run(map[], cmds + [c]) == Apply(Run(map[], cmds), c.request, c.now).0
    ensures DurableRun(cmds + [c]) == Durably(DurableRun(cmds), ApplyTx(DurableRun(cmds), c.request, c.now)).0
    ensures RelayAnswers(cmds + [c]) == RelayAnswers(cmds) + [Apply(Run(map[], cmds), c.request, c.now).1]
    ensures DurableAnswers(cmds + [c]) == DurableAnswers(cmds) + [ApplyTx(DurableRun(cmds), c.request, c.now).1]
  {
    hide Apply, ApplyTx;
    assert (cmds + [c])[..|cmds|] == cmds;
  }

  function Filled(b: Byte): (id: Id)
    ensures forall i :: 0 <= i < 32 ==> id[i] == b
  {
    seq(32, _ => b)
  }

  function SetUp(): Request { CreateQueue(Filled(0), Filled(0), Filled(0), 1, 1) }
  function ShortLived(): Request { Send(Filled(0), Filled(0), Filled(0), [], 1) }
  function Oversized(): Request { Send(Filled(0), Filled(0), Filled(1), [0, 0], 1) }
  function Collect(): Request { Fetch(Filled(0), Filled(0)) }

  /** A message sent at u with lifetime 1, an oversized SEND at t, and a FETCH back at u. */
  function BackstepRun(t: U64, u: U64): seq<Timed> {
    (([Timed(SetUp(), u)] + [Timed(ShortLived(), u)]) + [Timed(Oversized(), t)]) + [Timed(Collect(), u)]
  }

  lemma BackstepEnds(t: U64, u: U64)
    requires u < t
    ensures EndsAt(BackstepRun(t, u), t, u)
  {
    hide SetUp, ShortLived, Oversized, Collect;
    assert BackstepRun(t, u)[..2] == [Timed(SetUp(), u), Timed(ShortLived(), u)];
  }

  /** If the clock goes back from t to u, the rejected SEND at t has pruned memory but not the table. */
  lemma BackstepDiffers(t: U64, u: U64)
    requires u < t
    ensures EndsAt(BackstepRun(t, u), t, u)
    ensures RelayAnswers(BackstepRun(t, u)) != DurableAnswers(BackstepRun(t, u))
  {
    hide Apply, ApplyTx, SetUp, ShortLived, Oversized, Collect, EndsAt;
    BackstepEnds(t, u);
    var one := [Timed(SetUp(), u)];
    var two := one + [Timed(ShortLived(), u)];
    var three := two + [Timed(Oversized(), t)];
    assert [] + one == one;
    OneMore([], Timed(SetUp(), u));
    OneMore(one, Timed(ShortLived(), u));
    OneMore(two, Timed(Oversized(), t));
    OneMore(three, Timed(Collect(), u));
    BackstepMemory(t, u);
    BackstepTable(t, u);
    assert RelayAnswers(BackstepRun(t, u))[3] != DurableAnswers(BackstepRun(t, u))[3];
  }

  lemma SendToEmpty(c: Config, id: Id, u: U64)
    requires c.maxMessages == c.maxMessageBytes == 1 && u + 1 < U64_LIMIT
    ensures Offer(c, Live([], u), id, [], u, 1) == ([Message(id, [], u + 1, false)], Success(Sent(false)))
  {
    assert [] + [Message(id, [], u + 1, false)] == [Message(id, [], u + 1, false)];
  }

  lemma LiveSingleton(m: Message, t: U64)
    ensures Live([m], t) == if m.expiresAt > t then [m] else []
  {
    assert [m][..0] == [];
  }

  lemma BackstepMemory(t: U64, u: U64)
    requires u < t
    ensures var one := Apply(map[], SetUp(), u).0;
            var two := Apply(one, ShortLived(), u).0;
            var three := Apply(two, Oversized(), t).0;
            Apply(three, Collect(), u).1 == Success(Fetched(None))
  {
    hide Filled, Live, IndexOf;
    var A := Filled(0);
    var c, m := Config(A, A, 1, 1), Message(A, [], u + 1, false);
    SendToEmpty(c, A, u);
    LiveSingleton(m, t);
    hide Offer;
    var two := Apply(Apply(map[], SetUp(), u).0, ShortLived(), u).0;
    assert two == map[A := Queue(c, [m])];
    OversizedIsRefused(c, t);
    EmptyStaysEmpty(u);
  }

  lemma OversizedIsRefused(c: Config, t: U64)
    requires c.maxMessages == c.maxMessageBytes == 1
    ensures Offer(c, [], Filled(1), [0, 0], t, 1) == ([], Failure(MessageTooLarge))
  {
  }

  lemma EmptyStaysEmpty(u: U64)
    ensures Live([], u) == []
  {
  }

  /** A database with one queue and one message. */
  function OneMessage(u: U64): QueueDb
    requires u + 1 < U64_LIMIT
  {
    var A := Filled(0);
    QueueDb(map[A := QueueRow(A, A, Cell(1), Cell(1))], map[1 := MessageRow(A, A, [], Cell(u + 1), false)])
  }

  lemma BackstepSetUp(u: U64)
    requires u + 1 < U64_LIMIT
    ensures ApplyTx(DurableQueue.EMPTY, SetUp(), u).1.Success?
    ensures ApplyTx(ApplyTx(DurableQueue.EMPTY, SetUp(), u).0, ShortLived(), u) == (OneMessage(u), Success(Sent(false)))
  {
    hide BytewiseLess, FromBe, Be, FirstOf, Filled;
    var A := Filled(0);
    var one := ApplyTx(DurableQueue.EMPTY, SetUp(), u).0;
    assert DiscardExpired(one, A, u) == one;
    assert RowsWithId(one, A, A) == {} && RowsOf(one, A) == {};
  }

  lemma BackstepTable(t: U64, u: U64)
    requires u < t
    ensures var one := ApplyTx(DurableQueue.EMPTY, SetUp(), u).0;
            var two := ApplyTx(one, ShortLived(), u).0;
            && ApplyTx(DurableQueue.EMPTY, SetUp(), u).1.Success? && ApplyTx(one, ShortLived(), u).1.Success?
            && ApplyTx(two, Oversized(), t).1.Failure?
            && ApplyTx(two, Collect(), u).1 == Success(Fetched(Some(Delivery(Filled(0), [], u + 1))))
  {
    BackstepSetUp(u);
    hide BytewiseLess, FromBe, Be, FirstOf, Filled, SetUp, ShortLived, CreateTx, SendTx;
    var two := OneMessage(u);
    assert Filled(0)[0] != Filled(1)[0];
    OversizedFails(two, t);
    OneMessageIsFetched(u);
  }

  lemma OversizedFails(db: QueueDb, t: U64)
    requires ReadQueue(db, Filled(0)) == Success(Config(Filled(0), Filled(0), 1, 1))
    requires forall k :: k in db.messages ==> db.messages[k].id != Filled(1)
    ensures ApplyTx(db, Oversized(), t).1.Failure?
  {
    hide FirstOf, BytewiseLess;
    assert RowsWithId(DiscardExpired(db, Filled(0), t), Filled(0), Filled(1)) == {};
  }

  lemma OneMessageIsFetched(u: U64)
    requires u + 1 < U64_LIMIT
    ensures ApplyTx(OneMessage(u), Collect(), u).1 == Success(Fetched(Some(Delivery(Filled(0), [], u + 1))))
  {
    hide BytewiseLess, FromBe, Be, FirstOf, Filled;
    var A, two := Filled(0), OneMessage(u);
    DiscardKeepsLive(two, A, u);
    assert DiscardExpired(two, A, u) == two;
    hide DiscardExpired;
    assert RowsOf(two, A) == {1};
  }

  /** Going from time t to time u is harmless for every run exactly when t <= u. */
  lemma ClockConditionExact(t: U64, u: U64)
    ensures t <= u <==> forall cmds :: EndsAt(cmds, t, u) ==> DurableAnswers(cmds) == RelayAnswers(cmds)
  {
    if t <= u {
      forall cmds: seq<Timed> | EndsAt(cmds, t, u) ensures DurableAnswers(cmds) == RelayAnswers(cmds) {
        EndsAtInOrder(cmds, t, u);
        DurableRefinesRelay(cmds);
      }
    } else {
      BackstepDiffers(t, u);
    }
  }

  lemma EndsAtInOrder(cmds: seq<Timed>, t: U64, u: U64)
    requires EndsAt(cmds, t, u) && t <= u
    ensures ClockNeverGoesBack(cmds)
  {
    var init := cmds[..|cmds| - 2];
    assert forall i :: 0 <= i < |init| ==> init[i] == cmds[i];
  }
}
