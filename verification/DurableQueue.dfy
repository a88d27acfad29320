/** The SQLite-backed relay: one flat message table ordered by a reusable rowid, 8-byte big-endian
    cells, and a transaction per command that is discarded when the command is rejected. */
module DurableQueue {
  import opened Base
  import opened QueueCodec
  import opened Relay

  datatype QueueRow = QueueRow(sender: Id, recipient: Id, maxMessages: Blob8, maxMessageBytes: Blob8)

  datatype MessageRow = MessageRow(queue: Id, id: Id, payload: Bytes, expiresAt: Blob8, delivered: bool)

  /** Tables `queues` (by queue identifier) and `messages` (by rowid). */
  datatype QueueDb = QueueDb(queues: map<Id, QueueRow>, messages: map<nat, MessageRow>)

  const EMPTY := QueueDb(map[], map[])

  // ----- SQL primitives -----

  function Cell(n: U64): (b: Blob8)
    ensures FromBe(b) == n
  {
    assert Pow256(8) == U64_LIMIT;
    FromBeOfBe(n, 8);
    Be(n, 8)
  }

  function Value(b: Blob8): U64 {
    assert Pow256(8) == U64_LIMIT;
    FromBe(b)
  }

  ghost predicate Tops(s: set<nat>, m: nat) {
    m in s && forall k :: k in s ==> k <= m
  }

  lemma {:induction false} MaxExists(s: set<nat>)
    requires s != {}
    ensures exists m :: Tops(s, m)
  {
    var x :| x in s;
    var rest := s - {x};
    assert forall k :: k in s ==> k == x || k in rest;
    if rest == {} {
      assert Tops(s, x);
    } else {
      MaxExists(rest);
      var m :| Tops(rest, m);
      assert Tops(s, if m < x then x else m);
    }
  }

  function MaxKey(s: set<nat>): (m: nat)
    requires s != {}
    ensures m in s && forall k :: k in s ==> k <= m
  {
    MaxExists(s);
    var m :| m in s && forall k :: k in s ==> k <= m;
    m
  }

  lemma MinExists(s: set<nat>)
    requires s != {}
    ensures exists m :: m in s && forall k :: k in s ==> m <= k
  {
    var m :| m in s;
    while exists k :: k in s && k < m
      invariant m in s
      decreases m
    {
      var k :| k in s && k < m;
      m := k;
    }
    assert forall k :: k in s ==> m <= k;
  }

  /** ORDER BY ... LIMIT 1. */
  function FirstOf(s: set<nat>): (r: Option<nat>)
    ensures r.None? <==> s == {}
    ensures r.Some? ==> r.value in s && forall k :: k in s ==> r.value <= k
  {
    if s == {} then None
    else
      MinExists(s);
      var m :| m in s && forall k :: k in s ==> m <= k;
      Some(m)
  }

  function RowsOf(db: QueueDb, q: Id): set<nat> {
    set k | k in db.messages && db.messages[k].queue == q
  }

  function RowsWithId(db: QueueDb, q: Id, id: Id): set<nat> {
    set k | k in db.messages && db.messages[k].queue == q && db.messages[k].id == id
  }

  /** The rowid given to an insertion: one past the largest in the whole table. */
  function NextRow(db: QueueDb): (n: nat)
    ensures forall k :: k in db.messages ==> k < n
  {
    if db.messages.Keys == {} then 1 else MaxKey(db.messages.Keys) + 1
  }

  /** DELETE ... WHERE queue_id = q AND expires_at <= now, on cells compared byte by byte. */
  function DiscardExpired(db: QueueDb, q: Id, now: U64): QueueDb {
    db.(messages := map k | k in db.messages
        && (db.messages[k].queue != q || BytewiseLess(Cell(now), db.messages[k].expiresAt))
                    :: db.messages[k])
  }

  function ReadQueue(db: QueueDb, q: Id): Result<Config, RelayError> {
    if q !in db.queues then Failure(QueueNotFound)
    else
      var row := db.queues[q];
      if Value(row.maxMessages) == 0 || Value(row.maxMessageBytes) == 0 then Failure(StorageFault)
      else Success(Config(row.sender, row.recipient, Value(row.maxMessages), Value(row.maxMessageBytes)))
  }

  function AuthorizeRecipient(db: QueueDb, q: Id, recipient: Id): Result<(), RelayError> {
    var config :- ReadQueue(db, q);
    if config.recipient != recipient then Failure(Unauthorized) else Success(())
  }

  // ----- commands inside a transaction -----

  function CreateTx(db: QueueDb, q: Id, config: Config): (QueueDb, Answer)
    requires config.maxMessages < U64_LIMIT && config.maxMessageBytes < U64_LIMIT
  {
    if q in db.queues then
      var row := db.queues[q];
      (db, if row.sender == config.sender && row.recipient == config.recipient
              && Value(row.maxMessages) == config.maxMessages && Value(row.maxMessageBytes) == config.maxMessageBytes
           then Success(QueueCreated(true)) else Failure(QueueIdConflict))
    else
      var row := QueueRow(config.sender, config.recipient, Cell(config.maxMessages), Cell(config.maxMessageBytes));
      (db.(queues := db.queues[q := row]), Success(QueueCreated(false)))
  }

  function OfferTx(db: QueueDb, config: Config, q: Id, id: Id, payload: Bytes, now: U64, ttl: U64): (QueueDb, Answer) {
    match FirstOf(RowsWithId(db, q, id))
    case Some(k) => (db, if db.messages[k].payload == payload then Success(Sent(true)) else Failure(MessageIdConflict))
    case None =>
      if |payload| > config.maxMessageBytes then (db, Failure(MessageTooLarge))
      else if |RowsOf(db, q)| >= config.maxMessages then (db, Failure(QueueFull))
      else if now + ttl >= U64_LIMIT then (db, Failure(ExpiryOverflow))
      else
        var row := MessageRow(q, id, payload, Cell(now + ttl), false);
        (db.(messages := db.messages[NextRow(db) := row]), Success(Sent(false)))
  }

  function DeliverTx(db: QueueDb, q: Id): (QueueDb, Answer) {
    match FirstOf(RowsOf(db, q))
    case None => (db, Success(Fetched(None)))
    case Some(k) =>
      var row := db.messages[k];
      (db.(messages := db.messages[k := row.(delivered := true)]),
       Success(Fetched(Some(Delivery(row.id, row.payload, Value(row.expiresAt))))))
  }

  function ConfirmTx(db: QueueDb, q: Id, id: Id): (QueueDb, Answer) {
    match FirstOf(RowsOf(db, q))
    case None => (db, Failure(AckMismatch))
    case Some(k) =>
      if db.messages[k].id != id then (db, Failure(AckMismatch))
      else if !db.messages[k].delivered then (db, Failure(NotDelivered))
      else (db.(messages := db.messages - {k}), Success(Acked))
  }

  function SendTx(db: QueueDb, q: Id, sender: Id, id: Id, payload: Bytes, now: U64, ttl: U64): (QueueDb, Answer) {
    match ReadQueue(db, q)
    case Failure(e) => (db, Failure(e))
    case Success(config) =>
      if config.sender != sender then (db, Failure(Unauthorized))
      else OfferTx(DiscardExpired(db, q, now), config, q, id, payload, now, ttl)
  }

  function FetchTx(db: QueueDb, q: Id, recipient: Id, now: U64): (QueueDb, Answer) {
    match AuthorizeRecipient(db, q, recipient)
    case Failure(e) => (db, Failure(e))
    case Success(_) => DeliverTx(DiscardExpired(db, q, now), q)
  }

  function AcknowledgeTx(db: QueueDb, q: Id, recipient: Id, id: Id, now: U64): (QueueDb, Answer) {
    match AuthorizeRecipient(db, q, recipient)
    case Failure(e) => (db, Failure(e))
    case Success(_) => ConfirmTx(DiscardExpired(db, q, now), q, id)
  }

  /** Deleting a queue row cascades to its messages. */
  function DeleteTx(db: QueueDb, q: Id, recipient: Id): (QueueDb, Answer) {
    match AuthorizeRecipient(db, q, recipient)
    case Failure(e) => (db, Failure(e))
    case Success(_) =>
      (QueueDb(db.queues - {q}, map k | k in db.messages && db.messages[k].queue != q :: db.messages[k]),
       Success(QueueDeleted))
  }

  function ApplyTx(db: QueueDb, r: Request, now: U64): (QueueDb, Answer) {
    match r
    case CreateQueue(q, s, d, m, n) =>
      if m == 0 || n == 0 then (db, Failure(LimitOutOfRange)) else CreateTx(db, q, Config(s, d, m, n))
    case Send(q, s, m, p, ttl) =>
      if ttl == 0 then (db, Failure(LimitOutOfRange)) else SendTx(db, q, s, m, p, now, ttl)
    case Fetch(q, d) => FetchTx(db, q, d, now)
    case Ack(q, d, m) => AcknowledgeTx(db, q, d, m, now)
    case DeleteQueue(q, d) => DeleteTx(db, q, d)
  }

  /** The answer of a wire request: a delivery too large for a frame is refused. */
  function ExecuteTx(db: QueueDb, r: Request, now: U64): (QueueDb, Answer) {
    var (after, answer) := ApplyTx(db, r, now);
    match answer
    case Success(Fetched(Some(d))) =>
      if |d.payload| > MAX_MESSAGE_BYTES then (after, Failure(MessageTooLarge)) else (after, answer)
    case _ => (after, answer)
  }

  /** What the connection holds after the command: a rejected transaction is dropped. */
  function Durably(db: QueueDb, outcome: (QueueDb, Answer)): (QueueDb, Answer) {
    (if outcome.1.Success? then outcome.0 else db, outcome.1)
  }

  // ----- what a command can do to a row -----

  /** Same message, whether or not it has been delivered. */
  predicate SameMessage(a: MessageRow, b: MessageRow) {
    a.(delivered := false) == b.(delivered := false)
  }

  /** The row is still there; its rowid may since carry another message. */
  predicate Kept(db: QueueDb, db': QueueDb, k: nat)
    requires k in db.messages
  {
    k in db'.messages && SameMessage(db.messages[k], db'.messages[k])
  }

  /** A message row goes only by expiry, by the recipient's acknowledgement of it, or with its queue. */
  predicate Departs(db: QueueDb, r: Request, now: U64, k: nat)
    requires k in db.messages
  {
    var row := db.messages[k];
    && r.queueId == row.queue
    && (|| Value(row.expiresAt) <= now
        || (r.DeleteQueue? && AuthorizeRecipient(db, row.queue, r.recipient).Success?)
        || (r.Ack? && r.messageId == row.id && AuthorizeRecipient(db, row.queue, r.recipient).Success?))
  }

  lemma DiscardedIsExpired(db: QueueDb, q: Id, now: U64, k: nat)
    requires k in db.messages
    ensures var d := DiscardExpired(db, q, now);
            && (k in d.messages ==> d.messages[k] == db.messages[k])
            && (k !in d.messages <==> db.messages[k].queue == q && Value(db.messages[k].expiresAt) <= now)
  {
    hide BytewiseLess;
    BytewiseLessIsNumeric(Cell(now), db.messages[k].expiresAt);
  }

  lemma RowKeptOrDeparts(db: QueueDb, r: Request, now: U64, k: nat)
    requires k in db.messages
    ensures Kept(db, ApplyTx(db, r, now).0, k) || Departs(db, r, now, k)
  {
    hide Value, DiscardExpired, FirstOf, RowsOf, RowsWithId;
    var q := r.queueId;
    DiscardedIsExpired(db, q, now, k);
    var d := DiscardExpired(db, q, now);
    if k in d.messages {
      match r
      case Send(_, _, m, p, ttl) => assert NextRow(d) != k;
      case Ack(_, _, _) => FirstRowOf(d, q);
      case Fetch(_, _) => FirstRowOf(d, q);
      case _ =>
    }
  }

  lemma FirstRowOf(db: QueueDb, q: Id)
    ensures FirstOf(RowsOf(db, q)).Some? ==>
              var k := FirstOf(RowsOf(db, q)).value; k in db.messages && db.messages[k].queue == q
  {
  }

  /** A message row that was not there before was accepted from the queue's sender just now. */
  predicate Accepted(db: QueueDb, r: Request, now: U64, row: MessageRow) {
    && r.Send? && ReadQueue(db, r.queueId).Success? && ReadQueue(db, r.queueId).value.sender == r.sender
    && now + r.ttl < U64_LIMIT
    && row == MessageRow(r.queueId, r.messageId, r.payload, Cell(now + r.ttl), false)
  }

  lemma RowKeptOrAccepted(db: QueueDb, r: Request, now: U64, k: nat)
    requires k in ApplyTx(db, r, now).0.messages
    ensures var row := ApplyTx(db, r, now).0.messages[k];
            (k in db.messages && SameMessage(db.messages[k], row)) || Accepted(db, r, now, row)
  {
    hide Value, DiscardExpired, FirstOf, RowsOf, RowsWithId, NextRow;
    DiscardOnlyRemoves(db, r.queueId, now);
    if r.Fetch? {
      FirstRowOf(DiscardExpired(db, r.queueId, now), r.queueId);
    }
  }

  lemma DiscardOnlyRemoves(db: QueueDb, q: Id, now: U64)
    ensures var d := DiscardExpired(db, q, now);
            d.queues == db.queues && forall k :: k in d.messages ==> k in db.messages && d.messages[k] == db.messages[k]
  {
  }

  /** Every message row belongs to a queue row. */
  predicate ForeignKeys(db: QueueDb) {
    forall k :: k in db.messages ==> db.messages[k].queue in db.queues
  }

  lemma ApplyKeepsForeignKeys(db: QueueDb, r: Request, now: U64)
    requires ForeignKeys(db)
    ensures ForeignKeys(ApplyTx(db, r, now).0)
  {
    hide Value, DiscardExpired, FirstOf, RowsOf, RowsWithId, NextRow;
    DiscardOnlyRemoves(db, r.queueId, now);
    var db' := ApplyTx(db, r, now).0;
    forall k | k in db'.messages ensures db'.messages[k].queue in db'.queues {
      RowKeptOrAccepted(db, r, now, k);
    }
  }

  /** A queue row is never rewritten: it stays, is deleted, or is created from a request naming it. */
  lemma QueueRowKept(db: QueueDb, r: Request, now: U64, q: Id)
    requires q in ApplyTx(db, r, now).0.queues
    ensures var db' := ApplyTx(db, r, now).0;
            || (q in db.queues && db'.queues[q] == db.queues[q])
            || (q !in db.queues && r.CreateQueue? && r.queueId == q && db'.messages == db.messages)
  {
    hide Value, BytewiseLess, FirstOf, RowsOf, RowsWithId, NextRow;
  }

  // ----- the commands as written, on a transaction -----

  class Transaction {
    var db: QueueDb

    constructor (db: QueueDb)
      ensures this.db == db
    {
      this.db := db;
    }

    method CreateQueue(q: Id, config: Config) returns (r: Answer)
      requires 1 <= config.maxMessages < U64_LIMIT && 1 <= config.maxMessageBytes < U64_LIMIT
      modifies this
      ensures (db, r) == CreateTx(old(db), q, config)
    {
      if q in db.queues {
        var row := db.queues[q];
        var same := row.sender == config.sender && row.recipient == config.recipient
                    && Value(row.maxMessages) == config.maxMessages
                    && Value(row.maxMessageBytes) == config.maxMessageBytes;
        if same {
          return Success(QueueCreated(true));
        }
        return Failure(QueueIdConflict);
      }
      var row := QueueRow(config.sender, config.recipient, Cell(config.maxMessages), Cell(config.maxMessageBytes));
      db := db.(queues := db.queues[q := row]);
      r := Success(QueueCreated(false));
    }

    method Send(q: Id, sender: Id, id: Id, payload: Bytes, now: U64, ttl: U64) returns (r: Answer)
      requires ttl > 0
      modifies this
      ensures (db, r) == SendTx(old(db), q, sender, id, payload, now, ttl)
    {
      var config :- ReadQueue(db, q);
      if config.sender != sender {
        return Failure(Unauthorized);
      }
      db := DiscardExpired(db, q, now);
      var existing := FirstOf(RowsWithId(db, q, id));
      if existing.Some? {
        if db.messages[existing.value].payload == payload {
          return Success(Sent(true));
        }
        return Failure(MessageIdConflict);
      }
      if |payload| > config.maxMessageBytes {
        return Failure(MessageTooLarge);
      }
      if |RowsOf(db, q)| >= config.maxMessages {
        return Failure(QueueFull);
      }
      if now + ttl >= U64_LIMIT {
        return Failure(ExpiryOverflow);
      }
      db := db.(messages := db.messages[NextRow(db) := MessageRow(q, id, payload, Cell(now + ttl), false)]);
      r := Success(Sent(false));
    }

    method Fetch(q: Id, recipient: Id, now: U64) returns (r: Answer)
      modifies this
      ensures (db, r) == FetchTx(old(db), q, recipient, now)
    {
      var _ :- AuthorizeRecipient(db, q, recipient);
      db := DiscardExpired(db, q, now);
      var first := FirstOf(RowsOf(db, q));
      if first.None? {
        return Success(Fetched(None));
      }
      var row := db.messages[first.value];
      db := db.(messages := db.messages[first.value := row.(delivered := true)]);
      r := Success(Fetched(Some(Delivery(row.id, row.payload, Value(row.expiresAt)))));
    }

    method Acknowledge(q: Id, recipient: Id, id: Id, now: U64) returns (r: Answer)
      modifies this
      ensures (db, r) == AcknowledgeTx(old(db), q, recipient, id, now)
    {
      var _ :- AuthorizeRecipient(db, q, recipient);
      db := DiscardExpired(db, q, now);
      var current := FirstOf(RowsOf(db, q));
      if current.None? || db.messages[current.value].id != id {
        return Failure(AckMismatch);
      }
      if !db.messages[current.value].delivered {
        return Failure(NotDelivered);
      }
      db := db.(messages := db.messages - {current.value});
      r := Success(Acked);
    }

    method DeleteQueue(q: Id, recipient: Id) returns (r: Answer)
      modifies this
      ensures (db, r) == DeleteTx(old(db), q, recipient)
    {
      var _ :- AuthorizeRecipient(db, q, recipient);
      db := QueueDb(db.queues - {q}, map k | k in db.messages && db.messages[k].queue != q :: db.messages[k]);
      r := Success(QueueDeleted);
    }
  }

  /** A connection. `commits` says whether the storage engine completes the commit it is asked for. */
  class DurableRelay {
    var db: QueueDb

    constructor ()
      ensures db == EMPTY
    {
      db := EMPTY;
    }

    /** Runs one command in its own transaction; a rejection or a failed commit leaves no trace. */
    method Execute(r: Request, now: U64, commits: bool) returns (answer: Answer)
      modifies this
      ensures commits || Durably(old(db), ApplyTx(old(db), r, now)).1.Failure? ==>
                (db, answer) == Durably(old(db), ApplyTx(old(db), r, now))
      ensures !commits && Durably(old(db), ApplyTx(old(db), r, now)).1.Success? ==>
                db == old(db) && answer == Failure(StorageFault)
    {
      hide CreateTx, SendTx, FetchTx, AcknowledgeTx, DeleteTx;
      var transaction := new Transaction(db);
      match r {
      case CreateQueue(q, s, d, m, n) =>
        if m == 0 || n == 0 {
          return Failure(LimitOutOfRange);
        }
        answer := transaction.CreateQueue(q, Config(s, d, m, n));
      case Send(q, s, m, p, ttl) =>
        if ttl == 0 {
          return Failure(LimitOutOfRange);
        }
        answer := transaction.Send(q, s, m, p, now, ttl);
      case Fetch(q, d) =>
        answer := transaction.Fetch(q, d, now);
      case Ack(q, d, m) =>
        answer := transaction.Acknowledge(q, d, m, now);
      case DeleteQueue(q, d) =>
        answer := transaction.DeleteQueue(q, d);
      }
      if answer.Failure? {
        return;
      }
      if !commits {
        return Failure(StorageFault);
      }
      db := transaction.db;
    }
  }
}
