/** The in-memory relay: the reference state machine for queues, and what every run of it keeps. */
module Relay {
  import opened Base
  import opened QueueCodec

  datatype Config = Config(sender: Id, recipient: Id, maxMessages: nat, maxMessageBytes: nat)

  datatype Message = Message(id: Id, payload: Bytes, expiresAt: U64, delivered: bool)

  datatype Queue = Queue(config: Config, messages: seq<Message>)

  type Queues = map<Id, Queue>

  datatype RelayError =
    | QueueNotFound
    | Unauthorized
    | QueueIdConflict
    | MessageIdConflict
    | MessageTooLarge
    | QueueFull
    | ExpiryOverflow
    | LimitOutOfRange
    | AckMismatch
    | NotDelivered
    | StorageFault

  type Answer = Result<ResponseBody, RelayError>

  // ----- specification: one function per command -----

  /** The messages still alive at `now`, in order. */
  function Live(ms: seq<Message>, now: U64): (r: seq<Message>)
    ensures |r| <= |ms|
  {
    if ms == [] then []
    else
      var m, before := ms[|ms| - 1], Live(ms[..|ms| - 1], now);
      if m.expiresAt > now then before + [m] else before
  }

  /** Position of the first message with this identifier. */
  function IndexOf(ms: seq<Message>, id: Id): (r: Option<nat>)
    ensures r.Some? ==> r.value < |ms| && ms[r.value].id == id
    ensures r.None? <==> forall i :: 0 <= i < |ms| ==> ms[i].id != id
  {
    if ms == [] then None
    else if ms[0].id == id then Some(0)
    else
      match IndexOf(ms[1..], id)
      case Some(i) => Some(i + 1)
      case None => None
  }

  lemma {:induction false} IndexIsFirst(ms: seq<Message>, id: Id, i: nat)
    requires i < |ms| && ms[i].id == id && forall j :: 0 <= j < i ==> ms[j].id != id
    ensures IndexOf(ms, id) == Some(i)
  {
    if i > 0 {
      assert ms[0].id != id;
      IndexIsFirst(ms[1..], id, i - 1);
    }
  }

  function CreateStep(qs: Queues, q: Id, config: Config): (Queues, Answer) {
    if q in qs then
      (qs, if qs[q].config == config then Success(QueueCreated(true)) else Failure(QueueIdConflict))
    else (qs[q := Queue(config, [])], Success(QueueCreated(false)))
  }

  /** What SEND answers and stores on the messages left after expiry. */
  function Offer(config: Config, ms: seq<Message>, id: Id, payload: Bytes, now: U64, ttl: U64): (seq<Message>, Answer) {
    match IndexOf(ms, id)
    case Some(i) => (ms, if ms[i].payload == payload then Success(Sent(true)) else Failure(MessageIdConflict))
    case None =>
      if |payload| > config.maxMessageBytes then (ms, Failure(MessageTooLarge))
      else if |ms| >= config.maxMessages then (ms, Failure(QueueFull))
      else if now + ttl >= U64_LIMIT then (ms, Failure(ExpiryOverflow))
      else (ms + [Message(id, payload, now + ttl, false)], Success(Sent(false)))
  }

  /** What FETCH answers, and the head it marks as delivered. */
  function Deliver(ms: seq<Message>): (seq<Message>, Answer) {
    if ms == [] then (ms, Success(Fetched(None)))
    else
      var m := ms[0];
      (ms[0 := m.(delivered := true)], Success(Fetched(Some(Delivery(m.id, m.payload, m.expiresAt)))))
  }

  /** What ACK answers, and the head it removes. */
  function Confirm(ms: seq<Message>, id: Id): (seq<Message>, Answer) {
    if ms == [] || ms[0].id != id then (ms, Failure(AckMismatch))
    else if !ms[0].delivered then (ms, Failure(NotDelivered))
    else (ms[1..], Success(Acked))
  }

  function SendStep(qs: Queues, q: Id, sender: Id, id: Id, payload: Bytes, now: U64, ttl: U64): (Queues, Answer) {
    if q !in qs then (qs, Failure(QueueNotFound))
    else if qs[q].config.sender != sender then (qs, Failure(Unauthorized))
    else
      var (ms, a) := Offer(qs[q].config, Live(qs[q].messages, now), id, payload, now, ttl);
      (qs[q := Queue(qs[q].config, ms)], a)
  }

  function FetchStep(qs: Queues, q: Id, recipient: Id, now: U64): (Queues, Answer) {
    if q !in qs then (qs, Failure(QueueNotFound))
    else if qs[q].config.recipient != recipient then (qs, Failure(Unauthorized))
    else
      var (ms, a) := Deliver(Live(qs[q].messages, now));
      (qs[q := Queue(qs[q].config, ms)], a)
  }

  function AckStep(qs: Queues, q: Id, recipient: Id, id: Id, now: U64): (Queues, Answer) {
    if q !in qs then (qs, Failure(QueueNotFound))
    else if qs[q].config.recipient != recipient then (qs, Failure(Unauthorized))
    else
      var (ms, a) := Confirm(Live(qs[q].messages, now), id);
      (qs[q := Queue(qs[q].config, ms)], a)
  }

  function DeleteStep(qs: Queues, q: Id, recipient: Id): (Queues, Answer) {
    if q !in qs then (qs, Failure(QueueNotFound))
    else if qs[q].config.recipient != recipient then (qs, Failure(Unauthorized))
    else (qs - {q}, Success(QueueDeleted))
  }

  /** One command at a given relay time. Zero limits and lifetimes have no relay value. */
  function Apply(qs: Queues, r: Request, now: U64): (Queues, Answer) {
    match r
    case CreateQueue(q, s, d, m, n) =>
      if m == 0 || n == 0 then (qs, Failure(LimitOutOfRange)) else CreateStep(qs, q, Config(s, d, m, n))
    case Send(q, s, m, p, ttl) =>
      if ttl == 0 then (qs, Failure(LimitOutOfRange)) else SendStep(qs, q, s, m, p, now, ttl)
    case Fetch(q, d) => FetchStep(qs, q, d, now)
    case Ack(q, d, m) => AckStep(qs, q, d, m, now)
    case DeleteQueue(q, d) => DeleteStep(qs, q, d)
  }

  /** A command touches no queue but the one it names. */
  lemma ApplyFrame(qs: Queues, r: Request, now: U64, q: Id)
    requires q != r.queueId
    ensures q in Apply(qs, r, now).0 <==> q in qs
    ensures q in qs ==> Apply(qs, r, now).0[q] == qs[q]
  {
    hide Live, IndexOf, Offer, Deliver, Confirm;
  }

  /** A command together with the relay time it is served at. */
  datatype Timed = Timed(request: Request, now: U64)

  function Run(qs: Queues, cmds: seq<Timed>): Queues {
    if cmds == [] then qs
    else
      var before := Run(qs, cmds[..|cmds| - 1]);
      var c := cmds[|cmds| - 1];
      Apply(before, c.request, c.now).0
  }

  // ----- the state machine as written -----

  class Relay {
    var queues: Queues

    constructor ()
      ensures queues == map[]
    {
      queues := map[];
    }

    method CreateQueue(q: Id, config: Config) returns (r: Answer)
      modifies this
      ensures (queues, r) == CreateStep(old(queues), q, config)
    {
      if q in queues {
        if queues[q].config == config {
          return Success(QueueCreated(true));
        }
        return Failure(QueueIdConflict);
      }
      queues := queues[q := Queue(config, [])];
      r := Success(QueueCreated(false));
    }

    /** Keeps the unexpired messages of one queue. */
    method DiscardExpired(q: Id, now: U64)
      requires q in queues
      modifies this
      ensures queues == old(queues)[q := old(queues[q]).(messages := Live(old(queues[q]).messages, now))]
    {
      var ms := queues[q].messages;
      var kept: seq<Message> := [];
      for i := 0 to |ms|
        invariant kept == Live(ms[..i], now)
      {
        assert ms[..i + 1][..i] == ms[..i];
        if ms[i].expiresAt > now {
          kept := kept + [ms[i]];
        }
      }
      assert ms[..|ms|] == ms;
      queues := queues[q := queues[q].(messages := kept)];
    }

    method FindMessage(q: Id, id: Id) returns (r: Option<nat>)
      requires q in queues
      ensures r == IndexOf(queues[q].messages, id)
    {
      hide IndexOf;
      var ms := queues[q].messages;
      var i := 0;
      while i < |ms|
        invariant i <= |ms|
        invariant forall j :: 0 <= j < i ==> ms[j].id != id
      {
        if ms[i].id == id {
          IndexIsFirst(ms, id, i);
          return Some(i);
        }
        i := i + 1;
      }
      r := None;
    }

    method Send(q: Id, sender: Id, id: Id, payload: Bytes, now: U64, ttl: U64) returns (r: Answer)
      requires ttl > 0
      modifies this
      ensures (queues, r) == SendStep(old(queues), q, sender, id, payload, now, ttl)
    {
      if q !in queues {
        return Failure(QueueNotFound);
      }
      if queues[q].config.sender != sender {
        return Failure(Unauthorized);
      }
      DiscardExpired(q, now);
      var queue := queues[q];
      var existing := FindMessage(q, id);
      if existing.Some? {
        if queue.messages[existing.value].payload == payload {
          return Success(Sent(true));
        }
        return Failure(MessageIdConflict);
      }
      if |payload| > queue.config.maxMessageBytes {
        return Failure(MessageTooLarge);
      }
      if |queue.messages| >= queue.config.maxMessages {
        return Failure(QueueFull);
      }
      if now + ttl >= U64_LIMIT {
        return Failure(ExpiryOverflow);
      }
      queues := queues[q := queue.(messages := queue.messages + [Message(id, payload, now + ttl, false)])];
      assert queues == old(queues)[q := queues[q]];
      r := Success(Sent(false));
    }

    method Fetch(q: Id, recipient: Id, now: U64) returns (r: Answer)
      modifies this
      ensures (queues, r) == FetchStep(old(queues), q, recipient, now)
    {
      if q !in queues {
        return Failure(QueueNotFound);
      }
      if queues[q].config.recipient != recipient {
        return Failure(Unauthorized);
      }
      DiscardExpired(q, now);
      var queue := queues[q];
      if queue.messages == [] {
        return Success(Fetched(None));
      }
      var front := queue.messages[0];
      queues := queues[q := queue.(messages := queue.messages[0 := front.(delivered := true)])];
      assert queues == old(queues)[q := queues[q]];
      r := Success(Fetched(Some(Delivery(front.id, front.payload, front.expiresAt))));
    }

    method Acknowledge(q: Id, recipient: Id, id: Id, now: U64) returns (r: Answer)
      modifies this
      ensures (queues, r) == AckStep(old(queues), q, recipient, id, now)
    {
      if q !in queues {
        return Failure(QueueNotFound);
      }
      if queues[q].config.recipient != recipient {
        return Failure(Unauthorized);
      }
      DiscardExpired(q, now);
      var queue := queues[q];
      if queue.messages == [] || queue.messages[0].id != id {
        return Failure(AckMismatch);
      }
      if !queue.messages[0].delivered {
        return Failure(NotDelivered);
      }
      queues := queues[q := queue.(messages := queue.messages[1..])];
      assert queues == old(queues)[q := queues[q]];
      r := Success(Acked);
    }

    method DeleteQueue(q: Id, recipient: Id) returns (r: Answer)
      modifies this
      ensures (queues, r) == DeleteStep(old(queues), q, recipient)
    {
      if q !in queues {
        return Failure(QueueNotFound);
      }
      if queues[q].config.recipient != recipient {
        return Failure(Unauthorized);
      }
      queues := queues - {q};
      r := Success(QueueDeleted);
    }
  }

  // ----- what every run keeps, under any clock -----

  ghost predicate Unique(ms: seq<Message>) {
    forall i, j :: 0 <= i < j < |ms| ==> ms[i].id != ms[j].id
  }

  /** Distinct identifiers, limits respected, and only the head may be marked delivered. */
  ghost predicate SoundMessages(config: Config, ms: seq<Message>) {
    && Unique(ms)
    && |ms| <= config.maxMessages
    && (forall i :: 0 <= i < |ms| ==> |ms[i].payload| <= config.maxMessageBytes)
    && (forall i :: 0 < i < |ms| ==> !ms[i].delivered)
  }

  ghost predicate Sound(qs: Queues) {
    forall q :: q in qs ==>
      && qs[q].config.maxMessages >= 1
      && qs[q].config.maxMessageBytes >= 1
      && SoundMessages(qs[q].config, qs[q].messages)
  }

  lemma LiveAppend(ms: seq<Message>, m: Message, now: U64)
    ensures Live(ms + [m], now) == if m.expiresAt > now then Live(ms, now) + [m] else Live(ms, now)
  {
    assert (ms + [m])[..|ms|] == ms;
  }

  lemma {:induction false} LiveMembers(ms: seq<Message>, now: U64)
    ensures forall m :: m in Live(ms, now) <==> m in ms && m.expiresAt > now
  {
    if ms != [] {
      LiveMembers(ms[..|ms| - 1], now);
      assert ms == ms[..|ms| - 1] + [ms[|ms| - 1]];
    }
  }

  lemma AppendSound(config: Config, ms: seq<Message>, m: Message)
    requires SoundMessages(config, ms)
    requires IndexOf(ms, m.id).None? && |ms| < config.maxMessages
    requires |m.payload| <= config.maxMessageBytes && (m.delivered ==> ms == [])
    ensures SoundMessages(config, ms + [m])
  {
    hide IndexOf;
    AppendUnique(ms, m);
    hide Unique;
    var r := ms + [m];
    assert forall i :: 0 <= i < |ms| ==> r[i] == ms[i];
  }

  lemma AppendUnique(ms: seq<Message>, m: Message)
    requires Unique(ms) && forall i :: 0 <= i < |ms| ==> ms[i].id != m.id
    ensures Unique(ms + [m])
  {
  }

  lemma {:induction false} LiveSound(config: Config, ms: seq<Message>, now: U64)
    requires SoundMessages(config, ms)
    ensures SoundMessages(config, Live(ms, now))
  {
    if ms != [] {
      var init, m := ms[..|ms| - 1], ms[|ms| - 1];
      LiveSound(config, init, now);
      LiveMembers(init, now);
      var kept := Live(init, now);
      if m.expiresAt > now {
        assert IndexOf(kept, m.id).None? by {
          forall i | 0 <= i < |kept| ensures kept[i].id != m.id {
            assert kept[i] in init;
          }
        }
        AppendSound(config, kept, m);
      }
    }
  }

  /** Each command keeps the messages of its queue sound. */
  lemma StepsSound(config: Config, ms: seq<Message>, id: Id, payload: Bytes, now: U64, ttl: U64)
    requires SoundMessages(config, ms)
    ensures SoundMessages(config, Offer(config, ms, id, payload, now, ttl).0)
    ensures SoundMessages(config, Deliver(ms).0)
    ensures SoundMessages(config, Confirm(ms, id).0)
  {
    var r := Offer(config, ms, id, payload, now, ttl);
    if r.1 == Success(Sent(false)) {
      AppendSound(config, ms, Message(id, payload, now + ttl, false));
    }
  }

  /** Every command keeps every queue sound, whatever relay time it is served at. */
  lemma ApplySound(qs: Queues, r: Request, now: U64)
    requires Sound(qs)
    ensures Sound(Apply(qs, r, now).0)
  {
    hide SoundMessages, Offer, Deliver, Confirm, Live;
    if r.queueId in qs {
      var c := qs[r.queueId].config;
      LiveSound(c, qs[r.queueId].messages, now);
      var ms := Live(qs[r.queueId].messages, now);
      match r
      case Send(_, _, m, p, ttl) => StepsSound(c, ms, m, p, now, ttl);
      case Ack(_, _, m) => StepsSound(c, ms, m, [], now, 0);
      case Fetch(_, d) => StepsSound(c, ms, d, [], now, 0);
      case _ =>
    } else if r.CreateQueue? {
      EmptySound(Config(r.sender, r.recipient, r.maxMessages, r.maxMessageBytes));
    }
  }

  lemma EmptySound(config: Config)
    ensures SoundMessages(config, [])
  {
  }

  lemma {:induction false} RunSound(cmds: seq<Timed>)
    ensures Sound(Run(map[], cmds))
  {
    if cmds != [] {
      var c := cmds[|cmds| - 1];
      RunSound(cmds[..|cmds| - 1]);
      ApplySound(Run(map[], cmds[..|cmds| - 1]), c.request, c.now);
    }
  }

  /** FETCH never hands out a message at or after its expiry, and what it hands out is stored. */
  lemma FetchIsLive(qs: Queues, q: Id, recipient: Id, now: U64)
    ensures match FetchStep(qs, q, recipient, now).1
            case Success(Fetched(Some(d))) =>
              && d.expiresAt > now
              && q in qs && recipient == qs[q].config.recipient
              && exists i :: 0 <= i < |qs[q].messages| && var m := qs[q].messages[i];
                             m.id == d.messageId && m.payload == d.payload && m.expiresAt == d.expiresAt
            case _ => true
  {
    if q in qs {
      LiveMembers(qs[q].messages, now);
      var ms := Live(qs[q].messages, now);
      if ms != [] {
        assert ms[0] in qs[q].messages;
      }
    }
  }

  /** A repeated SEND adds nothing and leaves every stored message, with its expiry, as it was. */
  lemma DuplicateSendKeeps(qs: Queues, q: Id, sender: Id, id: Id, payload: Bytes, now: U64, ttl: U64)
    requires SendStep(qs, q, sender, id, payload, now, ttl).1 == Success(Sent(true))
    ensures q in qs
    ensures SendStep(qs, q, sender, id, payload, now, ttl).0
            == qs[q := qs[q].(messages := Live(qs[q].messages, now))]
    ensures exists m :: m in qs[q].messages && m.id == id && m.payload == payload && m.expiresAt > now
  {
    var ms := Live(qs[q].messages, now);
    LiveMembers(qs[q].messages, now);
    assert ms[IndexOf(ms, id).value] in ms;
  }
}
