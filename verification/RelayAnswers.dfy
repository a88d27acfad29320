/** Every answer of the in-memory relay as an exact condition on the queue's live messages. */
module RelayAnswers {
  import opened Base
  import opened QueueCodec
  import opened Relay

  /** A message that has not expired. */
  predicate Alive(ms: seq<Message>, now: U64, i: nat) {
    i < |ms| && now < ms[i].expiresAt
  }

  /** The oldest of them. */
  ghost predicate Oldest(ms: seq<Message>, now: U64, i: nat) {
    Alive(ms, now, i) && forall j: nat :: j < i ==> !Alive(ms, now, j)
  }

  /** Some live message has this identifier. */
  ghost predicate Queued(ms: seq<Message>, now: U64, id: Id) {
    exists i: nat :: Alive(ms, now, i) && ms[i].id == id
  }

  /** Pruning keeps the live messages, in order, the oldest first. */
  lemma {:induction false} LiveExactly(ms: seq<Message>, now: U64)
    ensures forall m :: m in Live(ms, now) <==> m in ms && now < m.expiresAt
    ensures Live(ms, now) == [] <==> forall i: nat :: !Alive(ms, now, i)
    ensures forall i: nat :: Oldest(ms, now, i) ==> Live(ms, now) != [] && Live(ms, now)[0] == ms[i]
    ensures Live(ms, now) != [] ==> exists i: nat :: Oldest(ms, now, i)
  {
    if ms != [] {
      var n := |ms| - 1;
      var init := ms[..n];
      LiveExactly(init, now);
      assert ms == init + [ms[n]];
      forall i: nat | i < n ensures Alive(ms, now, i) <==> Alive(init, now, i) {
      }
      forall i: nat | Oldest(ms, now, i) ensures Live(ms, now) != [] && Live(ms, now)[0] == ms[i] {
        if i < n {
          assert Oldest(init, now, i);
        } else {
          assert forall j: nat :: !Alive(init, now, j);
        }
      }
      if Live(init, now) != [] {
        var i: nat :| Oldest(init, now, i);
        assert Oldest(ms, now, i);
      } else if now < ms[n].expiresAt {
        assert forall j: nat :: j < n ==> !Alive(init, now, j);
        assert Oldest(ms, now, n);
      }
    }
  }

  /** The one live message with an identifier, in a sound queue. */
  lemma QueuedExactly(ms: seq<Message>, now: U64, id: Id)
    requires Unique(ms)
    ensures IndexOf(Live(ms, now), id).Some? <==> Queued(ms, now, id)
    ensures forall i: nat :: Alive(ms, now, i) && ms[i].id == id && IndexOf(Live(ms, now), id).Some? ==>
              Live(ms, now)[IndexOf(Live(ms, now), id).value] == ms[i]
  {
    hide IndexOf, Live, Unique;
    var live := Live(ms, now);
    LiveExactly(ms, now);
    var found := IndexOf(live, id);
    if found.Some? {
      var m := live[found.value];
      assert m in live;
      var k :| 0 <= k < |ms| && ms[k] == m;
      assert Alive(ms, now, k);
      forall i: nat | Alive(ms, now, i) && ms[i].id == id ensures ms[i] == m {
        SameId(ms, i, k);
      }
    } else {
      forall i: nat | Alive(ms, now, i) ensures ms[i].id != id {
        assert ms[i] in live;
        var j :| 0 <= j < |live| && live[j] == ms[i];
      }
    }
  }

  lemma SameId(ms: seq<Message>, i: nat, j: nat)
    requires Unique(ms) && i < |ms| && j < |ms| && ms[i].id == ms[j].id
    ensures i == j
  {
  }

  /** CREATE_QUEUE: new, the same configuration again, or a conflict. */
  lemma CreateExactly(qs: Queues, q: Id, sender: Id, recipient: Id, m: U64, n: U64, now: U64)
    requires m > 0 && n > 0
    ensures var (qs', a) := Apply(qs, CreateQueue(q, sender, recipient, m, n), now);
            && (a == Success(QueueCreated(false)) <==> q !in qs)
            && (a == Success(QueueCreated(true)) <==>
                  && q in qs && qs[q].config.sender == sender && qs[q].config.recipient == recipient
                  && qs[q].config.maxMessages == m && qs[q].config.maxMessageBytes == n)
            && (a.Success? || a == Failure(QueueIdConflict))
            && (q in qs ==> qs' == qs)
            && (q !in qs ==> qs' == qs[q := Queue(Config(sender, recipient, m, n), [])])
  {
  }

  /** DELETE_QUEUE: for the configured recipient the queue goes. */
  lemma DeleteExactly(qs: Queues, q: Id, recipient: Id, now: U64)
    ensures var (qs', a) := Apply(qs, DeleteQueue(q, recipient), now);
            && (a == Failure(QueueNotFound) <==> q !in qs)
            && (a == Failure(Unauthorized) <==> q in qs && qs[q].config.recipient != recipient)
            && (a == Success(QueueDeleted) <==> q in qs && qs[q].config.recipient == recipient)
            && qs' == (if a.Success? then map p | p in qs && p != q :: qs[p] else qs)
  {
  }

  /** SEND, in a reachable state: the exact condition of every answer, and what is appended. */
  lemma SendExactly(qs: Queues, q: Id, sender: Id, id: Id, payload: Bytes, ttl: U64, now: U64)
    requires Sound(qs) && ttl > 0
    ensures var (qs', a) := Apply(qs, Send(q, sender, id, payload, ttl), now);
            && (a == Failure(QueueNotFound) <==> q !in qs)
            && (a == Failure(Unauthorized) <==> q in qs && qs[q].config.sender != sender)
            && (q in qs && qs[q].config.sender == sender ==>
                  var ms, config := qs[q].messages, qs[q].config;
                  var large, full := |payload| > config.maxMessageBytes, |Live(ms, now)| >= config.maxMessages;
                  && (Queued(ms, now, id) ==>
                        forall i: nat :: Alive(ms, now, i) && ms[i].id == id ==>
                          a == if ms[i].payload == payload then Success(Sent(true)) else Failure(MessageIdConflict))
                  && (!Queued(ms, now, id) ==>
                        a == if large then Failure(MessageTooLarge)
                             else if full then Failure(QueueFull)
                             else if now + ttl >= U64_LIMIT then Failure(ExpiryOverflow)
                             else Success(Sent(false)))
                  && qs'[q].messages == Live(ms, now)
                       + if a == Success(Sent(false)) then [Message(id, payload, now + ttl, false)] else [])
  {
    hide IndexOf, Live, Unique;
    if q in qs && qs[q].config.sender == sender {
      QueuedExactly(qs[q].messages, now, id);
    }
  }

  /** FETCH: an empty queue is one without a live message, and a delivery is the oldest of them. */
  lemma FetchExactly(qs: Queues, q: Id, recipient: Id, now: U64)
    ensures var a := Apply(qs, Fetch(q, recipient), now).1;
            && (a == Failure(QueueNotFound) <==> q !in qs)
            && (a == Failure(Unauthorized) <==> q in qs && qs[q].config.recipient != recipient)
            && (q in qs && qs[q].config.recipient == recipient ==>
                  var ms := qs[q].messages;
                  && (a == Success(Fetched(None)) <==> forall i: nat :: !Alive(ms, now, i))
                  && forall i: nat :: Oldest(ms, now, i) ==>
                       a == Success(Fetched(Some(Delivery(ms[i].id, ms[i].payload, ms[i].expiresAt)))))
  {
    hide Live, Oldest;
    if q in qs {
      LiveExactly(qs[q].messages, now);
    }
  }

  /** ACK: it succeeds exactly for the oldest live message, once delivered; that message goes. */
  lemma AckExactly(qs: Queues, q: Id, recipient: Id, id: Id, now: U64)
    ensures var (qs', a) := Apply(qs, Ack(q, recipient, id), now);
            && (a == Failure(QueueNotFound) <==> q !in qs)
            && (a == Failure(Unauthorized) <==> q in qs && qs[q].config.recipient != recipient)
            && (q in qs && qs[q].config.recipient == recipient ==>
                  var ms := qs[q].messages;
                  && (a == Success(Acked) <==> exists i: nat :: Oldest(ms, now, i) && ms[i].id == id && ms[i].delivered)
                  && (a == Failure(NotDelivered) <==>
                        exists i: nat :: Oldest(ms, now, i) && ms[i].id == id && !ms[i].delivered)
                  && (a == Failure(AckMismatch) <==> forall i: nat :: Oldest(ms, now, i) ==> ms[i].id != id)
                  && (a == Success(Acked) ==> Live(ms, now) != [] && qs'[q].messages == Live(ms, now)[1..]))
  {
    hide Live, Oldest;
    if q in qs {
      LiveExactly(qs[q].messages, now);
      OldestIsOne(qs[q].messages, now);
    }
  }

  lemma OldestIsOne(ms: seq<Message>, now: U64)
    ensures forall i: nat, j: nat :: Oldest(ms, now, i) && Oldest(ms, now, j) ==> i == j && i < |ms|
  {
    forall i: nat, j: nat | Oldest(ms, now, i) && Oldest(ms, now, j) ensures i == j {
      assert i < j ==> !Alive(ms, now, i);
      assert j < i ==> !Alive(ms, now, j);
    }
  }
}
