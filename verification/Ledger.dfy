/** Conservation for the relay: every accepted message has exactly one fate.

    Each queue identifier has a book listing the messages ever accepted under it, in order of
    acceptance, with what became of each. Books only observe the relay: `Track` is computed from the
    state before a command and its answer. */
module Ledger {
  import opened Base
  import opened QueueCodec
  import opened Relay

  datatype Fate = Queued | Acknowledged | Expired(at: U64) | Dropped

  datatype Entry = Entry(id: Id, payload: Bytes, expiresAt: U64)

  datatype Line = Line(entry: Entry, fate: Fate)

  /** `lines` in order of acceptance; `acked` in order of acknowledgement. */
  datatype Book = Book(lines: seq<Line>, acked: seq<Entry>)

  type Ledger = map<Id, Book>

  function BookOf(l: Ledger, q: Id): Book {
    if q in l then l[q] else Book([], [])
  }

  function MessagesOf(qs: Queues, q: Id): seq<Message> {
    if q in qs then qs[q].messages else []
  }

  /** Messages without their delivery mark. */
  function Entries(ms: seq<Message>): (r: seq<Entry>)
    ensures |r| == |ms|
  {
    if ms == [] then []
    else var m := ms[|ms| - 1]; Entries(ms[..|ms| - 1]) + [Entry(m.id, m.payload, m.expiresAt)]
  }

  /** The entries with a given fate, in order of acceptance. */
  function Select(lines: seq<Line>, fate: Fate): seq<Entry> {
    if lines == [] then []
    else
      var n := |lines| - 1;
      var before := Select(lines[..n], fate);
      if lines[n].fate == fate then before + [lines[n].entry] else before
  }

  function First(es: seq<Entry>): seq<Entry> {
    if es == [] then [] else [es[0]]
  }

  function Expire(lines: seq<Line>, now: U64): (r: seq<Line>)
    ensures |r| == |lines|
  {
    if lines == [] then []
    else
      var n := |lines| - 1;
      var last := lines[n];
      Expire(lines[..n], now)
      + [if last.fate.Queued? && last.entry.expiresAt <= now then Line(last.entry, Expired(now)) else last]
  }

  function Drop(lines: seq<Line>): (r: seq<Line>)
    ensures |r| == |lines|
  {
    if lines == [] then []
    else
      var n := |lines| - 1;
      Drop(lines[..n]) + [if lines[n].fate.Queued? then Line(lines[n].entry, Dropped) else lines[n]]
  }

  /** Marks the first queued line as acknowledged. */
  function Settle(lines: seq<Line>): (r: seq<Line>)
    ensures |r| == |lines|
  {
    if lines == [] then []
    else
      var n := |lines| - 1;
      if Select(lines[..n], Queued) != [] then Settle(lines[..n]) + [lines[n]]
      else if lines[n].fate.Queued? then lines[..n] + [Line(lines[n].entry, Acknowledged)]
      else lines
  }

  /** The book of the queue a command names, after the command. */
  function TrackBook(b: Book, qs: Queues, r: Request, now: U64): Book {
    var answer := Apply(qs, r, now).1;
    var q := r.queueId;
    if q !in qs then b
    else
      match r
      case CreateQueue(_, _, _, _, _) => b
      case DeleteQueue(_, _) => if answer.Success? then b.(lines := Drop(b.lines)) else b
      case Send(_, s, m, p, ttl) =>
        if s != qs[q].config.sender || ttl == 0 then b
        else
          var lines := Expire(b.lines, now);
          b.(lines := if answer == Success(Sent(false)) then lines + [Line(Entry(m, p, now + ttl), Queued)] else lines)
      case Fetch(_, d) =>
        if d != qs[q].config.recipient then b else b.(lines := Expire(b.lines, now))
      case Ack(_, d, _) =>
        if d != qs[q].config.recipient then b
        else
          var lines := Expire(b.lines, now);
          if answer.Failure? then b.(lines := lines)
          else Book(Settle(lines), b.acked + First(Select(lines, Queued)))
  }

  function Track(l: Ledger, qs: Queues, r: Request, now: U64): Ledger {
    l[r.queueId := TrackBook(BookOf(l, r.queueId), qs, r, now)]
  }

  // ----- what the books say -----

  /** The queue holds exactly the accepted messages without another fate, in order of acceptance; the
      acknowledged ones, in order of acknowledgement, are a subsequence of the accepted ones; and
      nothing expired before its time. */
  ghost predicate Balanced(b: Book, ms: seq<Message>) {
    && Select(b.lines, Queued) == Entries(ms)
    && Select(b.lines, Acknowledged) == b.acked
    && (forall i, j :: 0 <= i < j < |b.lines| ==> !(b.lines[i].fate.Queued? && b.lines[j].fate.Acknowledged?))
    && (forall i :: 0 <= i < |b.lines| && b.lines[i].fate.Expired? ==> b.lines[i].entry.expiresAt <= b.lines[i].fate.at)
  }

  ghost predicate Tracks(l: Ledger, qs: Queues) {
    forall q: Id :: Balanced(BookOf(l, q), MessagesOf(qs, q))
  }

  /** Lines are never removed or rewritten, and a fate other than Queued is final. */
  ghost predicate Continues(before: seq<Line>, after: seq<Line>) {
    && |before| <= |after|
    && (forall i :: 0 <= i < |before| ==>
          && after[i].entry == before[i].entry
          && (before[i].fate.Queued? || after[i].fate == before[i].fate))
  }

  // ----- proofs -----

  lemma {:induction false} SelectQueuedIsOpen(lines: seq<Line>)
    ensures Select(lines, Queued) != [] <==> exists i :: 0 <= i < |lines| && lines[i].fate.Queued?
  {
    if lines != [] {
      SelectQueuedIsOpen(lines[..|lines| - 1]);
    }
  }

  lemma ExpireBalanced(b: Book, ms: seq<Message>, now: U64)
    requires Balanced(b, ms)
    ensures Balanced(b.(lines := Expire(b.lines, now)), Live(ms, now))
    ensures Continues(b.lines, Expire(b.lines, now))
  {
    hide Expire, Select, Entries, Live, Fresh;
    ExpirePointwise(b.lines, now);
    ExpireSelect(b.lines, now);
    EntriesOfLive(ms, now);
  }

  lemma {:induction false} ExpirePointwise(lines: seq<Line>, now: U64)
    ensures forall i :: 0 <= i < |lines| ==>
              Expire(lines, now)[i]
              == if lines[i].fate.Queued? && lines[i].entry.expiresAt <= now
                 then Line(lines[i].entry, Expired(now)) else lines[i]
  {
    if lines != [] {
      ExpirePointwise(lines[..|lines| - 1], now);
    }
  }

  /** The entries alive at `now`. */
  function Fresh(es: seq<Entry>, now: U64): seq<Entry> {
    if es == [] then []
    else
      var n := |es| - 1;
      var before := Fresh(es[..n], now);
      if es[n].expiresAt > now then before + [es[n]] else before
  }

  lemma FreshAppend(es: seq<Entry>, e: Entry, now: U64)
    ensures Fresh(es + [e], now) == if e.expiresAt > now then Fresh(es, now) + [e] else Fresh(es, now)
  {
    assert (es + [e])[..|es|] == es;
  }

  lemma EntriesAppend(ms: seq<Message>, m: Message)
    ensures Entries(ms + [m]) == Entries(ms) + [Entry(m.id, m.payload, m.expiresAt)]
  {
    assert (ms + [m])[..|ms|] == ms;
  }

  lemma SelectAppend(lines: seq<Line>, l: Line, fate: Fate)
    ensures Select(lines + [l], fate) == if l.fate == fate then Select(lines, fate) + [l.entry] else Select(lines, fate)
  {
    assert (lines + [l])[..|lines|] == lines;
  }

  lemma {:induction false} EntriesOfLive(ms: seq<Message>, now: U64)
    ensures Entries(Live(ms, now)) == Fresh(Entries(ms), now)
  {
    if ms != [] {
      var n := |ms| - 1;
      var m := ms[n];
      EntriesOfLive(ms[..n], now);
      FreshAppend(Entries(ms[..n]), Entry(m.id, m.payload, m.expiresAt), now);
      EntriesAppend(Live(ms[..n], now), m);
    }
  }

  lemma {:induction false} ExpireSelect(lines: seq<Line>, now: U64)
    ensures Select(Expire(lines, now), Queued) == Fresh(Select(lines, Queued), now)
    ensures Select(Expire(lines, now), Acknowledged) == Select(lines, Acknowledged)
  {
    if lines != [] {
      var n := |lines| - 1;
      var last := lines[n];
      var e := Expire(lines, now);
      ExpireSelect(lines[..n], now);
      FreshAppend(Select(lines[..n], Queued), last.entry, now);
      SelectAppend(Expire(lines[..n], now), e[n], Queued);
      SelectAppend(Expire(lines[..n], now), e[n], Acknowledged);
    }
  }

  lemma AcceptBalanced(b: Book, ms: seq<Message>, m: Message)
    requires Balanced(b, ms)
    ensures Balanced(b.(lines := b.lines + [Line(Entry(m.id, m.payload, m.expiresAt), Queued)]), ms + [m])
  {
    var line := Line(Entry(m.id, m.payload, m.expiresAt), Queued);
    SelectAppend(b.lines, line, Queued);
    SelectAppend(b.lines, line, Acknowledged);
    EntriesAppend(ms, m);
  }

  lemma {:induction false} SettlePointwise(lines: seq<Line>)
    requires Select(lines, Queued) != []
    ensures exists k :: Head(lines, k) && Settle(lines) == lines[k := Line(lines[k].entry, Acknowledged)]
  {
    var n := |lines| - 1;
    var init := lines[..n];
    SelectQueuedIsOpen(init);
    if Select(init, Queued) != [] {
      SettlePointwise(init);
      var k :| Head(init, k) && Settle(init) == init[k := Line(init[k].entry, Acknowledged)];
      assert Head(lines, k);
      assert Settle(init) + [lines[n]] == lines[k := Line(lines[k].entry, Acknowledged)];
    } else {
      assert Head(lines, n);
    }
  }

  /** Line k is the first queued one. */
  ghost predicate Head(lines: seq<Line>, k: int) {
    && 0 <= k < |lines|
    && lines[k].fate.Queued?
    && forall i :: 0 <= i < k ==> !lines[i].fate.Queued?
  }

  lemma {:induction false} SettleSelect(lines: seq<Line>)
    requires Select(lines, Queued) != []
    requires forall i, j :: 0 <= i < j < |lines| ==> !(lines[i].fate.Queued? && lines[j].fate.Acknowledged?)
    ensures Select(Settle(lines), Queued) == Select(lines, Queued)[1..]
    ensures Select(Settle(lines), Acknowledged) == Select(lines, Acknowledged) + First(Select(lines, Queued))
  {
    var n := |lines| - 1;
    SelectQueuedIsOpen(lines[..n]);
    var s := Settle(lines);
    if Select(lines[..n], Queued) != [] {
      SettleSelect(lines[..n]);
      assert s[..n] == Settle(lines[..n]) && s[n] == lines[n];
    } else {
      assert s[..n] == lines[..n];
    }
  }

  lemma {:induction false} EntriesTail(ms: seq<Message>)
    requires ms != []
    ensures Entries(ms[1..]) == Entries(ms)[1..]
  {
    var n := |ms| - 1;
    if n > 0 {
      EntriesTail(ms[..n]);
      assert ms[1..][..n - 1] == ms[..n][1..];
    }
  }

  lemma SettleBalanced(b: Book, ms: seq<Message>)
    requires Balanced(b, ms) && ms != []
    ensures Balanced(Book(Settle(b.lines), b.acked + First(Select(b.lines, Queued))), ms[1..])
    ensures Continues(b.lines, Settle(b.lines))
  {
    hide Settle, Select, Entries;
    SettleSelect(b.lines);
    SettlePointwise(b.lines);
    EntriesTail(ms);
  }

  lemma {:induction false} DropBalanced(lines: seq<Line>)
    ensures Select(Drop(lines), Queued) == []
    ensures Select(Drop(lines), Acknowledged) == Select(lines, Acknowledged)
    ensures forall i :: 0 <= i < |lines| ==>
              Drop(lines)[i] == if lines[i].fate.Queued? then Line(lines[i].entry, Dropped) else lines[i]
  {
    if lines != [] {
      var n := |lines| - 1;
      DropBalanced(lines[..n]);
      assert Drop(lines)[..n] == Drop(lines[..n]);
    }
  }

  lemma {:induction false} EntriesIgnoreDelivery(ms: seq<Message>)
    ensures Entries(Deliver(ms).0) == Entries(ms)
  {
    if |ms| > 1 {
      var n := |ms| - 1;
      EntriesIgnoreDelivery(ms[..n]);
      assert Deliver(ms).0[..n] == Deliver(ms[..n]).0;
    }
  }

  /** What a command leaves in the queue it names. */
  lemma ApplyMessages(qs: Queues, r: Request, now: U64)
    requires r.queueId in qs
    ensures var (after, answer) := Apply(qs, r, now);
            var ms, live := qs[r.queueId].messages, Live(qs[r.queueId].messages, now);
            MessagesOf(after, r.queueId) ==
            match r
            case CreateQueue(_, _, _, _, _) => ms
            case Send(_, s, m, p, ttl) =>
              if s != qs[r.queueId].config.sender || ttl == 0 then ms
              else if answer == Success(Sent(false)) then live + [Message(m, p, now + ttl, false)] else live
            case Fetch(_, d) => if d != qs[r.queueId].config.recipient then ms else Deliver(live).0
            case Ack(_, d, _) =>
              if d != qs[r.queueId].config.recipient then ms
              else if answer.Success? && live != [] then live[1..] else live
            case DeleteQueue(_, _) => if answer.Success? then [] else ms
    ensures r.Ack? && Apply(qs, r, now).1.Success? ==> Live(qs[r.queueId].messages, now) != []
    ensures Apply(qs, r, now).1 == Success(Sent(false)) ==>
              r.Send? && r.ttl > 0 && r.sender == qs[r.queueId].config.sender && now + r.ttl < U64_LIMIT
  {
    hide Live, IndexOf;
  }

  lemma ApplyToMissing(qs: Queues, r: Request, now: U64)
    requires r.queueId !in qs
    ensures MessagesOf(Apply(qs, r, now).0, r.queueId) == []
    ensures Apply(qs, r, now).1 != Success(Sent(false))
  {
  }

  /** One command keeps the book of its queue balanced, ends fates only once, and adds a line exactly
      when it accepts a message. */
  lemma TrackBookBalanced(b: Book, qs: Queues, r: Request, now: U64)
    requires Balanced(b, MessagesOf(qs, r.queueId))
    ensures var t := TrackBook(b, qs, r, now);
            && Balanced(t, MessagesOf(Apply(qs, r, now).0, r.queueId))
            && Continues(b.lines, t.lines)
            && |t.lines| == |b.lines| + if Apply(qs, r, now).1 == Success(Sent(false)) then 1 else 0
  {
    hide Balanced, Live, Select, Apply, Deliver, Expire, Settle, Drop, Continues;
    var q := r.queueId;
    ContinuesSteps(b.lines, b.lines, b.lines);
    if q !in qs {
      ApplyToMissing(qs, r, now);
    } else {
      ApplyMessages(qs, r, now);
      var ms := qs[q].messages;
      ExpireBalanced(b, ms, now);
      var e := b.(lines := Expire(b.lines, now));
      var live := Live(ms, now);
      match r
      case Send(_, s, m, p, ttl) =>
        if Apply(qs, r, now).1 == Success(Sent(false)) {
          AcceptBalanced(e, live, Message(m, p, now + ttl, false));
          ContinuesSteps(b.lines, e.lines, e.lines + [Line(Entry(m, p, now + ttl), Queued)]);
        }
      case Fetch(_, _) => FetchBalanced(e, live);
      case Ack(_, _, _) =>
        if Apply(qs, r, now).1.Success? {
          SettleBalanced(e, live);
          ContinuesSteps(b.lines, e.lines, Settle(e.lines));
        }
      case DeleteQueue(_, _) => DeleteBalanced(b, ms);
      case CreateQueue(_, _, _, _, _) =>
    }
  }

  lemma ContinuesSteps(a: seq<Line>, b: seq<Line>, c: seq<Line>)
    ensures Continues(a, a)
    ensures b <= c ==> Continues(b, c)
    ensures Continues(a, b) && Continues(b, c) ==> Continues(a, c)
  {
  }

  lemma FetchBalanced(b: Book, ms: seq<Message>)
    requires Balanced(b, ms)
    ensures Balanced(b, Deliver(ms).0)
  {
    EntriesIgnoreDelivery(ms);
  }

  lemma DeleteBalanced(b: Book, ms: seq<Message>)
    requires Balanced(b, ms)
    ensures Balanced(b.(lines := Drop(b.lines)), [])
    ensures Continues(b.lines, Drop(b.lines))
  {
    hide Drop, Select;
    DropBalanced(b.lines);
  }

  lemma ApplyTracks(l: Ledger, qs: Queues, r: Request, now: U64)
    requires Tracks(l, qs)
    ensures Tracks(Track(l, qs, r, now), Apply(qs, r, now).0)
  {
    hide Balanced, TrackBook, Apply;
    assert Balanced(BookOf(l, r.queueId), MessagesOf(qs, r.queueId));
    TrackBookBalanced(BookOf(l, r.queueId), qs, r, now);
    forall q: Id ensures Balanced(BookOf(Track(l, qs, r, now), q), MessagesOf(Apply(qs, r, now).0, q)) {
      if q != r.queueId {
        ApplyFrame(qs, r, now, q);
        assert Balanced(BookOf(l, q), MessagesOf(qs, q));
      }
    }
  }

  /** The relay and its books after a run from the empty relay: in every reachable state, under any
      clock, the accepted messages are partitioned by fate. */
  function TrackedRun(cmds: seq<Timed>): (t: (Queues, Ledger))
    ensures t.0 == Run(map[], cmds)
    ensures Tracks(t.1, t.0)
  {
    if cmds == [] then (map[], map[])
    else
      var (qs, l) := TrackedRun(cmds[..|cmds| - 1]);
      var c := cmds[|cmds| - 1];
      ApplyTracks(l, qs, c.request, c.now);
      (Apply(qs, c.request, c.now).0, Track(l, qs, c.request, c.now))
  }

  /** Over every continuation of a run: no accepted message is forgotten, and a fate other than Queued is
      final. */
  lemma {:induction false} FatesAreFinal(cmds: seq<Timed>, n: nat, q: Id)
    requires n <= |cmds|
    ensures Continues(BookOf(TrackedRun(cmds[..n]).1, q).lines, BookOf(TrackedRun(cmds).1, q).lines)
    decreases |cmds|
  {
    hide Continues, TrackBook, Apply, Balanced;
    var now := BookOf(TrackedRun(cmds).1, q).lines;
    if n == |cmds| {
      assert cmds[..n] == cmds;
      ContinuesSteps(now, now, now);
    } else {
      var m := |cmds| - 1;
      var (qs, l) := TrackedRun(cmds[..m]);
      var c := cmds[m];
      assert cmds[..m][..n] == cmds[..n];
      FatesAreFinal(cmds[..m], n, q);
      var before := BookOf(l, q).lines;
      ContinuesSteps(before, before, before);
      if q == c.request.queueId {
        assert Balanced(BookOf(l, q), MessagesOf(qs, q));
        TrackBookBalanced(BookOf(l, q), qs, c.request, c.now);
      }
      ContinuesSteps(BookOf(TrackedRun(cmds[..n]).1, q).lines, before, now);
    }
  }
}
