/** Replay-checked exchange: at-least-once frames become exactly-once effects.

    Generic in the database `D`, the job type `J`, and the engine, which runs a job inside a transaction
    and renders its response. Every theorem holds for every engine. */
module Replay {
  import opened Base

  /** The replay table's primary key: authenticated subject and request identifier. */
  datatype Key = Key(subject: Id, requestId: RequestId)

  datatype Record = Record(request: Bytes, response: Bytes)

  /** The committed database, with its replay table. */
  datatype Store<D> = Store(db: D, records: map<Key, Record>)

  /** One authenticated request: its key, its exact bytes and the job they decode to. */
  datatype Call<J> = Call(key: Key, request: Bytes, job: J)

  /** What running a job in a transaction gives: an effect with its response, a rejection with its
      response, or a storage fault. */
  datatype Verdict<D> = Done(db: D, response: Bytes) | Rejected(response: Bytes) | Broken

  type Engine<!D, !J> = (D, J, U64) -> Verdict<D>

  datatype Outcome = Respond(response: Bytes) | Conflict | Fault

  // ----- the three storage steps of one exchange -----

  datatype Attempt<D> = Committed(store: Store<D>, response: Bytes) | MustRecord(response: Bytes) | Taken | Faulted

  function WithRecord<D, J>(s: Store<D>, c: Call<J>, db: D, response: Bytes): Store<D> {
    Store(db, s.records[c.key := Record(c.request, response)])
  }

  /** Effect and record in one transaction. A rejection is rolled back and still has to be recorded. */
  function EffectTx<D, J>(e: Engine<D, J>, s: Store<D>, c: Call<J>, now: U64): Attempt<D> {
    match e(s.db, c.job, now)
    case Broken => Faulted
    case Rejected(response) => MustRecord(response)
    case Done(db, response) =>
      if c.key in s.records then Taken else Committed(WithRecord(s, c, db, response), response)
  }

  /** The record alone, in a second transaction. */
  function RecordTx<D, J>(s: Store<D>, c: Call<J>, response: Bytes): Attempt<D> {
    if c.key in s.records then Taken else Committed(WithRecord(s, c, s.db, response), response)
  }

  /** The stored record decides a duplicate. */
  function Resolve<D, J>(s: Store<D>, c: Call<J>): Outcome {
    if c.key !in s.records then Fault
    else if s.records[c.key].request == c.request then Respond(s.records[c.key].response)
    else Conflict
  }

  // ----- the exchange as written -----

  /** The storage calls that can fail: opening either transaction, the insertion, the commit, the lookup. */
  datatype Point = BeginEffect | BeginRecord | Insert | Commit | Lookup

  /** The exchange, when the second transaction of a rejection finds the store as `others`. */
  function Exchanged<D, J>(e: Engine<D, J>, s: Store<D>, c: Call<J>, now: U64, others: Store<D>,
                           failing: set<Point>): (Store<D>, Outcome) {
    if BeginEffect in failing then (s, Fault)
    else
      match EffectTx(e, s, c, now)
      case Faulted => (s, Fault)
      case MustRecord(response) =>
        if BeginRecord in failing then (others, Fault) else Finished(others, c, RecordTx(others, c, response), failing)
      case attempt => Finished(s, c, attempt, failing)
  }

  function Finished<D, J>(s: Store<D>, c: Call<J>, attempt: Attempt<D>, failing: set<Point>): (Store<D>, Outcome) {
    if Insert in failing then (s, Fault)
    else
      match attempt
      case Committed(s', response) => if Commit in failing then (s, Fault) else (s', Respond(response))
      case _ => (s, if Lookup in failing then Fault else Resolve(s, c))
  }

  /** The exchange alone on the store, with no storage fault. */
  function Exchange<D, J>(e: Engine<D, J>, s: Store<D>, c: Call<J>, now: U64): (Store<D>, Outcome) {
    Exchanged(e, s, c, now, s, {})
  }

  class Connection<D, J> {
    var store: Store<D>

    constructor (store: Store<D>)
      ensures this.store == store
    {
      this.store := store;
    }

    /** INSERT of the record: false when the key is taken. */
    method InsertRecord(transaction: Store<D>, c: Call<J>, response: Bytes) returns (inserted: bool, after: Store<D>)
      ensures inserted <==> c.key !in transaction.records
      ensures after == if inserted then WithRecord(transaction, c, transaction.db, response) else transaction
    {
      if c.key in transaction.records {
        return false, transaction;
      }
      return true, transaction.(records := transaction.records[c.key := Record(c.request, response)]);
    }

    /** `others` is the committed store when a second transaction is opened after a rejection. */
    method Exchange(e: Engine<D, J>, c: Call<J>, now: U64, others: Store<D>, failing: set<Point>) returns (r: Outcome)
      modifies this
      ensures (store, r) == Exchanged(e, old(store), c, now, others, failing)
    {
      if BeginEffect in failing {
        return Fault;
      }
      var transaction := store;
      var response;
      match e(transaction.db, c.job, now) {
        case Broken =>
          return Fault;
        case Done(db, rendered) =>
          transaction := transaction.(db := db);
          response := rendered;
        case Rejected(rendered) =>
          // The effect is dropped; others may commit before the record's own transaction opens.
          store := others;
          if BeginRecord in failing {
            return Fault;
          }
          transaction := store;
          response := rendered;
      }
      if Insert in failing {
        return Fault;
      }
      var inserted;
      inserted, transaction := InsertRecord(transaction, c, response);
      if inserted {
        if Commit in failing {
          return Fault;
        }
        store := transaction;
        return Respond(response);
      }
      if Lookup in failing {
        return Fault;
      }
      if c.key !in store.records {
        return Fault;
      }
      if store.records[c.key].request == c.request {
        return Respond(store.records[c.key].response);
      }
      return Conflict;
    }
  }

  // ----- one exchange -----

  /** A recorded key: the store is untouched, equal bytes get the stored response, others a conflict. */
  lemma RetryIsReplayed<D, J>(e: Engine<D, J>, s: Store<D>, c: Call<J>, now: U64)
    requires c.key in s.records
    ensures Exchange(e, s, c, now).0 == s
    ensures !e(s.db, c.job, now).Broken? ==>
              Exchange(e, s, c, now).1
              == if s.records[c.key].request == c.request then Respond(s.records[c.key].response) else Conflict
  {
  }

  /** The daemon's shortcut: look the record up first, and execute only when there is none. */
  function LookupFirst<D, J>(e: Engine<D, J>, s: Store<D>, c: Call<J>, now: U64): (Store<D>, Outcome) {
    if c.key in s.records then (s, Resolve(s, c)) else Exchange(e, s, c, now)
  }

  /** The shortcut changes neither response nor state, except that it answers a recorded key whose
      re-execution would hit a storage fault. */
  lemma LookupFirstAgrees<D, J>(e: Engine<D, J>, s: Store<D>, c: Call<J>, now: U64)
    ensures LookupFirst(e, s, c, now) == Exchange(e, s, c, now)
            <==> !(c.key in s.records && e(s.db, c.job, now).Broken?)
  {
  }

  // ----- many connections, crashes and storage faults -----

  /** Where one connection stands between its storage steps. */
  datatype Phase<J> = Recording(call: Call<J>, now: U64, response: Bytes, seen: nat) | Resolving(call: Call<J>)

  /** A committed effect. */
  datatype Effect<J> = Effect(call: Call<J>, now: U64)

  /** Why a record says what it says: the response of the n-th effect, or the refusal of a call at the
      point where `seen` effects had been committed. */
  datatype Origin<J> = OfEffect(n: nat) | OfRefusal(call: Call<J>, now: U64, seen: nat)

  datatype Reply<J> = Reply(call: Call<J>, outcome: Outcome)

  /** Committed store, connections in flight, and the history: effects in commit order, origins of the
      records, and the replies handed out. */
  datatype System<D, J> = System(store: Store<D>, phases: map<nat, Phase<J>>,
                                 effects: seq<Effect<J>>, origins: map<Key, Origin<J>>, replies: seq<Reply<J>>)

  /** How a storage step goes: to completion, failing before its commit, or committing and crashing. */
  datatype Luck = Works | Fails | Crashes

  datatype Event<J> =
    | Start(conn: nat, call: Call<J>, now: U64, luck: Luck)
    | Write(conn: nat, luck: Luck)
    | Read(conn: nat, luck: Luck)
    | Crash(conn: nat)

  function Initial<D, J>(db: D): System<D, J> {
    System(Store(db, map[]), map[], [], map[], [])
  }

  function Say<D, J>(s: System<D, J>, c: Call<J>, o: Outcome, luck: Luck): System<D, J> {
    if luck.Crashes? then s else s.(replies := s.replies + [Reply(c, o)])
  }

  function Step<D, J>(e: Engine<D, J>, s: System<D, J>, ev: Event<J>): System<D, J> {
    match ev
    case Crash(conn) => s.(phases := s.phases - {conn})
    case Start(conn, c, now, luck) =>
      if conn in s.phases then s
      else if luck.Fails? then Say(s, c, Fault, luck)
      else
        (match EffectTx(e, s.store, c, now)
         case Faulted => Say(s, c, Fault, luck)
         case MustRecord(response) =>
           if luck.Crashes? then s
           else s.(phases := s.phases[conn := Recording(c, now, response, |s.effects|)])
         case Taken => if luck.Crashes? then s else s.(phases := s.phases[conn := Resolving(c)])
         case Committed(store, response) =>
           Say(s.(store := store, effects := s.effects + [Effect(c, now)],
                  origins := s.origins[c.key := OfEffect(|s.effects|)]), c, Respond(response), luck))
    case Write(conn, luck) =>
      if conn !in s.phases || !s.phases[conn].Recording? then s
      else
        var Recording(c, now, response, seen) := s.phases[conn];
        var free := s.(phases := s.phases - {conn});
        if luck.Fails? then Say(free, c, Fault, luck)
        else
          (match RecordTx(s.store, c, response)
           case Committed(store, _) =>
             Say(free.(store := store, origins := s.origins[c.key := OfRefusal(c, now, seen)]), c, Respond(response),
                 luck)
           case _ => if luck.Crashes? then free else s.(phases := s.phases[conn := Resolving(c)]))
    case Read(conn, luck) =>
      if conn !in s.phases || !s.phases[conn].Resolving? then s
      else
        var c := s.phases[conn].call;
        Say(s.(phases := s.phases - {conn}), c, if luck.Fails? then Fault else Resolve(s.store, c), luck)
  }

  function Run<D, J>(e: Engine<D, J>, s: System<D, J>, evs: seq<Event<J>>): System<D, J> {
    if evs == [] then s else Step(e, Run(e, s, evs[..|evs| - 1]), evs[|evs| - 1])
  }

  /** The database after a list of effects, each run once and alone. */
  function After<D, J>(e: Engine<D, J>, db: D, effects: seq<Effect<J>>): D {
    if effects == [] then db
    else
      var n := |effects| - 1;
      var before := After(e, db, effects[..n]);
      match e(before, effects[n].call.job, effects[n].now)
      case Done(after, _) => after
      case _ => before
  }

  /** The record's origin accounts for it. */
  ghost predicate Justified<D, J>(e: Engine<D, J>, db: D, effects: seq<Effect<J>>, key: Key, o: Origin<J>, r: Record) {
    match o
    case OfEffect(n) =>
      && n < |effects| && effects[n].call.key == key && effects[n].call.request == r.request
      && var v := e(After(e, db, effects[..n]), effects[n].call.job, effects[n].now);
         v.Done? && v.response == r.response
    case OfRefusal(c, now, seen) =>
      && seen <= |effects| && c.key == key && c.request == r.request
      && e(After(e, db, effects[..seen]), c.job, now) == Rejected(r.response)
  }

  ghost predicate PhaseSound<D, J>(e: Engine<D, J>, db: D, s: System<D, J>, p: Phase<J>) {
    match p
    case Recording(c, now, response, seen) =>
      seen <= |s.effects| && e(After(e, db, s.effects[..seen]), c.job, now) == Rejected(response)
    case Resolving(c) => c.key in s.store.records
  }

  ghost predicate ReplySound<J>(records: map<Key, Record>, r: Reply<J>) {
    match r.outcome
    case Respond(response) => r.call.key in records && records[r.call.key] == Record(r.call.request, response)
    case Conflict => r.call.key in records && records[r.call.key].request != r.call.request
    case Fault => true
  }

  /** The part of exactly-once execution that speaks of the store and its history. */
  ghost predicate StoreExact<D, J>(e: Engine<D, J>, db: D, s: System<D, J>) {
    && s.store.db == After(e, db, s.effects)
    && s.origins.Keys == s.store.records.Keys
    && (forall k :: k in s.origins ==> Justified(e, db, s.effects, k, s.origins[k], s.store.records[k]))
    && (forall i :: 0 <= i < |s.effects| ==>
          s.effects[i].call.key in s.origins && s.origins[s.effects[i].call.key] == OfEffect(i))
  }

  /** The database is the serial execution of the committed effects, each key has at most one effect and
      exactly one record, every record is accounted for, and every reply agrees with the records. */
  ghost predicate ExactlyOnce<D, J>(e: Engine<D, J>, db: D, s: System<D, J>) {
    && StoreExact(e, db, s)
    && (forall conn :: conn in s.phases ==> PhaseSound(e, db, s, s.phases[conn]))
    && (forall r :: r in s.replies ==> ReplySound(s.store.records, r))
  }

  /** Every call in the history and in flight satisfies a condition. */
  ghost predicate AllCalls<D, J>(s: System<D, J>, ok: Call<J> -> bool) {
    && (forall i :: 0 <= i < |s.effects| ==> ok(s.effects[i].call))
    && (forall k :: k in s.origins && s.origins[k].OfRefusal? ==> ok(s.origins[k].call))
    && (forall conn :: conn in s.phases ==> ok(s.phases[conn].call))
    && (forall r :: r in s.replies ==> ok(r.call))
  }

  // ----- proofs -----

  /** What holds of every call that is started holds of every call. */
  lemma StepAllCalls<D, J>(e: Engine<D, J>, s: System<D, J>, ev: Event<J>, ok: Call<J> -> bool)
    requires AllCalls(s, ok) && (ev.Start? ==> ok(ev.call))
    ensures AllCalls(Step(e, s, ev), ok)
  {
    hide EffectTx, RecordTx, Resolve;
    StepShape(e, s, ev);
    var t := Step(e, s, ev);
    forall r | r in t.replies ensures ok(r.call) {
      StepReplies(e, s, ev, r);
    }
    hide Step;
    StepPhaseCalls(e, s, ev);
  }

  /** A reply is an earlier one, or answers the call the acting connection is at. */
  lemma StepReplies<D, J>(e: Engine<D, J>, s: System<D, J>, ev: Event<J>, r: Reply<J>)
    requires r in Step(e, s, ev).replies
    ensures r in s.replies || (ev.Start? && r.call == ev.call)
            || (!ev.Start? && ev.conn in s.phases && r.call == s.phases[ev.conn].call)
  {
  }

  lemma StepPhaseCalls<D, J>(e: Engine<D, J>, s: System<D, J>, ev: Event<J>)
    ensures var t := Step(e, s, ev);
            forall conn :: conn in t.phases ==>
              (conn in s.phases && t.phases[conn].call == s.phases[conn].call)
                || (ev.Start? && t.phases[conn].call == ev.call)
  {
  }

  /** A call without a record commits its effect and its record together. */
  ghost predicate Applies<D, J>(e: Engine<D, J>, s: System<D, J>, t: System<D, J>, c: Call<J>, now: U64) {
    var v := e(s.store.db, c.job, now);
    && v.Done? && c.key !in s.store.records
    && t.store == WithRecord(s.store, c, v.db, v.response)
    && t.effects == s.effects + [Effect(c, now)]
    && t.origins == s.origins[c.key := OfEffect(|s.effects|)]
  }

  /** A refusal without a record commits its record and nothing else. */
  ghost predicate Notes<D, J>(s: System<D, J>, t: System<D, J>, p: Phase<J>) {
    && p.Recording? && p.call.key !in s.store.records
    && t.store == WithRecord(s.store, p.call, s.store.db, p.response)
    && t.effects == s.effects
    && t.origins == s.origins[p.call.key := OfRefusal(p.call, p.now, p.seen)]
  }

  /** Only these two changes ever reach the store. */
  lemma StepShape<D, J>(e: Engine<D, J>, s: System<D, J>, ev: Event<J>)
    ensures var t := Step(e, s, ev);
            || (t.store == s.store && t.effects == s.effects && t.origins == s.origins)
            || (ev.Start? && Applies(e, s, t, ev.call, ev.now))
            || (ev.Write? && ev.conn in s.phases && Notes(s, t, s.phases[ev.conn]))
  {
  }

  /** What a step does to the phases: at most the acting connection changes. */
  lemma StepPhases<D, J>(e: Engine<D, J>, s: System<D, J>, ev: Event<J>)
    ensures var t := Step(e, s, ev);
            forall conn :: conn in t.phases ==>
              || (conn in s.phases && t.phases[conn] == s.phases[conn])
              || (t.phases[conn].Resolving? && t.phases[conn].call.key in s.store.records)
              || (ev.Start? && t.phases[conn].Recording? && t.phases[conn].seen == |s.effects|
                  && e(s.store.db, t.phases[conn].call.job, t.phases[conn].now) == Rejected(t.phases[conn].response))
  {
  }

  /** What a step says: at most one reply, and the records bear it out. */
  lemma NewReplySound<D, J>(e: Engine<D, J>, db: D, s: System<D, J>, ev: Event<J>)
    requires ev.Read? && ev.conn in s.phases ==> PhaseSound(e, db, s, s.phases[ev.conn])
    ensures var t := Step(e, s, ev);
            forall r :: r in t.replies ==> r in s.replies || ReplySound(t.store.records, r)
  {
    hide After;
  }

  /** Records are never removed or rewritten, and committed effects stay in place. */
  lemma StepKeepsRecords<D, J>(e: Engine<D, J>, s: System<D, J>, ev: Event<J>)
    ensures var t := Step(e, s, ev);
            && s.effects <= t.effects
            && forall k :: k in s.store.records ==> k in t.store.records && t.store.records[k] == s.store.records[k]
  {
    StepShape(e, s, ev);
  }

  lemma AfterPrefix<D, J>(e: Engine<D, J>, db: D, effects: seq<Effect<J>>, x: Effect<J>, n: nat)
    requires n <= |effects|
    ensures (effects + [x])[..n] == effects[..n]
    ensures After(e, db, effects + [x]) ==
            match e(After(e, db, effects), x.call.job, x.now) case Done(d, _) => d case _ => After(e, db, effects)
  {
    assert (effects + [x])[..|effects|] == effects;
  }

  lemma JustifiedStays<D, J>(e: Engine<D, J>, db: D, effects: seq<Effect<J>>, x: Effect<J>, k: Key, o: Origin<J>,
                             r: Record)
    requires Justified(e, db, effects, k, o, r)
    ensures Justified(e, db, effects + [x], k, o, r)
  {
    AfterPrefix(e, db, effects, x, if o.OfEffect? then o.n else o.seen);
  }

  lemma PhaseStays<D, J>(e: Engine<D, J>, db: D, s: System<D, J>, t: System<D, J>, p: Phase<J>)
    requires PhaseSound(e, db, s, p)
    requires t.effects == s.effects || exists x :: t.effects == s.effects + [x]
    requires forall k :: k in s.store.records ==> k in t.store.records
    ensures PhaseSound(e, db, t, p)
  {
    if p.Recording? {
      assert t.effects[..p.seen] == s.effects[..p.seen];
    }
  }

  lemma AppliesExact<D, J>(e: Engine<D, J>, db: D, s: System<D, J>, t: System<D, J>, c: Call<J>, now: U64)
    requires StoreExact(e, db, s) && Applies(e, s, t, c, now)
    ensures StoreExact(e, db, t)
  {
    hide After;
    var x := Effect(c, now);
    AfterPrefix(e, db, s.effects, x, |s.effects|);
    forall k | k in t.origins ensures Justified(e, db, t.effects, k, t.origins[k], t.store.records[k]) {
      if k != c.key {
        JustifiedStays(e, db, s.effects, x, k, s.origins[k], s.store.records[k]);
      } else {
        assert t.effects[..|s.effects|] == s.effects;
      }
    }
  }

  lemma NotesExact<D, J>(e: Engine<D, J>, db: D, s: System<D, J>, t: System<D, J>, p: Phase<J>)
    requires StoreExact(e, db, s) && Notes(s, t, p) && PhaseSound(e, db, s, p)
    ensures StoreExact(e, db, t)
  {
    hide After;
    forall k | k in t.origins ensures Justified(e, db, t.effects, k, t.origins[k], t.store.records[k]) {
      if k != p.call.key {
        assert Justified(e, db, s.effects, k, s.origins[k], s.store.records[k]);
      }
    }
  }

  lemma StepStoreExact<D, J>(e: Engine<D, J>, db: D, s: System<D, J>, ev: Event<J>)
    requires ExactlyOnce(e, db, s)
    ensures StoreExact(e, db, Step(e, s, ev))
  {
    hide Step, After, Justified, Applies, Notes, PhaseSound;
    var t := Step(e, s, ev);
    StepShape(e, s, ev);
    if ev.Start? && Applies(e, s, t, ev.call, ev.now) {
      AppliesExact(e, db, s, t, ev.call, ev.now);
    } else if ev.Write? && ev.conn in s.phases && Notes(s, t, s.phases[ev.conn]) {
      NotesExact(e, db, s, t, s.phases[ev.conn]);
    }
  }

  lemma StepPhasesSound<D, J>(e: Engine<D, J>, db: D, s: System<D, J>, ev: Event<J>)
    requires ExactlyOnce(e, db, s)
    ensures var t := Step(e, s, ev);
            forall conn :: conn in t.phases ==> PhaseSound(e, db, t, t.phases[conn])
  {
    hide Step, After, Justified, ReplySound;
    var t := Step(e, s, ev);
    StepShape(e, s, ev);
    StepKeepsRecords(e, s, ev);
    StepPhases(e, s, ev);
    assert s.effects[..|s.effects|] == s.effects;
    forall conn | conn in t.phases ensures PhaseSound(e, db, t, t.phases[conn]) {
      var p := t.phases[conn];
      assert PhaseSound(e, db, s, p);
      PhaseStays(e, db, s, t, p);
    }
  }

  lemma StepRepliesSound<D, J>(e: Engine<D, J>, db: D, s: System<D, J>, ev: Event<J>)
    requires ExactlyOnce(e, db, s)
    ensures var t := Step(e, s, ev);
            forall r :: r in t.replies ==> ReplySound(t.store.records, r)
  {
    hide Step, After, Justified, PhaseSound;
    var t := Step(e, s, ev);
    StepKeepsRecords(e, s, ev);
    NewReplySound(e, db, s, ev);
    forall r | r in t.replies ensures ReplySound(t.store.records, r) {
      if r in s.replies {
        assert ReplySound(s.store.records, r);
      }
    }
  }

  /** Every storage step of every connection, in any interleaving, keeps exactly-once execution. */
  lemma StepExactlyOnce<D, J>(e: Engine<D, J>, db: D, s: System<D, J>, ev: Event<J>)
    requires ExactlyOnce(e, db, s)
    ensures ExactlyOnce(e, db, Step(e, s, ev))
  {
    StepStoreExact(e, db, s, ev);
    StepPhasesSound(e, db, s, ev);
    StepRepliesSound(e, db, s, ev);
    hide Step, Justified, PhaseSound, ReplySound;
  }

  lemma {:induction false} RunExactlyOnce<D, J>(e: Engine<D, J>, db: D, evs: seq<Event<J>>)
    ensures ExactlyOnce(e, db, Run(e, Initial(db), evs))
  {
    hide Step, ExactlyOnce;
    if evs == [] {
      InitialExactlyOnce(e, db);
    } else {
      RunExactlyOnce(e, db, evs[..|evs| - 1]);
      StepExactlyOnce(e, db, Run(e, Initial(db), evs[..|evs| - 1]), evs[|evs| - 1]);
    }
  }

  lemma InitialExactlyOnce<D, J>(e: Engine<D, J>, db: D)
    ensures ExactlyOnce(e, db, Initial(db))
  {
  }

  /** Over every run: no key has two committed effects. */
  lemma OneEffectPerKey<D, J>(e: Engine<D, J>, db: D, evs: seq<Event<J>>, i: nat, j: nat)
    requires var s := Run(e, Initial(db), evs); i < j < |s.effects|
    ensures var s := Run(e, Initial(db), evs); s.effects[i].call.key != s.effects[j].call.key
  {
    RunExactlyOnce(e, db, evs);
  }

  /** Over every run: all answers to one key and one byte string are the same response, and a key never
      both answers and conflicts for the same bytes. */
  lemma RepliesAgree<D, J>(e: Engine<D, J>, db: D, evs: seq<Event<J>>, a: Reply<J>, b: Reply<J>)
    requires var s := Run(e, Initial(db), evs); a in s.replies && b in s.replies
    requires a.call.key == b.call.key && a.call.request == b.call.request
    requires !a.outcome.Fault? && !b.outcome.Fault?
    ensures a.outcome == b.outcome
  {
    RunExactlyOnce(e, db, evs);
    var s := Run(e, Initial(db), evs);
    assert ReplySound(s.store.records, a) && ReplySound(s.store.records, b);
  }

  /** Over every continuation of a run: the record of a key never changes. */
  lemma {:induction false} RunKeepsRecords<D, J>(e: Engine<D, J>, s: System<D, J>, evs: seq<Event<J>>, k: Key)
    requires k in s.store.records
    ensures var t := Run(e, s, evs); k in t.store.records && t.store.records[k] == s.store.records[k]
  {
    hide Step;
    if evs != [] {
      RunKeepsRecords(e, s, evs[..|evs| - 1], k);
      StepKeepsRecords(e, Run(e, s, evs[..|evs| - 1]), evs[|evs| - 1]);
    }
  }

  /** Over every continuation of a run: once a key has a record, no event for it changes the database. */
  lemma RecordedCallHasNoEffect<D, J>(e: Engine<D, J>, s: System<D, J>, ev: Event<J>)
    requires ev.Start? && ev.call.key in s.store.records
    ensures Step(e, s, ev).store == s.store && Step(e, s, ev).effects == s.effects
  {
    StepShape(e, s, ev);
  }

  // ----- the exchange as written is a path of these steps -----

  /** How the first transaction goes when these storage calls fail. */
  function StartLuck<D, J>(e: Engine<D, J>, s: Store<D>, c: Call<J>, now: U64, failing: set<Point>): Luck {
    if BeginEffect in failing then Fails
    else
      match EffectTx(e, s, c, now)
      case Taken => if Insert in failing then Fails else Works
      case Committed(_, _) => if Insert in failing || Commit in failing then Fails else Works
      case _ => Works
  }

  /** How the second transaction goes. */
  function WriteLuck<D, J>(s: Store<D>, c: Call<J>, failing: set<Point>): Luck {
    if BeginRecord in failing || Insert in failing then Fails
    else if c.key !in s.records && Commit in failing then Fails
    else Works
  }

  function ReadLuck(failing: set<Point>): Luck {
    if Lookup in failing then Fails else Works
  }

  /** None of these events is of this connection. */
  ghost predicate Elsewhere<J>(evs: seq<Event<J>>, conn: nat) {
    forall i :: 0 <= i < |evs| ==> evs[i].conn != conn
  }

  /** Events of other connections leave this one where it is, and take no reply back. */
  lemma StepElsewhere<D, J>(e: Engine<D, J>, s: System<D, J>, ev: Event<J>, conn: nat)
    requires ev.conn != conn
    ensures var t := Step(e, s, ev);
            && (conn in t.phases <==> conn in s.phases)
            && (conn in s.phases ==> t.phases[conn] == s.phases[conn])
            && s.replies <= t.replies
  {
    hide EffectTx, RecordTx, Resolve;
  }

  lemma {:induction false} RunElsewhere<D, J>(e: Engine<D, J>, s: System<D, J>, evs: seq<Event<J>>, conn: nat)
    requires Elsewhere(evs, conn)
    ensures var t := Run(e, s, evs);
            && (conn in t.phases <==> conn in s.phases)
            && (conn in s.phases ==> t.phases[conn] == s.phases[conn])
            && s.replies <= t.replies
  {
    hide Step;
    if evs != [] {
      var n := |evs| - 1;
      RunElsewhere(e, s, evs[..n], conn);
      StepElsewhere(e, Run(e, s, evs[..n]), evs[n], conn);
    }
  }

  /** The first step of an exchange: decided and answered, waiting to record, or waiting to look up. */
  lemma StartIsExchange<D, J>(e: Engine<D, J>, s: System<D, J>, conn: nat, c: Call<J>, now: U64, others: Store<D>,
                              failing: set<Point>)
    requires conn !in s.phases
    ensures var t := Step(e, s, Start(conn, c, now, StartLuck(e, s.store, c, now, failing)));
            var (after, outcome) := Exchanged(e, s.store, c, now, others, failing);
            if BeginEffect !in failing && EffectTx(e, s.store, c, now).MustRecord?
            then t.store == s.store
                 && t.phases == s.phases[conn := Recording(c, now, EffectTx(e, s.store, c, now).response, |s.effects|)]
            else
              && t.store == after
              && (if conn in t.phases
                  then t.phases[conn] == Resolving(c) && c.key in t.store.records
                       && outcome == if Lookup in failing then Fault else Resolve(t.store, c)
                  else t.replies == s.replies + [Reply(c, outcome)])
  {
  }

  /** The record's own transaction: decided and answered, or waiting to look up. */
  lemma WriteIsExchange<D, J>(e: Engine<D, J>, s: System<D, J>, conn: nat, failing: set<Point>)
    requires conn in s.phases && s.phases[conn].Recording?
    ensures var p := s.phases[conn];
            var t := Step(e, s, Write(conn, WriteLuck(s.store, p.call, failing)));
            var (after, outcome) :=
              if BeginRecord in failing then (s.store, Fault)
              else Finished(s.store, p.call, RecordTx(s.store, p.call, p.response), failing);
            && t.store == after
            && (if conn in t.phases
                then t.phases[conn] == Resolving(p.call) && p.call.key in t.store.records
                     && outcome == if Lookup in failing then Fault else Resolve(t.store, p.call)
                else t.replies == s.replies + [Reply(p.call, outcome)])
  {
  }

  /** The lookup of a duplicate: later records do not change what it finds. */
  lemma ReadIsExchange<D, J>(e: Engine<D, J>, s: System<D, J>, evs: seq<Event<J>>, conn: nat, failing: set<Point>)
    requires Elsewhere(evs, conn) && conn in s.phases && s.phases[conn].Resolving?
    requires s.phases[conn].call.key in s.store.records
    ensures var c := s.phases[conn].call;
            var t := Step(e, Run(e, s, evs), Read(conn, ReadLuck(failing)));
            conn !in t.phases && Reply(c, if Lookup in failing then Fault else Resolve(s.store, c)) in t.replies
  {
    var c, later := s.phases[conn].call, Run(e, s, evs);
    RunElsewhere(e, s, evs, conn);
    RunKeepsRecords(e, s, evs, c.key);
    hide Run;
    var t := Step(e, later, Read(conn, ReadLuck(failing)));
    assert t.replies[|later.replies|] == Reply(c, if Lookup in failing then Fault else Resolve(s.store, c));
  }

  /** An answer given at once, or after a lookup, whatever other connections do before it. */
  lemma AnswerComes<D, J>(e: Engine<D, J>, s: System<D, J>, conn: nat, c: Call<J>, outcome: Outcome,
                          failing: set<Point>, evs: seq<Event<J>>)
    requires Elsewhere(evs, conn)
    requires if conn in s.phases
             then s.phases[conn] == Resolving(c) && c.key in s.store.records
                  && outcome == if Lookup in failing then Fault else Resolve(s.store, c)
             else Reply(c, outcome) in s.replies
    ensures var t := Step(e, Run(e, s, evs), Read(conn, ReadLuck(failing)));
            conn !in t.phases && Reply(c, outcome) in t.replies
  {
    hide Run, Step;
    if conn in s.phases {
      ReadIsExchange(e, s, evs, conn, failing);
    } else {
      RunElsewhere(e, s, evs, conn);
      IdleRead(e, Run(e, s, evs), conn, ReadLuck(failing));
    }
  }

  lemma IdleRead<D, J>(e: Engine<D, J>, s: System<D, J>, conn: nat, luck: Luck)
    requires conn !in s.phases
    ensures Step(e, s, Read(conn, luck)) == s && Step(e, s, Write(conn, luck)) == s
  {
  }

  /** The exchange as written, with the storage calls that fail, is Start, Write and Read of its
      connection with any events of others in between: the same outcome is the reply, and the same store
      is left by the transaction that decides it. */
  lemma ExchangeIsSteps<D, J>(e: Engine<D, J>, s: System<D, J>, conn: nat, c: Call<J>, now: U64, failing: set<Point>,
                              others: seq<Event<J>>, more: seq<Event<J>>)
    requires conn !in s.phases && Elsewhere(others, conn) && Elsewhere(more, conn)
    ensures var first := Step(e, s, Start(conn, c, now, StartLuck(e, s.store, c, now, failing)));
            var between := Run(e, first, others);
            var second := Step(e, between, Write(conn, WriteLuck(between.store, c, failing)));
            var last := Step(e, Run(e, second, more), Read(conn, ReadLuck(failing)));
            var (after, outcome) := Exchanged(e, s.store, c, now, between.store, failing);
            && conn !in last.phases && Reply(c, outcome) in last.replies
            && after == (if BeginEffect !in failing && EffectTx(e, s.store, c, now).MustRecord? then second.store
                         else first.store)
  {
    hide Step, Run, EffectTx, Resolve;
    var first := Step(e, s, Start(conn, c, now, StartLuck(e, s.store, c, now, failing)));
    var between := Run(e, first, others);
    var second := Step(e, between, Write(conn, WriteLuck(between.store, c, failing)));
    var outcome := Exchanged(e, s.store, c, now, between.store, failing).1;
    StartIsExchange(e, s, conn, c, now, between.store, failing);
    RunElsewhere(e, first, others, conn);
    if BeginEffect !in failing && EffectTx(e, s.store, c, now).MustRecord? {
      WriteIsExchange(e, between, conn, failing);
      AnswerComes(e, second, conn, c, outcome, failing, more);
    } else if conn in first.phases {
      RunKeepsRecords(e, first, others, c.key);
      IdleWrite(e, between, conn, WriteLuck(between.store, c, failing));
      ResolveAgrees(first.store, between.store, c);
      AnswerComes(e, second, conn, c, outcome, failing, more);
    } else {
      IdleRead(e, between, conn, WriteLuck(between.store, c, failing));
      assert between.replies[|s.replies|] == first.replies[|s.replies|] == Reply(c, outcome);
      AnswerComes(e, second, conn, c, outcome, failing, more);
    }
  }

  lemma IdleWrite<D, J>(e: Engine<D, J>, s: System<D, J>, conn: nat, luck: Luck)
    requires conn in s.phases && s.phases[conn].Resolving?
    ensures Step(e, s, Write(conn, luck)) == s
  {
  }

  lemma ResolveAgrees<D, J>(s: Store<D>, t: Store<D>, c: Call<J>)
    requires c.key in s.records && c.key in t.records && t.records[c.key] == s.records[c.key]
    ensures Resolve(t, c) == Resolve(s, c)
  {
  }

  // ----- one call, alone -----

  /** A call that succeeds under an unused key is committed and answered in one step. */
  lemma StartCommits<D, J>(e: Engine<D, J>, s: System<D, J>, conn: nat, c: Call<J>, now: U64, db: D, response: Bytes)
    requires conn !in s.phases && c.key !in s.store.records && e(s.store.db, c.job, now) == Done(db, response)
    ensures var t := Step(e, s, Start(conn, c, now, Works));
            && t.phases == s.phases && t.store.db == db
            && t.store.records == s.store.records[c.key := Record(c.request, response)]
            && t.replies == s.replies + [Reply(c, Respond(response))]
            && Reply(c, Respond(response)) in t.replies
  {
  }
}
