/** The uploader, its protected store, an unreliable network and the replay-checked relay, over every run
    with lost responses, store failures at any point, crashes and restores. */
module UploadRun {
  import opened Base
  import opened Manifest
  import opened BlobCodec
  import opened Uploader
  import opened BlobService
  import opened UploadFacts
  import BI = BlobInvariant
  import DB = DurableBlob
  import R = Replay
  import S = Snapshot

  /** One transmission: the stage it belongs to and the frame. */
  datatype Transmission = Transmission(rank: nat, frame: Bytes)

  /** `memory` is the running uploader, `stored` the bytes on the store, and `waiting` says that a frame
      is out. The rest is history: `disk` is the uploader whose snapshot is stored, `sent` all
      transmissions, `successes` the advances that returned success, `salvaged` the stages a restore found
      beyond the crashed uploader, whose rank is `lost`. */
  datatype World = World(memory: Option<Upload>, waiting: bool, stored: Option<Bytes>,
                         relay: R.System<DB.BlobDb, BlobJob>,
                         disk: Option<Upload>, sent: seq<Transmission>, successes: nat, salvaged: nat, lost: nat)

  datatype Act =
    | AtRelay(event: R.Event<BlobJob>)
    | Transmit(id: RequestId, first: StoreOutcome)
    | Receive(reply: Option<Bytes>, second: StoreOutcome)
    | Crash
    | Reopen

  /** The upload at hand. */
  datatype Setup = Setup(x: Suite, blob: Prepared, ttl: U64) {
    ghost predicate Valid() {
      Genuine(x) && blob.Valid(x)
    }
    function Count(): nat {
      |blob.encrypted.chunks|
    }
  }

  function Init(t: Setup): World {
    World(Some(Upload(t.blob, t.ttl, Begin, None)), false, None, R.Initial(DB.EMPTY), None, [], 0, 0, 0)
  }

  /** An OK response is one the relay gave to these bytes; the network may also lose the response or
      bring anything that is not an OK response. */
  ghost predicate Answers(s: R.System<DB.BlobDb, BlobJob>, frame: Bytes, reply: Bytes) {
    IsOk(reply) ==> exists r :: r in s.replies && r.call.request == frame && r.outcome == R.Respond(reply)
  }

  ghost predicate Enabled(t: Setup, w: World, a: Act) {
    match a
    case AtRelay(ev) => ev.Start? ==> Decodes(ev.call)
    case Transmit(_, _) => w.memory.Some? && !w.waiting && Storable(t.x, w.memory.value)
      && !w.memory.value.stage.Complete?
    case Receive(reply, _) =>
      && w.memory.Some? && w.waiting && Storable(t.x, w.memory.value) && w.memory.value.pending.Some?
      && (reply.Some? ==> Answers(w.relay, w.memory.value.pending.value.bytes, reply.value))
    case Crash => w.memory.Some?
    case Reopen => w.memory.None? && w.stored.Some?
  }

  function Engine(t: Setup): R.Engine<DB.BlobDb, BlobJob> {
    BlobEngine(t.x.crypto.sha)
  }

  /** The first half of an advance: record the frame, then transmit it. */
  function DoTransmit(t: Setup, w: World, id: RequestId, first: StoreOutcome): World
    requires w.memory.Some? && Storable(t.x, w.memory.value) && !w.memory.value.stage.Complete?
  {
    var ready := WithPending(t.x, w.memory.value, id);
    var kept := w.(memory := Some(ready), stored := Persist(t.x, ready, w.stored, first),
                   disk := if first.Failed? then w.disk else Some(ready));
    if !first.Stored? then kept
    else kept.(waiting := true, sent := w.sent + [Transmission(ready.Rank(), ready.pending.value.bytes)])
  }

  /** The second half: check the response, then record the new stage or stay. */
  function DoReceive(t: Setup, w: World, reply: Option<Bytes>, second: StoreOutcome): World
    requires w.memory.Some? && Storable(t.x, w.memory.value) && w.memory.value.pending.Some?
  {
    var ready, idle := w.memory.value, w.(waiting := false);
    if reply.None? || Accept(ready, reply.value).Failure? then idle
    else
      AcceptedIsStorable(t.x, ready, reply.value);
      var next := Accept(ready, reply.value).value.0;
      var kept := idle.(stored := Persist(t.x, next, w.stored, second),
                        disk := if second.Failed? then w.disk else Some(next));
      if !second.Stored? then kept else kept.(memory := Some(next), successes := w.successes + 1)
  }

  function DoReopen(t: Setup, w: World): World
    requires w.stored.Some?
  {
    match Restore(t.x, w.stored.value, t.blob.Identity(t.x))
    case Failure(_) => w
    case Success(up) =>
      w.(memory := Some(up), salvaged := w.salvaged + if up.Rank() > w.lost then up.Rank() - w.lost else 0)
  }

  ghost function Do(t: Setup, w: World, a: Act): World
    requires Enabled(t, w, a)
  {
    match a
    case AtRelay(ev) => w.(relay := R.Step(Engine(t), w.relay, ev))
    case Transmit(id, first) => DoTransmit(t, w, id, first)
    case Receive(reply, second) => DoReceive(t, w, reply, second)
    case Crash => w.(memory := None, waiting := false, lost := w.memory.value.Rank())
    case Reopen => DoReopen(t, w)
  }

  ghost predicate Behaviour(t: Setup, ws: seq<World>, acts: seq<Act>) {
    && |ws| == |acts| + 1
    && ws[0] == Init(t)
    && forall i :: 0 <= i < |acts| ==> Enabled(t, ws[i], acts[i]) && ws[i + 1] == Do(t, ws[i], acts[i])
  }

  /** The two halves are the advance. */
  lemma AdvanceIsTwoActs(t: Setup, w: World, id: RequestId, first: StoreOutcome, reply: Option<Bytes>,
                         second: StoreOutcome)
    requires w.memory.Some? && !w.waiting && Storable(t.x, w.memory.value) && !w.memory.value.stage.Complete?
    ensures var a := Advancing(t.x, w.memory.value, w.stored, id, first, reply, second);
            var w1 := DoTransmit(t, w, id, first);
            && (a.sent.None? ==>
                  !first.Stored? && w1.memory == Some(a.up) && w1.stored == a.stored
                  && w1.sent == w.sent)
            && (a.sent.Some? ==>
                  && first.Stored? && w1.sent == w.sent + [Transmission(w.memory.value.Rank(), a.sent.value)]
                  && w1.memory.value.pending.Some? && Storable(t.x, w1.memory.value)
                  && var w2 := DoReceive(t, w1, reply, second);
                     && w2.memory == Some(a.up) && w2.stored == a.stored
                     && w2.successes == w.successes + if a.result.Success? then 1 else 0)
  {
    hide WithPending, Accept, ToBytes, Storable;
  }

  // ----- the invariant -----

  /** An uploader this upload can reach: its pending frame is the frame of its stage. */
  ghost predicate Own(t: Setup, up: Upload) {
    && up.blob == t.blob && up.ttl == t.ttl && up.stage.Fits(t.Count())
    && (up.pending.Some? ==> !up.stage.Complete? && t.blob.Valid(t.x)
                             && up.pending.value == PendingOf(t.x, t.blob, t.ttl, up.stage, up.pending.value.requestId))
  }

  /** The stage with this rank. */
  function StageAt(count: nat, rank: nat): (s: Stage)
    ensures s.Fits(count) && (rank < count + 2 ==> !s.Complete? && s.Rank(count) == rank)
  {
    if rank == 0 then Begin
    else if rank <= count then Chunk(rank - 1)
    else if rank == count + 1 then Stage.Commit
    else Complete
  }

  /** Consistent with the last transmission: at its stage with its frame pending, or one stage on. */
  ghost predicate Follows(sent: seq<Transmission>, up: Upload) {
    if sent == [] then up.Rank() == 0
    else
      var last := sent[|sent| - 1];
      || up.Rank() == last.rank + 1
      || (up.Rank() == last.rank && up.pending.Some? && up.pending.value.bytes == last.frame)
  }

  /** Transmissions go through the stages in order, with one frame per stage, the frame of that stage. */
  ghost predicate InOrder(t: Setup, sent: seq<Transmission>) {
    && (sent != [] ==> sent[0].rank == 0)
    && (forall i :: 0 <= i < |sent| - 1 ==> sent[i + 1] == sent[i] || sent[i + 1].rank == sent[i].rank + 1)
    && (forall i :: 0 <= i < |sent| ==> OfStage(t, sent[i]))
  }

  ghost predicate OfStage(t: Setup, x: Transmission) {
    && t.blob.Valid(t.x) && x.rank < t.Count() + 2
    && exists id: RequestId :: x.frame == PendingOf(t.x, t.blob, t.ttl, StageAt(t.Count(), x.rank), id).bytes
  }

  /** What a rank stands for at the relay. */
  ghost predicate Established(t: Setup, db: DB.BlobDb, rank: nat)
    requires t.blob.Valid(t.x)
  {
    && (rank >= 1 ==> HasUpload(db, t.blob.uploadId, t.blob.Caps(t.x), t.blob.encrypted.manifest))
    && (forall i: nat :: i < t.Count() && i + 2 <= rank ==>
        HasStaged(db, t.blob.uploadId, i, t.blob.encrypted.chunks[i]))
    && (rank >= t.Count() + 2 ==> MarkedCommitted(db, t.blob.uploadId, t.blob.encrypted.blobId))
  }

  ghost predicate RelaySound(t: Setup, s: R.System<DB.BlobDb, BlobJob>) {
    R.ExactlyOnce(Engine(t), DB.EMPTY, s) && Honest(s)
  }

  /** The rank everyone agrees on: the running uploader's, or that of the crashed one. */
  function Level(w: World): nat {
    w.successes + w.salvaged
  }

  /** Memory, store and transmissions agree. */
  ghost predicate ClientSound(t: Setup, w: World) {
    && (w.memory.Some? ==>
          Own(t, w.memory.value) && Follows(w.sent, w.memory.value)
          && w.memory.value.Rank() == Level(w))
    && (w.memory.None? ==> w.lost == Level(w) && !w.waiting)
    && (w.disk.Some? ==>
          Own(t, w.disk.value) && Follows(w.sent, w.disk.value)
          && Level(w) <= w.disk.value.Rank() <= Level(w) + 1)
    && (w.stored.Some? <==> w.disk.Some?)
    && (w.stored.Some? ==> Storable(t.x, w.disk.value) && w.stored.value == ToBytes(t.x, w.disk.value))
    && (w.sent != [] ==> w.disk.Some?)
    && (w.waiting ==> w.memory.value.pending.Some? && w.disk == w.memory && w.sent != []
                      && w.sent[|w.sent| - 1] == Transmission(w.memory.value.Rank(),
                                                              w.memory.value.pending.value.bytes))
    && InOrder(t, w.sent)
  }

  ghost predicate Sound(t: Setup, w: World) {
    && t.Valid() && RelaySound(t, w.relay) && ClientSound(t, w)
    && Established(t, w.relay.store.db, Level(w))
    && (w.disk.Some? ==> Established(t, w.relay.store.db, w.disk.value.Rank()))
  }

  // ----- relay steps -----

  lemma RelayStepKeeps(t: Setup, s: R.System<DB.BlobDb, BlobJob>, ev: R.Event<BlobJob>)
    requires RelaySound(t, s) && (ev.Start? ==> Decodes(ev.call))
    ensures RelaySound(t, R.Step(Engine(t), s, ev))
    ensures BI.Sound(t.x.crypto.sha, s.store.db)
    ensures BI.Keeps(s.store.db, R.Step(Engine(t), s, ev).store.db)
  {
    hide BI.Sound, BI.Keeps, BlobEngine, R.Step, R.ExactlyOnce, Honest, Decodes;
    var sha := t.x.crypto.sha;
    assert s.store.db == R.After(BlobEngine(sha), DB.EMPTY, s.effects) by {
      StoreIsAfter(BlobEngine(sha), DB.EMPTY, s);
    }
    AfterSound(sha, s.effects);
    R.StepExactlyOnce(BlobEngine(sha), DB.EMPTY, s, ev);
    StepHonest(sha, s, ev);
    R.StepShape(BlobEngine(sha), s, ev);
    BI.KeepsItself(s.store.db);
    if ev.Start? {
      EffectKeeps(sha, s.store.db, ev.call.job, ev.now);
    }
  }

  lemma StoreIsAfter<D, J>(e: R.Engine<D, J>, db: D, s: R.System<D, J>)
    requires R.ExactlyOnce(e, db, s)
    ensures s.store.db == R.After(e, db, s.effects)
  {
  }

  lemma EstablishedStays(t: Setup, db: DB.BlobDb, db': DB.BlobDb, rank: nat)
    requires t.blob.Valid(t.x) && Established(t, db, rank) && BI.Keeps(db, db')
    ensures Established(t, db', rank)
  {
    hide Prepared.Valid, ManifestBytes;
  }

  /** The client's part does not depend on the relay. */
  lemma ClientSoundAnywhere(t: Setup, w: World, relay: R.System<DB.BlobDb, BlobJob>)
    requires ClientSound(t, w)
    ensures ClientSound(t, w.(relay := relay))
  {
    hide Prepared.Valid, Own, InOrder, Follows, Storable, ToBytes;
  }

  lemma RelayActSound(t: Setup, w: World, ev: R.Event<BlobJob>)
    requires Sound(t, w) && (ev.Start? ==> Decodes(ev.call))
    ensures Sound(t, w.(relay := R.Step(Engine(t), w.relay, ev)))
  {
    hide RelaySound, Prepared.Valid, Established, BI.Keeps, BI.Sound, R.Step, ClientSound, Stage.Rank, Engine, Decodes;
    ClientSoundAnywhere(t, w, R.Step(Engine(t), w.relay, ev));
    var w' := w.(relay := R.Step(Engine(t), w.relay, ev));
    RelayStepKeeps(t, w.relay, ev);
    EstablishedStays(t, w.relay.store.db, w'.relay.store.db, Level(w));
    if w.disk.Some? {
      EstablishedStays(t, w.relay.store.db, w'.relay.store.db, w.disk.value.Rank());
    }
  }

  // ----- transmitting -----

  lemma ReadyIsOwn(t: Setup, w: World, id: RequestId)
    requires t.blob.Valid(t.x) && w.memory.Some? && Own(t, w.memory.value) && Storable(t.x, w.memory.value)
             && !w.memory.value.stage.Complete?
    requires Follows(w.sent, w.memory.value)
    ensures var ready := WithPending(t.x, w.memory.value, id);
            && Own(t, ready) && Follows(w.sent, ready) && ready.Rank() == w.memory.value.Rank() < t.Count() + 2
            && ready.stage == StageAt(t.Count(), ready.Rank())
  {
    hide Prepared.Valid, RequestOf, FrameOf, BlobRequestBytes;
  }

  lemma SentInOrder(t: Setup, sent: seq<Transmission>, ready: Upload)
    requires t.blob.Valid(t.x) && InOrder(t, sent) && Own(t, ready) && Follows(sent, ready) && ready.pending.Some?
    requires ready.stage == StageAt(t.Count(), ready.Rank()) && ready.Rank() < t.Count() + 2
    ensures InOrder(t, sent + [Transmission(ready.Rank(), ready.pending.value.bytes)])
    ensures Follows(sent + [Transmission(ready.Rank(), ready.pending.value.bytes)], ready)
  {
    hide Prepared.Valid, PendingOf;
    var now := Transmission(ready.Rank(), ready.pending.value.bytes);
    assert OfStage(t, now) by {
      assert now.frame == PendingOf(t.x, t.blob, t.ttl, StageAt(t.Count(), now.rank),
                                    ready.pending.value.requestId).bytes;
    }
    hide OfStage;
    var sent' := sent + [now];
    forall i | 0 <= i < |sent'| ensures OfStage(t, sent'[i]) {
      if i < |sent| {
        assert sent'[i] == sent[i];
      }
    }
  }

  lemma TransmitSound(t: Setup, w: World, id: RequestId, first: StoreOutcome)
    requires Sound(t, w) && Enabled(t, w, Transmit(id, first))
    ensures Sound(t, DoTransmit(t, w, id, first))
  {
    hide RelaySound, Prepared.Valid, Established, Own, InOrder, Follows, Storable, ToBytes, PendingOf, WithPending;
    ReadyIsOwn(t, w, id);
    var ready := WithPending(t.x, w.memory.value, id);
    SentInOrder(t, w.sent, ready);
  }

  // ----- receiving -----

  /** Bytes that decode and are the frame of a stage carry the request of that stage. */
  lemma FrameFixesRequest(t: Setup, stage: Stage, id: RequestId, c: R.Call<BlobJob>)
    requires t.blob.Valid(t.x) && stage.Fits(t.Count()) && !stage.Complete? && Decodes(c)
    requires c.request == PendingOf(t.x, t.blob, t.ttl, stage, id).bytes
    ensures c.job.request == RequestOf(t.x, t.blob, t.ttl, stage)
  {
    hide Prepared.Valid, RequestOf, BlobRequestBytes, BlobAuthenticatedBytes, ParseBlobRequest, CallOf, Decodes;
    DecodedCall(c);
    var r := RequestOf(t.x, t.blob, t.ttl, stage);
    var f := FrameOf(t.x, t.blob.uploadSeed, id, r);
    if r.Valid() {
      BlobRequestExact(c.request, DecodedBlob(f, BlobAuthenticatedBytes(id, r)));
    } else {
      NotValidIsZeroTtl(t, stage);
      ZeroTtlIsRefused(f);
    }
  }

  lemma NotValidIsZeroTtl(t: Setup, stage: Stage)
    requires t.blob.Valid(t.x) && stage.Fits(t.Count()) && !stage.Complete?
    ensures var r := RequestOf(t.x, t.blob, t.ttl, stage); r.Valid() || (r.BeginUpload? && r.ttl == 0)
  {
    hide Prepared.Valid;
  }

  /** An accepted response means the stage's request is effective at the relay. */
  lemma AcceptedIsEffective(t: Setup, s: R.System<DB.BlobDb, BlobJob>, up: Upload, reply: Bytes)
    requires RelaySound(t, s) && t.blob.Valid(t.x) && Own(t, up) && up.pending.Some?
    requires Answers(s, up.pending.value.bytes, reply) && Accept(up, reply).Success?
    ensures Effective(s.store.db, RequestOf(t.x, t.blob, t.ttl, up.stage))
  {
    hide Prepared.Valid, RequestOf, PendingOf, R.ExactlyOnce, Honest, BlobEngine, Effective, ParseBlobResponse, Decodes;
    assert IsOk(reply);
    var r :| r in s.replies && r.call.request == up.pending.value.bytes && r.outcome == R.Respond(reply);
    OkIsEffective(t.x.crypto.sha, s, r, reply);
    ReplyDecodes(s, r);
    FrameFixesRequest(t, up.stage, up.pending.value.requestId, r.call);
  }

  /** A stage's request, once effective, establishes the next rank. */
  lemma EffectiveEstablishes(t: Setup, db: DB.BlobDb, stage: Stage)
    requires t.blob.Valid(t.x) && stage.Fits(t.Count()) && !stage.Complete?
    requires Established(t, db, stage.Rank(t.Count())) && Effective(db, RequestOf(t.x, t.blob, t.ttl, stage))
    ensures Established(t, db, stage.Rank(t.Count()) + 1)
  {
    hide Prepared.Valid, ManifestBytes, HasUpload, HasStaged, MarkedCommitted;
    AtLeastOneChunk(t.x, t.blob);
  }

  lemma NextIsOwn(t: Setup, up: Upload, reply: Bytes)
    requires t.blob.Valid(t.x) && Own(t, up) && up.pending.Some? && Accept(up, reply).Success?
    ensures var next := Accept(up, reply).value.0; Own(t, next) && next.pending.None? && next.Rank() == up.Rank() + 1
  {
    hide Prepared.Valid, PendingOf, ParseBlobResponse;
    AtLeastOneChunk(t.x, t.blob);
  }

  lemma ReceiveClientSound(t: Setup, w: World, reply: Option<Bytes>, second: StoreOutcome)
    requires t.Valid() && ClientSound(t, w) && Enabled(t, w, Receive(reply, second))
    ensures ClientSound(t, DoReceive(t, w, reply, second))
    ensures var w' := DoReceive(t, w, reply, second);
            && w'.relay == w.relay
            && (Level(w') > Level(w) || (w'.disk.Some? && w'.disk.value.Rank() > Level(w)) ==>
                  reply.Some? && Accept(w.memory.value, reply.value).Success?)
            && Level(w) <= Level(w') <= Level(w) + 1
            && (w'.disk.Some? ==> Level(w) <= w'.disk.value.Rank() <= Level(w) + 1)
  {
    hide Prepared.Valid, InOrder, Storable, ToBytes, PendingOf, Accept, Answers, Genuine;
    var ready := w.memory.value;
    if reply.Some? && Accept(ready, reply.value).Success? {
      NextIsOwn(t, ready, reply.value);
      AcceptedIsStorable(t.x, ready, reply.value);
    }
  }

  lemma ReceiveSound(t: Setup, w: World, reply: Option<Bytes>, second: StoreOutcome)
    requires Sound(t, w) && Enabled(t, w, Receive(reply, second))
    ensures Sound(t, DoReceive(t, w, reply, second))
  {
    hide RelaySound, Prepared.Valid, Established, InOrder, Storable, ToBytes, PendingOf, Accept, Answers, DoReceive,
      Effective, RequestOf;
    ReceiveClientSound(t, w, reply, second);
    var w' := DoReceive(t, w, reply, second);
    var ready, db := w.memory.value, w.relay.store.db;
    if reply.Some? && Accept(ready, reply.value).Success? {
      AcceptedIsEffective(t, w.relay, ready, reply.value);
      EffectiveEstablishes(t, db, ready.stage);
    }
  }

  // ----- crashing and restoring -----

  /** A stored snapshot of this upload restores to the uploader it was taken from, unless the ttl is zero,
      and then it does not restore. */
  lemma RestoresItself(t: Setup, up: Upload)
    requires t.Valid() && Own(t, up) && Storable(t.x, up)
    ensures Restore(t.x, ToBytes(t.x, up), t.blob.Identity(t.x))
            == if t.ttl > 0 then Success(up) else Failure(InvalidPersistedState)
  {
    hide Prepared.Valid, PendingOf, Decode, ToBytes, ValidatePending, Genuine;
    if t.ttl > 0 {
      if up.pending.Some? {
        PendingPasses(t.x, t.blob, t.ttl, up.stage, up.pending.value.requestId);
      }
      DecodeExact(t.x, ToBytes(t.x, up), up);
    } else {
      ZeroTtlDoesNotRestore(t.x, up);
    }
  }

  lemma ZeroTtlDoesNotRestore(x: Suite, up: Upload)
    requires Storable(x, up) && up.ttl == 0
    ensures Decode(x, ToBytes(x, up)) == Failure(InvalidPersistedState)
  {
    hide S.ParseState, S.StateBytes, Storable;
    S.ZeroTtlIsMalformed(StateOf(x, up));
  }

  lemma ReopenSound(t: Setup, w: World)
    requires Sound(t, w) && Enabled(t, w, Reopen)
    ensures Sound(t, DoReopen(t, w))
  {
    hide RelaySound, Prepared.Valid, Established, Own, InOrder, Follows, Storable, ToBytes, Restore, Genuine;
    RestoresItself(t, w.disk.value);
  }

  lemma CrashSound(t: Setup, w: World)
    requires Sound(t, w) && Enabled(t, w, Crash)
    ensures Sound(t, Do(t, w, Crash))
  {
    hide RelaySound, Prepared.Valid, Established, Own, InOrder, Follows, Storable, ToBytes, Genuine;
  }

  // ----- every run -----

  lemma InitSound(t: Setup)
    requires t.Valid()
    ensures Sound(t, Init(t))
  {
    hide Prepared.Valid, BlobEngine, Genuine, Storable, ToBytes;
    R.InitialExactlyOnce(Engine(t), DB.EMPTY);
  }

  lemma DoSound(t: Setup, w: World, a: Act)
    requires Sound(t, w) && Enabled(t, w, a)
    ensures Sound(t, Do(t, w, a))
  {
    hide Sound, DoTransmit, DoReceive, DoReopen, R.Step, Engine;
    match a {
      case AtRelay(ev) => RelayActSound(t, w, ev);
      case Transmit(id, first) => TransmitSound(t, w, id, first);
      case Receive(reply, second) => ReceiveSound(t, w, reply, second);
      case Crash => CrashSound(t, w);
      case Reopen => ReopenSound(t, w);
    }
  }

  lemma {:induction false} BehaviourSound(t: Setup, ws: seq<World>, acts: seq<Act>, i: nat)
    requires t.Valid() && Behaviour(t, ws, acts) && i < |ws|
    ensures Sound(t, ws[i])
  {
    hide Do, Enabled, Sound, Init;
    if i == 0 {
      InitSound(t);
    } else {
      BehaviourSound(t, ws, acts, i - 1);
      DoSound(t, ws[i - 1], acts[i - 1]);
    }
  }

  lemma {:induction false} RunKeeps(t: Setup, ws: seq<World>, acts: seq<Act>, m: nat, n: nat)
    requires t.Valid() && Behaviour(t, ws, acts) && m <= n < |ws|
    ensures BI.Keeps(ws[m].relay.store.db, ws[n].relay.store.db)
  {
    hide Enabled, Sound, Init, BI.Keeps, DoTransmit, DoReceive, DoReopen, R.Step, BI.Sound, Engine, Genuine,
      Prepared.Valid;
    var db, db' := ws[m].relay.store.db, ws[n].relay.store.db;
    if m == n {
      BI.KeepsItself(db);
    } else {
      RunKeeps(t, ws, acts, m, n - 1);
      BehaviourSound(t, ws, acts, n - 1);
      ActKeeps(t, ws[n - 1], acts[n - 1]);
      BI.KeepsTransitive(db, ws[n - 1].relay.store.db, db');
    }
  }

  lemma ActKeeps(t: Setup, w: World, a: Act)
    requires Sound(t, w) && Enabled(t, w, a)
    ensures BI.Keeps(w.relay.store.db, Do(t, w, a).relay.store.db)
  {
    hide ClientSound, Established, RelaySound, BI.Keeps, R.Step, BI.Sound, Engine, Genuine, Prepared.Valid,
      Storable, WithPending, Accept, Persist, Answers, Restore;
    BI.KeepsItself(w.relay.store.db);
    if a.AtRelay? {
      RelayStepKeeps(t, w.relay, a.event);
    }
  }

  /** In order, one frame per stage: an earlier transmission is of an earlier stage, or is the same frame. */
  lemma {:induction false} SentIsOrdered(t: Setup, sent: seq<Transmission>, i: nat, j: nat)
    requires InOrder(t, sent) && i <= j < |sent|
    ensures sent[i].rank <= sent[j].rank && (sent[i].rank == sent[j].rank ==> sent[i].frame == sent[j].frame)
  {
    hide OfStage;
    if i < j {
      SentIsOrdered(t, sent, i, j - 1);
      assert sent[j - 1 + 1] == sent[j - 1] || sent[j - 1 + 1].rank == sent[j - 1].rank + 1;
    }
  }

  /** A stage was transmitted, at this position or before. */
  ghost predicate Went(sent: seq<Transmission>, j: nat, rank: nat) {
    j < |sent| && exists i :: 0 <= i <= j && sent[i].rank == rank
  }

  /** No stage is skipped. */
  lemma {:induction false} SentSkipsNothing(t: Setup, sent: seq<Transmission>, j: nat, rank: nat)
    requires InOrder(t, sent) && j < |sent| && rank <= sent[j].rank
    ensures Went(sent, j, rank)
  {
    hide OfStage;
    if rank < sent[j].rank {
      assert sent[j - 1 + 1] == sent[j - 1] || sent[j - 1 + 1].rank == sent[j - 1].rank + 1;
      SentSkipsNothing(t, sent, j - 1, rank);
      var i :| 0 <= i <= j - 1 && sent[i].rank == rank;
    }
  }

  /** Over every run: what goes out is begin, then the chunks in order, then commit, none skipped, one
      distinct frame each, signed by the upload key. */
  lemma OneFramePerStage(t: Setup, ws: seq<World>, acts: seq<Act>, n: nat, i: nat, j: nat)
    requires t.Valid() && Behaviour(t, ws, acts) && n < |ws| && i <= j < |ws[n].sent|
    ensures var sent := ws[n].sent;
            && sent[0].rank == 0 && sent[i].rank <= sent[j].rank
            && (sent[i].rank == sent[j].rank ==> sent[i].frame == sent[j].frame)
            && (forall rank: nat :: rank <= sent[j].rank ==> Went(sent, j, rank))
            && OfStage(t, sent[j])
  {
    hide Do, Enabled, Init, RelaySound, Established, Own, Storable, ToBytes, OfStage, Genuine, Prepared.Valid;
    BehaviourSound(t, ws, acts, n);
    var sent := ws[n].sent;
    SentIsOrdered(t, sent, i, j);
    forall rank: nat | rank <= sent[j].rank ensures Went(sent, j, rank) {
      SentSkipsNothing(t, sent, j, rank);
    }
  }

  /** Over every run: while a frame is out, the store holds the uploader with that frame pending, so a
      restart at any moment resends the same bytes. */
  lemma TransmittedIsStored(t: Setup, ws: seq<World>, acts: seq<Act>, n: nat)
    requires t.Valid() && t.ttl > 0 && Behaviour(t, ws, acts) && n < |ws| && ws[n].waiting
    ensures var w := ws[n];
            && w.sent != [] && w.stored.Some?
            && var restored := Restore(t.x, w.stored.value, t.blob.Identity(t.x));
               && restored.Success? && Some(restored.value) == w.memory
               && restored.value.pending.Some?
               && w.sent[|w.sent| - 1] == Transmission(restored.value.Rank(), restored.value.pending.value.bytes)
  {
    hide Do, Enabled, Init, RelaySound, Established, Own, Storable, ToBytes, InOrder, Genuine, Prepared.Valid, Restore,
      Follows;
    BehaviourSound(t, ws, acts, n);
    RestoresItself(t, ws[n].disk.value);
  }

  /** Everything a finished upload leaves at the relay. */
  ghost predicate Published(t: Setup, db: DB.BlobDb)
    requires t.blob.Valid(t.x)
  {
    var b, m := t.blob.encrypted.blobId, t.blob.encrypted.manifest;
    && b in db.objects && db.objects[b] == ManifestBytes(m)
    && (forall i: nat :: i < |m.digests| ==>
        (b, i) in db.chunks && DB.ChunkFits(t.x.crypto.sha, m, i, db.chunks[(b, i)]))
    && exists i :: 0 <= i < |db.grants| && db.grants[i].id == t.blob.uploadId && db.grants[i].blob == b
                   && db.grants[i].capabilities == t.blob.Caps(t.x)
  }

  lemma EstablishedIsPublished(t: Setup, s: R.System<DB.BlobDb, BlobJob>)
    requires t.Valid() && RelaySound(t, s) && Established(t, s.store.db, t.Count() + 2)
    ensures Published(t, s.store.db)
  {
    hide Honest, BlobEngine, R.ExactlyOnce, BI.Sound, Genuine;
    var sha, e := t.x.crypto.sha, t.blob.encrypted;
    StoreIsAfter(BlobEngine(sha), DB.EMPTY, s);
    AfterSound(sha, s.effects);
    CommittedIsPublished(sha, s.store.db, t.blob.uploadId, t.blob.Caps(t.x), e.manifest, e.blobId);
  }

  /** Over every run: an uploader that has reached its end has published its object, after one success or
      one salvaged stage for each of its n + 2 stages. */
  lemma CompleteMeansPublished(t: Setup, ws: seq<World>, acts: seq<Act>, n: nat)
    requires t.Valid() && Behaviour(t, ws, acts) && n < |ws|
    requires ws[n].memory.Some? && ws[n].memory.value.stage.Complete?
    ensures Published(t, ws[n].relay.store.db)
    ensures ws[n].successes + ws[n].salvaged == t.Count() + 2
  {
    hide Do, Enabled, Init, RelaySound, Established, Storable, ToBytes, InOrder, Genuine, Prepared.Valid, Published,
      Follows;
    BehaviourSound(t, ws, acts, n);
    EstablishedIsPublished(t, ws[n].relay);
  }

  /** A crash now would leave the store a stage ahead of what was reported. */
  ghost predicate Ahead(w: World) {
    w.memory.Some? && w.disk.Some? && w.disk.value.Rank() > w.memory.value.Rank()
  }

  /** The uploader crashed while the store was ahead. */
  ghost predicate LostReport(ws: seq<World>, acts: seq<Act>, i: nat) {
    i < |acts| && i < |ws| && acts[i].Crash? && Ahead(ws[i])
  }

  /** No crash among the first n acts came while the store was ahead. */
  ghost predicate NoLostReport(ws: seq<World>, acts: seq<Act>, n: nat) {
    forall i :: 0 <= i < n ==> !LostReport(ws, acts, i)
  }

  /** The stages not reported so far: those salvaged, and one more if a crashed uploader's store is ahead. */
  ghost function Unreported(w: World): nat {
    w.salvaged + if w.memory.None? && w.disk.Some? && w.disk.value.Rank() > w.lost then 1 else 0
  }

  /** An act adds an unreported stage exactly when it is such a crash. */
  lemma ActUnreported(t: Setup, w: World, a: Act)
    requires Sound(t, w) && Enabled(t, w, a)
    ensures Unreported(Do(t, w, a)) == Unreported(w) + if a.Crash? && Ahead(w) then 1 else 0
  {
    hide RelaySound, Prepared.Valid, Established, Own, InOrder, Follows, Storable, ToBytes, Restore, Genuine,
      WithPending, Accept, R.Step, Engine;
    if a.Reopen? {
      RestoresItself(t, w.disk.value);
    }
  }

  lemma {:induction false} RunUnreported(t: Setup, ws: seq<World>, acts: seq<Act>, n: nat)
    requires t.Valid() && Behaviour(t, ws, acts) && n < |ws|
    ensures Unreported(ws[n]) == 0 <==> NoLostReport(ws, acts, n)
  {
    hide Do, Enabled, Sound, Ahead;
    if n > 0 {
      RunUnreported(t, ws, acts, n - 1);
      BehaviourSound(t, ws, acts, n - 1);
      ActUnreported(t, ws[n - 1], acts[n - 1]);
      assert LostReport(ws, acts, n - 1) <==> acts[n - 1].Crash? && Ahead(ws[n - 1]);
    }
  }

  /** Over every run: a finished upload took exactly n + 2 successful advances if and only if no crash
      came while a stage was already on the store that the advance had not reported. */
  lemma SuccessesAreExact(t: Setup, ws: seq<World>, acts: seq<Act>, n: nat)
    requires t.Valid() && Behaviour(t, ws, acts) && n < |ws|
    requires ws[n].memory.Some? && ws[n].memory.value.stage.Complete?
    ensures ws[n].successes == t.Count() + 2 <==> NoLostReport(ws, acts, n)
  {
    hide Do, Enabled, Init, Prepared.Valid, NoLostReport;
    CompleteMeansPublished(t, ws, acts, n);
    RunUnreported(t, ws, acts, n);
  }

  /** Over every run: a restart loses no stage and finds at most one that had not been reported. */
  lemma RestartSalvagesAtMostOne(t: Setup, ws: seq<World>, acts: seq<Act>, n: nat)
    requires t.Valid() && t.ttl > 0 && Behaviour(t, ws, acts) && n < |acts| && acts[n].Reopen?
    ensures ws[n + 1].memory == ws[n].disk && ws[n + 1].memory.Some?
    ensures ws[n].lost <= ws[n + 1].memory.value.Rank() <= ws[n].lost + 1
    ensures ws[n].salvaged <= ws[n + 1].salvaged <= ws[n].salvaged + 1
  {
    hide Init, RelaySound, Established, Own, Storable, ToBytes, InOrder, Genuine, Prepared.Valid, Restore, Follows,
      DoTransmit, DoReceive;
    BehaviourSound(t, ws, acts, n);
    assert Enabled(t, ws[n], Reopen) && ws[n + 1] == Do(t, ws[n], Reopen);
    RestoresItself(t, ws[n].disk.value);
  }
}
