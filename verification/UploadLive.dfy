/** Uploads finish: from any world in which one has not begun, stage by stage, also past a lost report. */
module UploadLive {
  import opened Base
  import opened Manifest
  import opened BlobCodec
  import opened Uploader
  import opened BlobService
  import opened UploadFacts
  import opened UploadRun
  import BI = BlobInvariant
  import BP = BlobPublish
  import DB = DurableBlob
  import DQ = DurableQueue
  import R = Replay
  import S = Sealing

  /** The chunks are those of the manifest, as sealing makes them. */
  ghost predicate Sendable(t: Setup) {
    t.Valid() && t.ttl > 0 && BP.ChunksOf(t.x.crypto.sha, t.blob.encrypted.manifest, t.blob.encrypted.chunks)
  }

  lemma SealedIsSendable(t: Setup, plaintext: Bytes, c: U32, key: Id, salt: Salt, noise: nat -> Byte)
    requires Genuine(t.x) && t.ttl > 0 && S.Lawful(t.x.crypto)
    requires S.Sealed(t.x.crypto, plaintext, c, key, salt, noise) == Success(t.blob.encrypted)
    ensures Sendable(t)
  {
    hide S.Sealed, S.Opened, Genuine;
    S.SealedIsUploadable(t.x.crypto, plaintext, c, key, salt, noise);
    var b := t.blob;
    SealedIsPrepared(t.x, plaintext, c, key, salt, noise, b.uploadId, b.uploadSeed, b.downloadSeed, b.renewSeed,
                     b.deleteSeed);
  }

  /** When and where the upload is served: tables at its start, relay time, and a free connection. */
  datatype Venue = Venue(base: DB.BlobDb, now: U64, conn: nat)

  function Row(t: Setup, v: Venue): DB.UploadRow
    requires t.blob.encrypted.manifest.Valid() && v.now + t.ttl < U64_LIMIT
  {
    DB.UploadRow(t.blob.Caps(t.x), ManifestBytes(t.blob.encrypted.manifest), DQ.Cell(v.now + t.ttl), None)
  }

  /** The upload can be served here: its identifier is new, its identity names no other manifest, and its
      lifetime does not overflow. */
  ghost predicate Suits(t: Setup, v: Venue) {
    && t.blob.encrypted.manifest.Valid() && v.now + t.ttl < U64_LIMIT
    && BI.Sound(t.x.crypto.sha, v.base) && t.blob.uploadId !in v.base.uploads
    && (t.blob.encrypted.blobId in v.base.objects ==>
          v.base.objects[t.blob.encrypted.blobId] == ManifestBytes(t.blob.encrypted.manifest))
  }

  /** The relay's tables when k stages are done. */
  ghost predicate Progressed(t: Setup, v: Venue, db: DB.BlobDb, k: nat)
    requires t.blob.Valid(t.x) && v.now + t.ttl < U64_LIMIT
  {
    && (k == 0 ==> db == v.base)
    && (1 <= k <= t.Count() + 1 ==>
          BP.Halfway(v.base, db, t.blob.uploadId, Row(t, v), t.blob.encrypted.chunks, k - 1))
  }

  /** Between two stages: nothing pending, a free connection, and only used identifiers recorded. */
  ghost predicate Ready(t: Setup, v: Venue, w: World, k: nat)
    requires t.blob.Valid(t.x) && v.now + t.ttl < U64_LIMIT && k <= t.Count() + 2
  {
    && w.memory == Some(Upload(t.blob, t.ttl, StageAt(t.Count(), k), None)) && !w.waiting
    && v.conn !in w.relay.phases
    && KeysBelow(t, w.relay, k)
    && Progressed(t, v, w.relay.store.db, k)
  }

  /** Recorded identifiers under the upload capability are numbers below k. */
  ghost predicate KeysBelow(t: Setup, s: R.System<DB.BlobDb, BlobJob>, k: nat) {
    forall key :: key in s.store.records && key.subject == t.x.capability(t.blob.uploadSeed) ==>
      FromBe(key.requestId) < k
  }

  /** The body with which the relay answers stage k. */
  function BodyOf(t: Setup, v: Venue, k: nat): BlobBody
    requires v.now + t.ttl < U64_LIMIT
  {
    if k == 0 then Begun(false) else if k <= t.Count() then ChunkPut(false) else Committed(v.now + t.ttl)
  }

  // ----- the relay's part of a stage -----

  lemma BeginProgresses(t: Setup, v: Venue, db: DB.BlobDb)
    requires Sendable(t) && Suits(t, v) && Progressed(t, v, db, 0)
    ensures var (db', a) := DB.BeginTx(db, t.blob.uploadId, t.blob.Caps(t.x), t.blob.encrypted.manifest, v.now, t.ttl);
            a == Success(Begun(false)) && Progressed(t, v, db', 1)
  {
    hide Prepared.Valid, BI.Sound, BP.Halfway, BP.ChunksOf, DB.BeginTx, ManifestBytes, Genuine;
    Shape(t.x, t.blob);
    BP.BeginAdvances(t.x.crypto.sha, db, t.blob.uploadId, t.blob.Caps(t.x), t.blob.encrypted.manifest,
                     t.blob.encrypted.chunks, v.now, t.ttl);
  }

  function PutAt(t: Setup, v: Venue, db: DB.BlobDb, i: nat): (DB.BlobDb, DB.BlobAnswer)
    requires i < t.Count() && i < U32_LIMIT && |t.blob.encrypted.chunks[i]| < U64_LIMIT
  {
    DB.PutTx(t.x.crypto.sha, db, t.blob.uploadId, t.x.capability(t.blob.uploadSeed), i, t.blob.encrypted.chunks[i],
             v.now)
  }

  lemma PutProgresses(t: Setup, v: Venue, db: DB.BlobDb, i: nat)
    requires Sendable(t) && Suits(t, v) && i < t.Count() && Progressed(t, v, db, i + 1)
    ensures i < U32_LIMIT && |t.blob.encrypted.chunks[i]| < U64_LIMIT
    ensures PutAt(t, v, db, i).1 == Success(ChunkPut(false)) && Progressed(t, v, PutAt(t, v, db, i).0, i + 2)
  {
    hide Prepared.Valid, BI.Sound, BP.Halfway, BP.ChunksOf, DB.PutTx, ManifestBytes, Genuine;
    Shape(t.x, t.blob);
    BP.PutAdvances(t.x.crypto.sha, v.base, db, t.blob.uploadId, Row(t, v), t.blob.encrypted.manifest,
                   t.blob.encrypted.chunks, i, v.now);
  }

  lemma CommitProgresses(t: Setup, v: Venue, db: DB.BlobDb)
    requires Sendable(t) && Suits(t, v) && BI.Sound(t.x.crypto.sha, db) && Progressed(t, v, db, t.Count() + 1)
    ensures DB.CommitTx(t.x.crypto.sha, db, t.blob.uploadId, t.x.capability(t.blob.uploadSeed),
                        t.blob.encrypted.blobId, v.now).1
            == Success(Committed(v.now + t.ttl))
  {
    hide Prepared.Valid, BI.Sound, BP.ChunksOf, DB.CommitTx, ManifestBytes, Genuine, DB.Identify, BI.Publishable,
      BI.Publishes;
    Shape(t.x, t.blob);
    var sha, e := t.x.crypto.sha, t.blob.encrypted;
    BP.AllStagedIsPublishable(sha, v.base, db, t.blob.uploadId, Row(t, v), e.manifest, e.chunks);
    BP.CommitPublishes(sha, db, t.blob.uploadId, Row(t, v), e.blobId, v.now);
  }

  /** In stage k the relay answers with success and moves on to stage k + 1. */
  lemma RelayProgresses(t: Setup, v: Venue, db: DB.BlobDb, k: nat)
    requires Sendable(t) && Suits(t, v) && k < t.Count() + 2 && BI.Sound(t.x.crypto.sha, db) && Progressed(t, v, db, k)
    ensures var (db', a) := DB.ExecuteTx(t.x.crypto.sha, db, RequestOf(t.x, t.blob, t.ttl, StageAt(t.Count(), k)),
                                         v.now);
            a == Success(BodyOf(t, v, k)) && Progressed(t, v, db', k + 1)
  {
    hide Prepared.Valid, BI.Sound, BP.Halfway, BP.ChunksOf, DB.BeginTx, DB.PutTx, DB.CommitTx, ManifestBytes, Genuine;
    if k == 0 {
      BeginProgresses(t, v, db);
    } else if k <= t.Count() {
      PutProgresses(t, v, db, k - 1);
    } else {
      CommitProgresses(t, v, db);
    }
  }

  lemma Shape(x: Suite, blob: Prepared)
    requires blob.Valid(x)
    ensures blob.encrypted.manifest.Valid()
            && |blob.encrypted.chunks| == |blob.encrypted.manifest.digests| <= MAX_CHUNKS
    ensures blob.encrypted.blobId == DB.Identify(x.crypto.sha, blob.encrypted.manifest)
    ensures forall i :: 0 <= i < |blob.encrypted.chunks| ==> |blob.encrypted.chunks[i]| < U64_LIMIT
  {
  }

  // ----- one stage: transmit, serve, receive -----

  /** The call that the frame of stage k makes at the relay. */
  function CallAt(t: Setup, k: U64): R.Call<BlobJob>
    requires t.blob.Valid(t.x) && k < t.Count() + 2
  {
    var r := RequestOf(t.x, t.blob, t.ttl, StageAt(t.Count(), k));
    R.Call(R.Key(r.Capability(), Numbered(k)), FrameAt(t, k).bytes, BlobJob(Numbered(k), r))
  }

  /** The pending frame of stage k. */
  function FrameAt(t: Setup, k: U64): Pending
    requires t.blob.Valid(t.x) && k < t.Count() + 2
  {
    PendingOf(t.x, t.blob, t.ttl, StageAt(t.Count(), k), Numbered(k))
  }

  lemma CallDecodes(t: Setup, k: U64)
    requires t.blob.Valid(t.x) && t.ttl > 0 && k < t.Count() + 2
    ensures Decodes(CallAt(t, k)) && CallAt(t, k).job.request.Valid()
  {
    hide Prepared.Valid, RequestOf, BlobRequestBytes, BlobAuthenticatedBytes, ParseBlobRequest;
    var r := RequestOf(t.x, t.blob, t.ttl, StageAt(t.Count(), k));
    var f := FrameOf(t.x, t.blob.uploadSeed, Numbered(k), r);
    BlobRequestExact(CallAt(t, k).request, DecodedBlob(f, BlobAuthenticatedBytes(Numbered(k), r)));
  }

  lemma BodyMatches(t: Setup, v: Venue, k: nat)
    requires t.blob.Valid(t.x) && v.now + t.ttl < U64_LIMIT && k < t.Count() + 2
    ensures BodyOf(t, v, k).Command() == RequestOf(t.x, t.blob, t.ttl, StageAt(t.Count(), k)).Command()
  {
    hide Prepared.Valid;
  }

  /** The relay's engine on the call of stage k. */
  lemma EngineProgresses(t: Setup, v: Venue, db: DB.BlobDb, k: U64) returns (db': DB.BlobDb, response: Bytes)
    requires Sendable(t) && Suits(t, v) && k < t.Count() + 2 && BI.Sound(t.x.crypto.sha, db) && Progressed(t, v, db, k)
    ensures Engine(t)(db, CallAt(t, k).job, v.now) == R.Done(db', response) && Progressed(t, v, db', k + 1)
    ensures ParseBlobResponse(response) == Success(BlobReply(Numbered(k), Fulfilled(BodyOf(t, v, k))))
  {
    hide Prepared.Valid, BI.Sound, Progressed, DB.ExecuteTx, RequestOf, PendingOf, ParseBlobResponse, Perform, Genuine,
      BP.ChunksOf, Numbered;
    hide ManifestBytes;
    CallDecodes(t, k);
    RelayProgresses(t, v, db, k);
    PerformAnswers(t.x.crypto.sha, db, CallAt(t, k).job, v.now);
    BodyMatches(t, v, k);
    var done := Perform(t.x.crypto.sha, db, CallAt(t, k).job, v.now);
    db', response := done.db, done.response;
  }

  /** What serving the call does to the relay. */
  ghost predicate ServedAt(t: Setup, v: Venue, s: R.System<DB.BlobDb, BlobJob>, k: U64, response: Bytes)
    requires t.blob.Valid(t.x) && v.now + t.ttl < U64_LIMIT && k < t.Count() + 2
  {
    && v.conn !in s.phases && KeysBelow(t, s, k + 1) && Progressed(t, v, s.store.db, k + 1)
    && R.Reply(CallAt(t, k), R.Respond(response)) in s.replies
    && ParseBlobResponse(response) == Success(BlobReply(Numbered(k), Fulfilled(BodyOf(t, v, k))))
  }

  function Serving(t: Setup, v: Venue, k: U64): R.Event<BlobJob>
    requires t.blob.Valid(t.x) && k < t.Count() + 2
  {
    R.Start(v.conn, CallAt(t, k), v.now, R.Works)
  }

  lemma KeyOfCall(t: Setup, k: U64)
    requires t.blob.Valid(t.x) && k < t.Count() + 2
    ensures CallAt(t, k).key == R.Key(t.x.capability(t.blob.uploadSeed), Numbered(k)) && FromBe(Numbered(k)) == k
  {
    hide Prepared.Valid, FrameAt;
  }

  lemma CallIsServed(t: Setup, v: Venue, s: R.System<DB.BlobDb, BlobJob>, k: U64) returns (response: Bytes)
    requires Sendable(t) && Suits(t, v) && k < t.Count() + 2 && BI.Sound(t.x.crypto.sha, s.store.db)
    requires Progressed(t, v, s.store.db, k) && KeysBelow(t, s, k) && v.conn !in s.phases
    ensures ServedAt(t, v, R.Step(Engine(t), s, Serving(t, v, k)), k, response)
  {
    hide Prepared.Valid, BI.Sound, Progressed, ParseBlobResponse, Engine, Genuine, BP.ChunksOf, Numbered, CallAt,
      R.Step, ManifestBytes, BodyOf;
    KeyOfCall(t, k);
    var db';
    db', response := EngineProgresses(t, v, s.store.db, k);
    R.StartCommits(Engine(t), s, v.conn, CallAt(t, k), v.now, db', response);
  }

  /** The uploader while the frame of stage k is out. */
  function Out(t: Setup, k: U64): Upload
    requires t.blob.Valid(t.x) && k < t.Count() + 2
  {
    Upload(t.blob, t.ttl, StageAt(t.Count(), k), Some(FrameAt(t, k)))
  }

  /** The uploader between stages. */
  function Between(t: Setup, k: nat): Upload {
    Upload(t.blob, t.ttl, StageAt(t.Count(), k), None)
  }

  lemma StageAdvances(t: Setup, v: Venue, k: U64, response: Bytes)
    requires t.blob.Valid(t.x) && v.now + t.ttl < U64_LIMIT && k < t.Count() + 2
    requires ParseBlobResponse(response) == Success(BlobReply(Numbered(k), Fulfilled(BodyOf(t, v, k))))
    ensures Accept(Out(t, k), response).Success? && Accept(Out(t, k), response).value.0 == Between(t, k + 1)
  {
    hide Prepared.Valid, RequestOf, ParseBlobResponse, FrameOf, BlobRequestBytes, Numbered;
    AtLeastOneChunk(t.x, t.blob);
    BodyMatches(t, v, k);
  }

  /** Transmitting from a ready state: the frame of the stage is out, and the relay is untouched. */
  lemma TransmitStage(t: Setup, v: Venue, w: World, k: U64)
    requires t.blob.Valid(t.x) && v.now + t.ttl < U64_LIMIT && k < t.Count() + 2 && Ready(t, v, w, k)
    ensures Enabled(t, w, Transmit(Numbered(k), Stored))
    ensures var w1 := DoTransmit(t, w, Numbered(k), Stored);
            && w1.waiting && w1.relay == w.relay && w1.salvaged == w.salvaged
            && w1.memory == Some(Out(t, k)) && Storable(t.x, Out(t, k))
  {
    hide Prepared.Valid, PendingOf, Progressed, Numbered, ToBytes, KeysBelow;
  }

  /** The answer to the frame that is out may come, with any outcome of the second record. */
  lemma AnswerMayCome(t: Setup, v: Venue, w: World, k: U64, response: Bytes, second: StoreOutcome)
    requires t.blob.Valid(t.x) && v.now + t.ttl < U64_LIMIT && k < t.Count() + 2
    requires w.waiting && w.memory == Some(Out(t, k)) && Storable(t.x, Out(t, k))
             && ServedAt(t, v, w.relay, k, response)
    ensures Enabled(t, w, Receive(Some(response), second))
  {
    hide Prepared.Valid, PendingOf, Numbered, ParseBlobResponse, Storable, Progressed, KeysBelow, RequestOf;
    assert Answers(w.relay, FrameAt(t, k).bytes, response) by {
      assert CallAt(t, k).request == FrameAt(t, k).bytes;
    }
  }

  /** Receiving and recording it: the next stage. */
  lemma ReceiveStage(t: Setup, v: Venue, w: World, k: U64, response: Bytes)
    requires t.blob.Valid(t.x) && v.now + t.ttl < U64_LIMIT && k < t.Count() + 2
    requires w.waiting && w.memory == Some(Out(t, k)) && Storable(t.x, Out(t, k))
             && ServedAt(t, v, w.relay, k, response)
    ensures Ready(t, v, DoReceive(t, w, Some(response), Stored), k + 1)
    ensures DoReceive(t, w, Some(response), Stored).salvaged == w.salvaged
  {
    hide Prepared.Valid, FrameAt, Numbered, ParseBlobResponse, Storable, Progressed, KeysBelow, CallAt, Accept, ToBytes;
    StageAdvances(t, v, k, response);
  }

  // ----- runs -----

  /** The run ends in w. */
  ghost predicate Reaches(t: Setup, ws: seq<World>, acts: seq<Act>, w: World) {
    Behaviour(t, ws, acts) && ws[|ws| - 1] == w
  }

  lemma Append(t: Setup, ws: seq<World>, acts: seq<Act>, w: World, a: Act) returns (ws': seq<World>, acts': seq<Act>)
    requires Reaches(t, ws, acts, w) && Enabled(t, w, a)
    ensures Reaches(t, ws', acts', Do(t, w, a)) && ws <= ws' && acts <= acts'
  {
    hide Enabled, Do, Init;
    ws', acts' := ws + [Do(t, w, a)], acts + [a];
  }

  lemma RelayIsSound(t: Setup, ws: seq<World>, acts: seq<Act>, w: World)
    requires t.Valid() && Reaches(t, ws, acts, w)
    ensures BI.Sound(t.x.crypto.sha, w.relay.store.db)
  {
    hide Do, Enabled, Init, BI.Sound, ClientSound, Established, BlobEngine, Genuine, Prepared.Valid;
    BehaviourSound(t, ws, acts, |ws| - 1);
    StoreIsAfter(BlobEngine(t.x.crypto.sha), DB.EMPTY, w.relay);
    AfterSound(t.x.crypto.sha, w.relay.effects);
  }

  /** Transmit and serve stage k: the frame is out and its answer is there. */
  lemma Exchange(t: Setup, v: Venue, ws: seq<World>, acts: seq<Act>, w: World, k: U64)
    returns (ws': seq<World>, acts': seq<Act>, w': World, response: Bytes)
    requires Sendable(t) && Suits(t, v) && k < t.Count() + 2 && Reaches(t, ws, acts, w) && Ready(t, v, w, k)
    ensures Reaches(t, ws', acts', w') && ws <= ws' && acts <= acts'
    ensures w'.waiting && w'.memory == Some(Out(t, k)) && Storable(t.x, Out(t, k)) && w'.salvaged == w.salvaged
    ensures ServedAt(t, v, w'.relay, k, response)
  {
    hide Prepared.Valid, Progressed, Numbered, Genuine, BP.ChunksOf, DoTransmit, R.Step, Engine, Decodes, PendingOf;
    hide Storable, BI.Sound, Reaches, ManifestBytes, ServedAt, CallAt;
    RelayIsSound(t, ws, acts, w);
    TransmitStage(t, v, w, k);
    CallDecodes(t, k);
    response := CallIsServed(t, v, w.relay, k);
    var a1, a2 := Transmit(Numbered(k), Stored), AtRelay(Serving(t, v, k));
    var w1 := Do(t, w, a1);
    w' := Do(t, w1, a2);
    ws', acts' := Append(t, ws, acts, w, a1);
    var ws1, acts1 := ws', acts';
    ws', acts' := Append(t, ws1, acts1, w1, a2);
    PrefixTwice(ws, ws1, ws');
    PrefixTwice(acts, acts1, acts');
  }

  lemma PrefixTwice<T>(a: seq<T>, b: seq<T>, c: seq<T>)
    requires a <= b <= c
    ensures a <= c
  {
  }

  /** One stage. */
  lemma ClimbOne(t: Setup, v: Venue, ws: seq<World>, acts: seq<Act>, w: World, k: U64)
    returns (ws': seq<World>, acts': seq<Act>, w': World)
    requires Sendable(t) && Suits(t, v) && k < t.Count() + 2 && Reaches(t, ws, acts, w) && Ready(t, v, w, k)
    ensures Reaches(t, ws', acts', w') && ws <= ws' && acts <= acts' && Ready(t, v, w', k + 1)
            && w'.salvaged == w.salvaged
  {
    hide Enabled, Ready, Reaches, Prepared.Valid, Genuine, BP.ChunksOf, BI.Sound, ManifestBytes, ServedAt, Storable,
      DoReceive, Out;
    var ws1, acts1, w1, response := Exchange(t, v, ws, acts, w, k);
    AnswerMayCome(t, v, w1, k, response, Stored);
    ReceiveStage(t, v, w1, k, response);
    w' := Do(t, w1, Receive(Some(response), Stored));
    ws', acts' := Append(t, ws1, acts1, w1, Receive(Some(response), Stored));
    PrefixTwice(ws, ws1, ws');
    PrefixTwice(acts, acts1, acts');
  }

  /** From stage j to stage k. */
  lemma {:induction false} Climb(t: Setup, v: Venue, ws: seq<World>, acts: seq<Act>, w: World, j: nat, k: nat)
    returns (ws': seq<World>, acts': seq<Act>, w': World)
    requires Sendable(t) && Suits(t, v) && j <= k <= t.Count() + 2 && Reaches(t, ws, acts, w) && Ready(t, v, w, j)
    ensures Reaches(t, ws', acts', w') && ws <= ws' && acts <= acts' && Ready(t, v, w', k) && w'.salvaged == w.salvaged
    decreases k - j
  {
    hide Ready, Reaches, Prepared.Valid, Genuine, BP.ChunksOf, Suits;
    if j == k {
      ws', acts', w' := ws, acts, w;
    } else {
      Shape(t.x, t.blob);
      var ws1, acts1, w1 := ClimbOne(t, v, ws, acts, w, j);
      ws', acts', w' := Climb(t, v, ws1, acts1, w1, j + 1, k);
      PrefixTwice(ws, ws1, ws');
      PrefixTwice(acts, acts1, acts');
    }
  }

  /** The upload has not begun here: nothing is pending, nothing of it is recorded, and it suits the relay. */
  ghost predicate NotBegun(t: Setup, v: Venue, w: World) {
    && w.memory == Some(Upload(t.blob, t.ttl, Begin, None)) && !w.waiting
    && v.base == w.relay.store.db && v.conn !in w.relay.phases && KeysBelow(t, w.relay, 0)
    && Suits(t, v)
  }

  lemma NotBegunIsReady(t: Setup, v: Venue, w: World)
    requires t.blob.Valid(t.x) && NotBegun(t, v, w)
    ensures Ready(t, v, w, 0)
  {
    hide Prepared.Valid, BI.Sound, ManifestBytes, KeysBelow;
  }

  /** The start of every run is such a place, at every time the lifetime allows. */
  lemma StartHasNotBegun(t: Setup, now: U64)
    requires t.Valid() && now + t.ttl < U64_LIMIT
    ensures Reaches(t, [Init(t)], [], Init(t)) && NotBegun(t, Venue(DB.EMPTY, now, 0), Init(t))
  {
    hide Genuine, ManifestBytes, Do, Enabled;
    BI.EmptySound(t.x.crypto.sha);
    Shape(t.x, t.blob);
    hide BI.Sound, Prepared.Valid;
  }

  /** Every run in which the upload has not begun continues to a run that finishes it, whatever else the
      relay holds, at every time the lifetime allows. */
  lemma UploadCanFinish(t: Setup, v: Venue, ws: seq<World>, acts: seq<Act>, w: World)
    returns (ws': seq<World>, acts': seq<Act>, w': World)
    requires Sendable(t) && Reaches(t, ws, acts, w) && NotBegun(t, v, w)
    ensures Reaches(t, ws', acts', w') && ws <= ws' && acts <= acts'
    ensures w'.memory.Some? && w'.memory.value.stage.Complete?
  {
    hide Reaches, Prepared.Valid, Genuine, BP.ChunksOf, Progressed, Suits, KeysBelow;
    NotBegunIsReady(t, v, w);
    ws', acts', w' := Climb(t, v, ws, acts, w, 0, t.Count() + 2);
  }

  // ----- a lost report -----

  /** The second record becomes durable without being reported. */
  lemma LoseReport(t: Setup, v: Venue, w: World, k: U64, response: Bytes)
    requires t.blob.Valid(t.x) && v.now + t.ttl < U64_LIMIT && k < t.Count() + 2
    requires w.waiting && w.memory == Some(Out(t, k)) && Storable(t.x, Out(t, k))
             && ServedAt(t, v, w.relay, k, response)
    ensures Storable(t.x, Between(t, k + 1))
    ensures var w1 := DoReceive(t, w, Some(response), FailedButDurable);
            && w1.memory == Some(Out(t, k)) && !w1.waiting && w1.relay == w.relay && w1.salvaged == w.salvaged
            && w1.disk == Some(Between(t, k + 1)) && w1.stored == Some(ToBytes(t.x, Between(t, k + 1)))
  {
    hide Prepared.Valid, FrameAt, Numbered, ParseBlobResponse, Progressed, KeysBelow, CallAt, Accept, ToBytes, Storable;
    StageAdvances(t, v, k, response);
    AcceptedIsStorable(t.x, Out(t, k), response);
  }

  /** A crash then and a restart: the stage is there, unreported. */
  lemma Salvage(t: Setup, v: Venue, w: World, k: U64)
    requires Sendable(t) && v.now + t.ttl < U64_LIMIT && k < t.Count() + 2
    requires w.memory == Some(Out(t, k)) && Storable(t.x, Between(t, k + 1))
    requires w.disk == Some(Between(t, k + 1)) && w.stored == Some(ToBytes(t.x, Between(t, k + 1)))
    ensures Ahead(w) && Enabled(t, w, Crash) && Enabled(t, Do(t, w, Crash), Reopen)
    ensures var w1 := Do(t, Do(t, w, Crash), Reopen);
            w1.memory == Some(Between(t, k + 1)) && !w1.waiting && w1.relay == w.relay && w1.salvaged == w.salvaged + 1
  {
    hide Prepared.Valid, FrameAt, ToBytes, Storable, Restore, Genuine, BP.ChunksOf;
    AtLeastOneChunk(t.x, t.blob);
    RestoresItself(t, Between(t, k + 1));
  }

  lemma ServedIsReady(t: Setup, v: Venue, w: World, k: U64, response: Bytes)
    requires t.blob.Valid(t.x) && v.now + t.ttl < U64_LIMIT && k < t.Count() + 2 && ServedAt(t, v, w.relay, k, response)
    requires w.memory == Some(Between(t, k + 1)) && !w.waiting
    ensures Ready(t, v, w, k + 1)
  {
    hide Prepared.Valid, Progressed, KeysBelow, CallAt, ParseBlobResponse;
  }

  /** One stage whose report is lost. */
  lemma SalvageOne(t: Setup, v: Venue, ws: seq<World>, acts: seq<Act>, w: World, k: U64)
    returns (ws': seq<World>, acts': seq<Act>, w': World)
    requires Sendable(t) && Suits(t, v) && k < t.Count() + 2 && Reaches(t, ws, acts, w) && Ready(t, v, w, k)
    ensures Reaches(t, ws', acts', w') && ws <= ws' && acts <= acts' && Ready(t, v, w', k + 1)
            && w'.salvaged == w.salvaged + 1
  {
    hide Enabled, Ready, Reaches, Prepared.Valid, Genuine, BP.ChunksOf, BI.Sound, ManifestBytes, ServedAt, Storable,
      DoReceive, Out;
    hide Between, DoReopen, ToBytes;
    var ws1, acts1, w1, response := Exchange(t, v, ws, acts, w, k);
    AnswerMayCome(t, v, w1, k, response, FailedButDurable);
    LoseReport(t, v, w1, k, response);
    var w2 := Do(t, w1, Receive(Some(response), FailedButDurable));
    Salvage(t, v, w2, k);
    var w3 := Do(t, w2, Crash);
    w' := Do(t, w3, Reopen);
    ServedIsReady(t, v, w', k, response);
    var ws2, acts2 := Append(t, ws1, acts1, w1, Receive(Some(response), FailedButDurable));
    var ws3, acts3 := Append(t, ws2, acts2, w2, Crash);
    ws', acts' := Append(t, ws3, acts3, w3, Reopen);
    PrefixTwice(ws, ws1, ws2);
    PrefixTwice(ws, ws2, ws3);
    PrefixTwice(ws, ws3, ws');
    PrefixTwice(acts, acts1, acts2);
    PrefixTwice(acts, acts2, acts3);
    PrefixTwice(acts, acts3, acts');
  }

  /** Every run in which the upload has not begun continues, for every stage k, to one that loses the report
      of that stage and still finishes: with one success fewer than there are stages. */
  lemma UploadCanSalvage(t: Setup, v: Venue, ws: seq<World>, acts: seq<Act>, w: World, k: nat)
    returns (ws': seq<World>, acts': seq<Act>, w': World)
    requires Sendable(t) && Reaches(t, ws, acts, w) && NotBegun(t, v, w) && k < t.Count() + 2
    ensures Reaches(t, ws', acts', w') && ws <= ws' && acts <= acts'
    ensures w'.memory.Some? && w'.memory.value.stage.Complete? && w'.successes == t.Count() + 1
  {
    hide Prepared.Valid, Genuine, BP.ChunksOf, Progressed, Suits, KeysBelow, Behaviour;
    NotBegunIsReady(t, v, w);
    assert w.salvaged == 0 by {
      BeginningLevel(t, ws, acts, w);
    }
    assert k < U64_LIMIT by {
      Shape(t.x, t.blob);
    }
    var ws1, acts1, w1 := Climb(t, v, ws, acts, w, 0, k);
    var ws2, acts2, w2 := SalvageOne(t, v, ws1, acts1, w1, k);
    ws', acts', w' := Climb(t, v, ws2, acts2, w2, k + 1, t.Count() + 2);
    PrefixTwice(ws, ws1, ws2);
    PrefixTwice(ws, ws2, ws');
    PrefixTwice(acts, acts1, acts2);
    PrefixTwice(acts, acts2, acts');
    FinalCount(t, ws', acts', w');
  }

  lemma BeginningLevel(t: Setup, ws: seq<World>, acts: seq<Act>, w: World)
    requires t.Valid() && Reaches(t, ws, acts, w) && w.memory.Some? && w.memory.value.Rank() == 0
    ensures w.salvaged == 0
  {
    hide Do, Enabled, Init, RelaySound, Established, Own, Storable, ToBytes, InOrder, Genuine, Prepared.Valid, Follows;
    BehaviourSound(t, ws, acts, |ws| - 1);
  }

  lemma FinalCount(t: Setup, ws: seq<World>, acts: seq<Act>, w: World)
    requires t.Valid() && Reaches(t, ws, acts, w) && w.memory.Some? && w.memory.value.stage.Complete?
    ensures w.successes + w.salvaged == t.Count() + 2
  {
    hide Do, Enabled, Init, Prepared.Valid, Genuine, Published;
    CompleteMeansPublished(t, ws, acts, |ws| - 1);
  }
}
