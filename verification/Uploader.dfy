/** The resumable uploader: one durably recorded frame per stage, and its restorable snapshot. */
module Uploader {
  import opened Base
  import opened Manifest
  import opened BlobCodec
  import opened Sealing
  import opened Snapshot
  import DB = DurableBlob

  type Proof = s: Bytes | |s| == AUTH_BYTES witness seq(68, _ => 0)

  /** What the client's libraries do: the object cipher, capability keys from seeds, signing and checking. */
  datatype Suite = Suite(crypto: Crypto, capability: Id -> Id, sign: (Id, Bytes) -> Proof,
                         verify: (Id, Bytes, Bytes) -> bool)

  /** A proof by a seed's key verifies under its capability. */
  ghost predicate Genuine(x: Suite) {
    forall seed, b :: x.verify(x.capability(seed), b, x.sign(seed, b))
  }

  datatype Prepared = Prepared(uploadId: Id, encrypted: EncryptedBlob, uploadSeed: Id, downloadSeed: Id, renewSeed: Id,
                               deleteSeed: Id) {
    /** An encrypted object that opens: what sealing produces and what restoring insists on. */
    predicate Valid(x: Suite) {
      && encrypted.manifest.Valid()
      && encrypted.blobId == DB.Identify(x.crypto.sha, encrypted.manifest)
      && |encrypted.chunks| == |encrypted.manifest.digests|
      && ChunksFit(encrypted.chunks, encrypted.manifest.chunkSize + 16)
      && Opened(x.crypto, encrypted.key, encrypted.blobId, encrypted.manifest, encrypted.chunks).Success?
    }

    function Caps(x: Suite): Capabilities {
      Capabilities(x.capability(uploadSeed), x.capability(downloadSeed), x.capability(renewSeed),
                   x.capability(deleteSeed))
    }

    function Identity(x: Suite): UploadIdentity {
      UploadIdentity(uploadId, encrypted.blobId, Caps(x))
    }
  }

  datatype UploadIdentity = UploadIdentity(uploadId: Id, blobId: Id, capabilities: Capabilities)

  /** Freshly sealed objects are valid. */
  lemma SealedIsPrepared(x: Suite, plaintext: Bytes, c: U32, key: Id, salt: Salt, noise: nat -> Byte, u: Id, s1: Id,
                         s2: Id, s3: Id, s4: Id)
    requires Lawful(x.crypto) && Sealed(x.crypto, plaintext, c, key, salt, noise).Success?
    ensures Prepared(u, Sealed(x.crypto, plaintext, c, key, salt, noise).value, s1, s2, s3, s4).Valid(x)
  {
    hide Sealed, Opened;
    OpenOfSeal(x.crypto, plaintext, c, key, salt, noise);
    SealedIsUploadable(x.crypto, plaintext, c, key, salt, noise);
  }

  datatype Stage = Begin | Chunk(index: nat) | Commit | Complete {
    predicate Fits(count: nat) {
      Chunk? ==> index < count
    }
    /** Position in the order begin, chunks, commit, complete. */
    function Rank(count: nat): nat {
      match this
      case Begin => 0
      case Chunk(i) => i + 1
      case Commit => count + 1
      case Complete => count + 2
    }
    function Tag(): Byte {
      match this case Begin => 0 case Chunk(_) => 1 case Commit => 2 case Complete => 3
    }
    function Index(): nat {
      if Chunk? then index else 0
    }
    function Next(count: nat): Stage {
      match this
      case Begin => Chunk(0)
      case Chunk(i) => if i + 1 == count then Stage.Commit else Chunk(i + 1)
      case _ => Complete
    }
  }

  /** The stage with this tag and index. */
  function StageOf(tag: Byte, index: U32, count: nat): (s: Option<Stage>)
    ensures s.Some? ==> s.value.Fits(count) && s.value.Tag() == tag && s.value.Index() == index
  {
    if tag == 0 && index == 0 then Some(Begin)
    else if tag == 1 && index < count then Some(Chunk(index))
    else if tag == 2 && index == 0 then Some(Stage.Commit)
    else if tag == 3 && index == 0 then Some(Complete)
    else None
  }

  datatype Pending = Pending(requestId: RequestId, command: BlobCommand, bytes: Bytes)

  datatype Upload = Upload(blob: Prepared, ttl: U64, stage: Stage, pending: Option<Pending>) {
    function Rank(): nat {
      stage.Rank(|blob.encrypted.chunks|)
    }

    predicate Shaped(x: Suite) {
      blob.Valid(x) && stage.Fits(|blob.encrypted.chunks|)
    }

    /** What restoring promises: a pending frame is a genuine frame of the current stage. */
    predicate Valid(x: Suite) {
      && Shaped(x)
      && (pending.Some? ==>
            !stage.Complete?
            && ValidatePending(x, blob, ttl, stage, pending.value.bytes) == Some(pending.value))
    }
  }

  // ----- frames -----

  /** The one request of a stage. */
  function RequestOf(x: Suite, blob: Prepared, ttl: U64, stage: Stage): (r: BlobRequest)
    requires blob.Valid(x) && stage.Fits(|blob.encrypted.chunks|) && !stage.Complete?
    ensures r.Encodable() && r.Capability() == x.capability(blob.uploadSeed)
    ensures r.PutChunk? ==> |r.ciphertext| <= MAX_CIPHERTEXT_BYTES
    ensures ttl > 0 || !stage.Begin? ==> r.Valid()
  {
    var e := blob.encrypted;
    match stage
    case Begin => BeginUpload(blob.uploadId, blob.Caps(x), e.manifest, ttl)
    case Chunk(i) => PutChunk(blob.uploadId, x.capability(blob.uploadSeed), i, e.chunks[i])
    case Commit => BlobCodec.Commit(blob.uploadId, x.capability(blob.uploadSeed), e.blobId)
  }

  function FrameOf(x: Suite, seed: Id, id: RequestId, r: BlobRequest): (f: BlobFrame)
    requires r.Encodable()
    ensures f.Encodable() && |f.auth| == AUTH_BYTES
  {
    BlobFrame(id, r, x.sign(seed, BlobAuthenticatedBytes(id, r)))
  }

  /** The frame of a stage under a request identifier, signed by the upload key. */
  function PendingOf(x: Suite, blob: Prepared, ttl: U64, stage: Stage, id: RequestId): Pending
    requires blob.Valid(x) && stage.Fits(|blob.encrypted.chunks|) && !stage.Complete?
  {
    var r := RequestOf(x, blob, ttl, stage);
    Pending(id, r.Command(), BlobRequestBytes(FrameOf(x, blob.uploadSeed, id, r)))
  }

  /** The request is the one of this stage, compared field by field. */
  predicate MatchesStage(x: Suite, blob: Prepared, ttl: U64, stage: Stage, r: BlobRequest) {
    match (stage, r)
    case (Begin, BeginUpload(u, caps, m, t)) =>
      && u == blob.uploadId && t == ttl && m == blob.encrypted.manifest
      && caps.upload == x.capability(blob.uploadSeed) && caps.download == x.capability(blob.downloadSeed)
      && caps.renew == x.capability(blob.renewSeed) && caps.delete == x.capability(blob.deleteSeed)
    case (Chunk(expected), PutChunk(u, cap, i, ciphertext)) =>
      && u == blob.uploadId && cap == x.capability(blob.uploadSeed)
      && i == expected && expected < |blob.encrypted.chunks| && blob.encrypted.chunks[expected] == ciphertext
    case (Commit, Commit(u, cap, b)) =>
      u == blob.uploadId && cap == x.capability(blob.uploadSeed) && b == blob.encrypted.blobId
    case _ => false
  }

  function ValidatePending(x: Suite, blob: Prepared, ttl: U64, stage: Stage, bytes: Bytes): Option<Pending> {
    match ParseBlobRequest(bytes)
    case Failure(_) => None
    case Success(d) =>
      if !x.verify(d.frame.request.Capability(), d.authenticated, d.frame.auth) then None
      else if !MatchesStage(x, blob, ttl, stage, d.frame.request) then None
      else Some(Pending(d.frame.requestId, d.frame.request.Command(), bytes))
  }

  /** Comparing the fields is comparing with the request the stage would make. */
  lemma MatchesExact(x: Suite, blob: Prepared, ttl: U64, stage: Stage, r: BlobRequest)
    requires blob.Valid(x) && stage.Fits(|blob.encrypted.chunks|)
    ensures MatchesStage(x, blob, ttl, stage, r) <==> !stage.Complete? && r == RequestOf(x, blob, ttl, stage)
  {
    hide Prepared.Valid;
  }

  /** A pending frame passes exactly if it is a canonical frame of the stage's own request with a proof that
      verifies under the upload capability. */
  lemma PendingExactly(x: Suite, blob: Prepared, ttl: U64, stage: Stage, bytes: Bytes, p: Pending)
    requires blob.Valid(x) && stage.Fits(|blob.encrypted.chunks|) && !stage.Complete?
    ensures ValidatePending(x, blob, ttl, stage, bytes) == Some(p) <==>
              exists f: BlobFrame ::
                && f.Valid() && bytes == BlobRequestBytes(f) && f.request == RequestOf(x, blob, ttl, stage)
                && x.verify(x.capability(blob.uploadSeed), BlobAuthenticatedBytes(f.requestId, f.request), f.auth)
                && p == Pending(f.requestId, f.request.Command(), bytes)
  {
    hide Prepared.Valid, RequestOf, BlobRequestBytes, ParseBlobRequest, BlobAuthenticatedBytes, MatchesStage;
    match ParseBlobRequest(bytes) {
      case Success(d) =>
        BlobRequestExact(bytes, d);
        MatchesExact(x, blob, ttl, stage, d.frame.request);
      case Failure(_) =>
    }
    forall f: BlobFrame | f.Valid() && bytes == BlobRequestBytes(f)
      ensures ParseBlobRequest(bytes) == Success(DecodedBlob(f, BlobAuthenticatedBytes(f.requestId, f.request)))
    {
      BlobRequestExact(bytes, DecodedBlob(f, BlobAuthenticatedBytes(f.requestId, f.request)));
    }
  }

  /** A frame made for a stage passes the validation of that stage, unless its ttl is zero. */
  lemma PendingPasses(x: Suite, blob: Prepared, ttl: U64, stage: Stage, id: RequestId)
    requires Genuine(x) && blob.Valid(x) && stage.Fits(|blob.encrypted.chunks|) && !stage.Complete? && ttl > 0
    ensures var p := PendingOf(x, blob, ttl, stage, id); ValidatePending(x, blob, ttl, stage, p.bytes) == Some(p)
  {
    hide Prepared.Valid, RequestOf, BlobRequestBytes, ParseBlobRequest, BlobAuthenticatedBytes, MatchesStage;
    var r := RequestOf(x, blob, ttl, stage);
    var f := FrameOf(x, blob.uploadSeed, id, r);
    MatchesExact(x, blob, ttl, stage, r);
    BlobRequestExact(BlobRequestBytes(f), DecodedBlob(f, BlobAuthenticatedBytes(id, r)));
  }

  // ----- snapshots -----

  datatype ClientError =
    | Transport
    | Store
    | Crypto
    | InvalidResponse
    | InvalidPersistedState
    | Refusal(status: BlobStatus)

  function PendingBytes(p: Option<Pending>): Bytes {
    match p case None => [] case Some(f) => f.bytes
  }

  /** The pending frame fits the snapshot. */
  predicate Storable(x: Suite, up: Upload) {
    up.Shaped(x) && |PendingBytes(up.pending)| <= MAX_BLOB_FRAME_BYTES
  }

  function StateOf(x: Suite, up: Upload): (s: State)
    requires Storable(x, up)
    ensures s.content.Valid()
  {
    var b, e := up.blob, up.blob.encrypted;
    State(Keys(b.uploadId, e.key, b.uploadSeed, b.downloadSeed, b.renewSeed, b.deleteSeed),
          Progress(up.ttl, up.stage.Tag(), up.stage.Index()),
          Content(e.manifest, e.chunks, PendingBytes(up.pending)))
  }

  function ToBytes(x: Suite, up: Upload): Bytes
    requires Storable(x, up)
  {
    StateBytes(StateOf(x, up))
  }

  function BlobOf(x: Suite, s: State): (b: Prepared)
    requires s.Valid()
    ensures b.encrypted.manifest.Valid()
  {
    var k, c := s.keys, s.content;
    Prepared(k.uploadId, EncryptedBlob(k.objectKey, c.manifest, DB.Identify(x.crypto.sha, c.manifest), c.chunks),
             k.uploadSeed, k.downloadSeed, k.renewSeed, k.deleteSeed)
  }

  /** A parsed snapshot as an upload: the object must open, the stage must exist and the pending frame
      must belong to it. */
  function Interpret(x: Suite, s: State): Result<Upload, ClientError>
    requires s.Valid()
  {
    var blob := BlobOf(x, s);
    var e := blob.encrypted;
    if Opened(x.crypto, e.key, e.blobId, e.manifest, e.chunks).Failure? then Failure(InvalidPersistedState)
    else
      match StageOf(s.progress.tag, s.progress.index, |e.chunks|)
      case None => Failure(InvalidPersistedState)
      case Some(stage) =>
        if s.content.pending == [] then Success(Upload(blob, s.progress.ttl, stage, None))
        else
          match ValidatePending(x, blob, s.progress.ttl, stage, s.content.pending)
          case None => Failure(InvalidPersistedState)
          case Some(p) =>
            if stage.Complete? then Failure(InvalidPersistedState)
            else Success(Upload(blob, s.progress.ttl, stage, Some(p)))
  }

  function Decode(x: Suite, bytes: Bytes): Result<Upload, ClientError> {
    match ParseState(bytes)
    case Bad => Failure(InvalidPersistedState)
    case Got(s, _) => Interpret(x, s)
  }

  function Restore(x: Suite, bytes: Bytes, expected: UploadIdentity): Result<Upload, ClientError> {
    match Decode(x, bytes)
    case Failure(e) => Failure(e)
    case Success(up) => if up.blob.Identity(x) != expected then Failure(InvalidPersistedState) else Success(up)
  }

  /** A frame that passes validation is a frame, so it is not empty and fits the snapshot. */
  lemma PassedFits(x: Suite, blob: Prepared, ttl: U64, stage: Stage, bytes: Bytes)
    requires ValidatePending(x, blob, ttl, stage, bytes).Some?
    ensures 0 < |bytes| <= MAX_BLOB_FRAME_BYTES
    ensures ValidatePending(x, blob, ttl, stage, bytes).value.bytes == bytes
  {
    hide BlobRequestBytes, ParseBlobRequest, MatchesStage;
    var d := ParseBlobRequest(bytes).value;
    BlobRequestExact(bytes, d);
    BlobRequestFits(d.frame);
  }

  /** Interpreting a state gives an upload exactly when that upload is valid and has that state. */
  lemma InterpretExact(x: Suite, s: State, up: Upload)
    requires s.Valid()
    ensures Interpret(x, s) == Success(up) <==> up.Valid(x) && up.ttl > 0 && Storable(x, up) && StateOf(x, up) == s
  {
    hide Opened, ValidatePending, LimitsHold;
    if up.Valid(x) && up.pending.Some? {
      PassedFits(x, up.blob, up.ttl, up.stage, up.pending.value.bytes);
    }
    var blob := BlobOf(x, s);
    var stage := StageOf(s.progress.tag, s.progress.index, |blob.encrypted.chunks|);
    if stage.Some? && ValidatePending(x, blob, s.progress.ttl, stage.value, s.content.pending).Some? {
      PassedFits(x, blob, s.progress.ttl, stage.value, s.content.pending);
    }
  }

  /** Snapshots are exact: a byte string restores to an upload exactly when that upload is valid, has a
      positive ttl, and the byte string is its snapshot. */
  lemma DecodeExact(x: Suite, bytes: Bytes, up: Upload)
    ensures Decode(x, bytes) == Success(up) <==>
              up.Valid(x) && up.ttl > 0 && Storable(x, up) && bytes == ToBytes(x, up)
  {
    hide ParseState, StateBytes, Interpret, Upload.Valid, Storable;
    match ParseState(bytes) {
      case Got(s, rest) =>
        InterpretExact(x, s, up);
        if Storable(x, up) {
          StateExact(bytes, StateOf(x, up));
        }
      case Bad =>
        if Storable(x, up) {
          StateExact(bytes, StateOf(x, up));
        }
    }
  }

  /** A snapshot is restored only under the identity it was prepared with. */
  lemma RestoreExact(x: Suite, bytes: Bytes, expected: UploadIdentity, up: Upload)
    ensures Restore(x, bytes, expected) == Success(up) <==>
              up.Valid(x) && up.ttl > 0 && Storable(x, up) && bytes == ToBytes(x, up) && up.blob.Identity(x) == expected
  {
    hide Decode, Upload.Valid, Storable, ToBytes;
    DecodeExact(x, bytes, up);
  }

  // ----- snapshots as written and read -----

  method PushSized(output: Bytes, value: Bytes) returns (r: Bytes)
    requires |value| < U32_LIMIT
    ensures forall t :: r + t == output + PutSized(value, t)
  {
    assert Pow256(4) == U32_LIMIT;
    r := output + Be(|value|, 4);
    r := r + value;
    forall t ensures r + t == output + PutSized(value, t) {
      assert PutSized(value, t) == Be(|value|, 4) + (value + t);
    }
  }

  method PushChunks(output: Bytes, chunks: seq<Bytes>) returns (r: Bytes)
    requires ChunksFit(chunks, U32_LIMIT - 1)
    ensures forall t :: r + t == output + PutChunks(chunks, t)
  {
    hide PutSized;
    r := output;
    var i := 0;
    while i < |chunks|
      invariant 0 <= i <= |chunks|
      invariant forall t :: r + PutChunks(chunks[i..], t) == output + PutChunks(chunks, t)
    {
      ghost var before := r;
      r := PushSized(r, chunks[i]);
      forall t ensures r + PutChunks(chunks[i + 1..], t) == output + PutChunks(chunks, t) {
        assert chunks[i..][1..] == chunks[i + 1..];
        assert before + PutSized(chunks[i], PutChunks(chunks[i + 1..], t)) == output + PutChunks(chunks, t);
      }
      i := i + 1;
    }
    assert chunks[i..] == [];
  }

  /** The part of a snapshot before the manifest. */
  function HeadOf(s: State): Bytes {
    SNAPSHOT_MAGIC + ([SNAPSHOT_VERSION] + PutKeys(s.keys, PutProgress(s.progress, [])))
  }

  lemma HeadThenContent(s: State)
    requires s.content.Valid()
    ensures StateBytes(s) == HeadOf(s) + PutContent(s.content, [])
  {
    hide PutContent, Content.Valid;
    var t := PutContent(s.content, []);
    assert [] + t == t;
    assert PutProgress(s.progress, t) == PutProgress(s.progress, []) + t;
    var u := PutProgress(s.progress, []);
    assert PutKeys(s.keys, u + t) == PutKeys(s.keys, u) + t;
  }

  method EncodeUploadState(x: Suite, up: Upload) returns (bytes: Bytes)
    requires Storable(x, up)
    ensures bytes == ToBytes(x, up)
  {
    hide Prepared.Valid, PutSized, PutChunks, ManifestBytes;
    ghost var s := StateOf(x, up);
    var blob := up.blob;
    bytes := SNAPSHOT_MAGIC;
    bytes := bytes + [SNAPSHOT_VERSION];
    bytes := bytes + blob.uploadId + blob.encrypted.key;
    bytes := bytes + blob.uploadSeed + blob.downloadSeed + blob.renewSeed + blob.deleteSeed;
    assert Pow256(8) == U64_LIMIT && Pow256(4) == U32_LIMIT;
    bytes := bytes + Be(up.ttl, 8) + [up.stage.Tag()] + Be(up.stage.Index(), 4);
    assert bytes == HeadOf(s);
    HeadThenContent(s);
    hide HeadOf, PutKeys, PutProgress, Be;
    ghost var t1 := PutSized(s.content.pending, []);
    ghost var t2 := PutChunks(s.content.chunks, t1);
    bytes := PushSized(bytes, ManifestBytes(blob.encrypted.manifest));
    bytes := PushCount(bytes, |blob.encrypted.chunks|);
    bytes := PushChunks(bytes, blob.encrypted.chunks);
    bytes := PushSized(bytes, PendingBytes(up.pending));
    assert bytes == bytes + [];
  }

  method PushCount(output: Bytes, n: U32) returns (r: Bytes)
    ensures forall t :: r + t == output + PutU32(n, t)
  {
    assert Pow256(4) == U32_LIMIT;
    r := output + Be(n, 4);
  }

  method ReadKeys(cursor: StateCursor) returns (r: Result<Keys, Malformed>)
    modifies cursor
    ensures cursor.Reads(ParseKeys(old(cursor.rest)), r)
  {
    hide ParseId;
    var uploadId :- cursor.TakeId();
    var objectKey :- cursor.TakeId();
    var uploadSeed :- cursor.TakeId();
    var downloadSeed :- cursor.TakeId();
    var renewSeed :- cursor.TakeId();
    var deleteSeed :- cursor.TakeId();
    return Success(Keys(uploadId, objectKey, uploadSeed, downloadSeed, renewSeed, deleteSeed));
  }

  method ReadContent(cursor: StateCursor) returns (r: Result<Content, Malformed>)
    modifies cursor
    ensures cursor.Reads(ParseContent(old(cursor.rest)), r)
  {
    hide ParseSized, ParseChunks, ParseU32, Parse, IsPowerOfTwo, PutSized, PutChunks, PutU32, ManifestBytes;
    var bytes :- cursor.TakeSized(MAX_BLOB_FRAME_BYTES);
    var parsed := Parse(bytes);
    if parsed.Failure? {
      return Failure(Malformed);
    }
    var manifest := parsed.value;
    ParseExact(bytes, manifest);
    var count :- cursor.TakeU32();
    if count != |manifest.digests| || count > MAX_CHUNKS {
      return Failure(Malformed);
    }
    var chunks :- cursor.TakeChunks(count, manifest.chunkSize + 16);
    var pending :- cursor.TakeSized(MAX_BLOB_FRAME_BYTES);
    return Success(Content(manifest, chunks, pending));
  }

  method ReadState(bytes: Bytes) returns (r: Result<State, Malformed>)
    ensures match ParseState(bytes) case Got(s, _) => r == Success(s) case Bad => r.Failure?
  {
    hide ParseKeys, ParseContent, ParseU64, ParseU32, ParseByte, PutKeys, PutContent, PutU64, PutU32;
    var cursor := new StateCursor(bytes);
    var magic :- cursor.TakeBytes(4);
    if magic != SNAPSHOT_MAGIC {
      return Failure(Malformed);
    }
    var version :- cursor.TakeByte();
    if version != SNAPSHOT_VERSION {
      return Failure(Malformed);
    }
    var keys :- ReadKeys(cursor);
    var ttl :- cursor.TakeU64();
    if ttl == 0 {
      return Failure(Malformed);
    }
    var tag :- cursor.TakeByte();
    var index :- cursor.TakeU32();
    var content :- ReadContent(cursor);
    if cursor.rest != [] {
      return Failure(Malformed);
    }
    return Success(State(keys, Progress(ttl, tag, index), content));
  }

  method DecodeUploadState(x: Suite, bytes: Bytes) returns (r: Result<Upload, ClientError>)
    ensures r == Decode(x, bytes)
  {
    hide ParseState, ValidatePending, Opened, OpenFirst, DB.Identify, ManifestBytes, StateBytes;
    var read := ReadState(bytes);
    if read.Failure? {
      return Failure(InvalidPersistedState);
    }
    var s := read.value;
    var blob := BlobOf(x, s);
    var e := blob.encrypted;
    var plaintext := Open(x.crypto, e.key, e.blobId, e.manifest, e.chunks);
    if plaintext.Failure? {
      return Failure(InvalidPersistedState);
    }
    var stage := StageOf(s.progress.tag, s.progress.index, |e.chunks|);
    if stage.None? {
      return Failure(InvalidPersistedState);
    }
    var pending: Option<Pending> := None;
    if s.content.pending != [] {
      pending := ValidatePending(x, blob, s.progress.ttl, stage.value, s.content.pending);
      if pending.None? {
        return Failure(InvalidPersistedState);
      }
    }
    if stage.value.Complete? && pending.Some? {
      return Failure(InvalidPersistedState);
    }
    return Success(Upload(blob, s.progress.ttl, stage.value, pending));
  }

  // ----- one transition -----

  /** A store that reports failure may still have made the bytes durable. */
  datatype StoreOutcome = Stored | Failed | FailedButDurable

  datatype UploadProgress = HasBegun | ChunkStored(index: nat) | HasCommitted(expiresAt: U64) | AlreadyComplete

  /** The upload with a frame for its stage: the one it already has, or a new one. */
  function WithPending(x: Suite, up: Upload, id: RequestId): (r: Upload)
    requires Storable(x, up) && !up.stage.Complete?
    ensures Storable(x, r) && r.pending.Some? && r == up.(pending := r.pending)
  {
    if up.pending.Some? then up
    else
      var p := PendingOf(x, up.blob, up.ttl, up.stage, id);
      BlobRequestFits(FrameOf(x, up.blob.uploadSeed, id, RequestOf(x, up.blob, up.ttl, up.stage)));
      up.(pending := Some(p))
  }

  /** What an OK body completes, if it belongs to the stage. */
  function Completes(stage: Stage, body: Option<BlobBody>): Option<UploadProgress> {
    match (stage, body)
    case (Begin, Some(Begun(_))) => Some(HasBegun)
    case (Chunk(i), Some(ChunkPut(_))) => Some(ChunkStored(i))
    case (Commit, Some(Committed(expiresAt))) => Some(HasCommitted(expiresAt))
    case _ => None
  }

  /** A response moves the upload on only if it answers the pending frame with the stage's success. */
  function Accept(up: Upload, reply: Bytes): Result<(Upload, UploadProgress), ClientError>
    requires up.pending.Some?
  {
    match ParseBlobResponse(reply)
    case Failure(_) => Failure(InvalidResponse)
    case Success(f) =>
      if f.requestId != up.pending.value.requestId || f.response.command != Some(up.pending.value.command)
        then Failure(InvalidResponse)
      else if f.response.status != BLOB_OK then Failure(Refusal(f.response.status))
      else
        match Completes(up.stage, f.response.body)
        case None => Failure(InvalidResponse)
        case Some(progress) => Success((up.(stage := up.stage.Next(|up.blob.encrypted.chunks|), pending := None),
                                        progress))
  }

  /** Uploader in memory, bytes on the store, frame transmitted, and result of one advance. */
  datatype Advanced = Advanced(up: Upload, stored: Option<Bytes>, sent: Option<Bytes>,
                               result: Result<UploadProgress, ClientError>)

  function Persist(x: Suite, up: Upload, stored: Option<Bytes>, outcome: StoreOutcome): Option<Bytes>
    requires Storable(x, up)
  {
    if outcome.Failed? then stored else Some(ToBytes(x, up))
  }

  lemma AcceptedIsStorable(x: Suite, up: Upload, reply: Bytes)
    requires Storable(x, up) && up.pending.Some?
    ensures Accept(up, reply).Success? ==> Storable(x, Accept(up, reply).value.0)
  {
    hide ParseBlobResponse, Prepared.Valid;
    if up.stage.Begin? {
      AtLeastOneChunk(x, up.blob);
    }
  }

  lemma AtLeastOneChunk(x: Suite, blob: Prepared)
    requires blob.Valid(x)
    ensures |blob.encrypted.chunks| > 0
  {
    hide Opened;
  }

  /** Record the frame, transmit it, check the response, record the new stage; a failed second record
      leaves the uploader where it was. */
  function Advancing(x: Suite, up: Upload, stored: Option<Bytes>, id: RequestId, first: StoreOutcome,
                     reply: Option<Bytes>, second: StoreOutcome): Advanced
    requires Storable(x, up)
  {
    if up.stage.Complete? then Advanced(up, stored, None, Success(AlreadyComplete))
    else
      var ready := WithPending(x, up, id);
      var stored1 := Persist(x, ready, stored, first);
      if !first.Stored? then Advanced(ready, stored1, None, Failure(Store))
      else
        var frame := Some(ready.pending.value.bytes);
        match reply
        case None => Advanced(ready, stored1, frame, Failure(Transport))
        case Some(bytes) =>
          AcceptedIsStorable(x, ready, bytes);
          match Accept(ready, bytes)
          case Failure(e) => Advanced(ready, stored1, frame, Failure(e))
          case Success((next, progress)) =>
            var stored2 := Persist(x, next, stored1, second);
            if !second.Stored? then Advanced(ready, stored2, frame, Failure(Store))
            else Advanced(next, stored2, frame, Success(progress))
  }

  /** The protected store and the transport. */
  class Outside {
    var stored: Option<Bytes>
    var sent: seq<Bytes>

    constructor ()
      ensures stored == None && sent == []
    {
      stored := None;
      sent := [];
    }

    method CommitState(bytes: Bytes, outcome: StoreOutcome) returns (ok: bool)
      modifies this`stored
      ensures ok == outcome.Stored?
      ensures stored == if outcome.Failed? then old(stored) else Some(bytes)
    {
      if !outcome.Failed? {
        stored := Some(bytes);
      }
      return outcome.Stored?;
    }

    method Exchange(frame: Bytes)
      modifies this`sent
      ensures sent == old(sent) + [frame]
    {
      sent := sent + [frame];
    }
  }

  class BlobUploader {
    const blob: Prepared
    const ttl: U64
    var stage: Stage
    var pending: Option<Pending>

    constructor (up: Upload)
      ensures Value() == up
    {
      blob, ttl, stage, pending := up.blob, up.ttl, up.stage, up.pending;
    }

    function Value(): Upload
      reads this
    {
      Upload(blob, ttl, stage, pending)
    }

    method Advance(x: Suite, outside: Outside, id: RequestId, first: StoreOutcome, reply: Option<Bytes>,
                   second: StoreOutcome)
      returns (r: Result<UploadProgress, ClientError>)
      requires Storable(x, Value())
      modifies this, outside
      ensures var a := Advancing(x, old(Value()), old(outside.stored), id, first, reply, second);
              && Value() == a.up && outside.stored == a.stored && r == a.result
              && outside.sent == old(outside.sent) + (match a.sent case None => [] case Some(f) => [f])
    {
      hide PendingOf, Prepared.Valid, ParseBlobResponse, StateBytes;
      if stage.Complete? {
        return Success(AlreadyComplete);
      }
      ghost var before := Value();
      if pending.None? {
        pending := Some(PendingOf(x, blob, ttl, stage, id));
      }
      assert Value() == WithPending(x, before, id);
      var snapshot := EncodeUploadState(x, Value());
      var ok := outside.CommitState(snapshot, first);
      if !ok {
        return Failure(Store);
      }
      outside.Exchange(pending.value.bytes);
      if reply.None? {
        return Failure(Transport);
      }
      var decoded := DecodeBlobResponse(reply.value);
      if decoded.Failure? {
        return Failure(InvalidResponse);
      }
      var response := decoded.value.response;
      if decoded.value.requestId != pending.value.requestId || response.command != Some(pending.value.command) {
        return Failure(InvalidResponse);
      }
      if response.status != BLOB_OK {
        return Failure(Refusal(response.status));
      }
      var progress := Completes(stage, response.body);
      if progress.None? {
        return Failure(InvalidResponse);
      }
      AcceptedIsStorable(x, Value(), reply.value);
      var previousStage, previousPending := stage, pending;
      stage := stage.Next(|blob.encrypted.chunks|);
      pending := None;
      snapshot := EncodeUploadState(x, Value());
      ok := outside.CommitState(snapshot, second);
      if !ok {
        stage, pending := previousStage, previousPending;
        return Failure(Store);
      }
      return Success(progress.value);
    }
  }

  // ----- what an advance reports -----

  /** The canonical OK response to this frame, with this body. */
  predicate SaysOk(reply: Bytes, p: Pending, body: BlobBody) {
    var response := BlobResponse(Some(p.command), BLOB_OK, Some(body));
    response.Valid() && reply == BlobResponseBytes(BlobReply(p.requestId, response))
  }

  /** The canonical refusal of this frame, with this status. */
  predicate SaysNo(reply: Bytes, p: Pending, status: BlobStatus) {
    status != BLOB_OK && reply == BlobResponseBytes(BlobReply(p.requestId, Declined(Some(p.command), status)))
  }

  /** What a stage waits for, and what its arrival is reported as. */
  predicate Brings(stage: Stage, body: BlobBody, progress: UploadProgress) {
    match stage
    case Begin => body.Begun? && progress == HasBegun
    case Chunk(i) => body.ChunkPut? && progress == ChunkStored(i)
    case Commit => body.Committed? && progress == HasCommitted(body.expiresAt)
    case Complete => false
  }

  /** The reply moves the upload on with this progress. */
  ghost predicate MovesOn(ready: Upload, reply: Option<Bytes>, progress: UploadProgress) {
    && reply.Some? && ready.pending.Some?
    && exists body: BlobBody :: SaysOk(reply.value, ready.pending.value, body) && Brings(ready.stage, body, progress)
  }

  /** A response is accepted exactly if it is the canonical OK response to the pending frame with the body its
      stage waits for; a refusal is reported exactly on the canonical refusal with that status; anything else
      is an invalid response. */
  lemma AcceptExactly(up: Upload, reply: Bytes)
    requires up.pending.Some?
    ensures var a, p := Accept(up, reply), up.pending.value;
            && (forall progress :: MovesOn(up, Some(reply), progress) <==> a.Success? && a.value.1 == progress)
            && (a.Success? ==> a.value.0 == up.(stage := up.stage.Next(|up.blob.encrypted.chunks|), pending := None))
            && (forall status :: a == Failure(Refusal(status)) <==> SaysNo(reply, p, status))
            && (a.Failure? ==> a.error.Refusal? || a.error == InvalidResponse)
  {
    hide ParseBlobResponse, BlobResponseBytes, BlobBody.Valid;
    var p := up.pending.value;
    match ParseBlobResponse(reply) {
      case Success(f) =>
        BlobResponseExact(reply, f);
        if f == BlobReply(p.requestId, BlobResponse(Some(p.command), BLOB_OK, f.response.body)) {
          ReplyIsOne(reply, p, f.response.body.value);
        }
      case Failure(_) =>
    }
    forall body: BlobBody | SaysOk(reply, p, body)
      ensures ParseBlobResponse(reply) ==
                Success(BlobReply(p.requestId, BlobResponse(Some(p.command), BLOB_OK, Some(body))))
    {
      BlobResponseExact(reply, BlobReply(p.requestId, BlobResponse(Some(p.command), BLOB_OK, Some(body))));
    }
    forall status: BlobStatus | SaysNo(reply, p, status)
      ensures ParseBlobResponse(reply) == Success(BlobReply(p.requestId, Declined(Some(p.command), status)))
    {
      BlobResponseExact(reply, BlobReply(p.requestId, Declined(Some(p.command), status)));
    }
  }

  lemma ReplyIsOne(reply: Bytes, p: Pending, body: BlobBody)
    requires ParseBlobResponse(reply) ==
               Success(BlobReply(p.requestId, BlobResponse(Some(p.command), BLOB_OK, Some(body))))
    ensures SaysOk(reply, p, body)
  {
    hide ParseBlobResponse, BlobResponseBytes, BlobBody.Valid;
    BlobResponseExact(reply, BlobReply(p.requestId, BlobResponse(Some(p.command), BLOB_OK, Some(body))));
  }

  /** The result of an advance, exactly. */
  lemma AdvanceReportsExactly(x: Suite, up: Upload, stored: Option<Bytes>, id: RequestId, first: StoreOutcome,
                              reply: Option<Bytes>, second: StoreOutcome)
    requires Storable(x, up) && !up.stage.Complete?
    ensures var r := Advancing(x, up, stored, id, first, reply, second).result;
            var ready := WithPending(x, up, id);
            var moves := exists progress :: MovesOn(ready, reply, progress);
            && (forall progress :: r == Success(progress) <==>
                  first.Stored? && MovesOn(ready, reply, progress) && second.Stored?)
            && (r == Failure(Store) <==> !first.Stored? || (moves && !second.Stored?))
            && (r == Failure(Transport) <==> first.Stored? && reply == None)
            && (forall status :: r == Failure(Refusal(status)) <==>
                  first.Stored? && reply.Some? && SaysNo(reply.value, ready.pending.value, status))
  {
    hide WithPending, Accept, SaysOk, SaysNo, Brings, ToBytes, Storable;
    var ready := WithPending(x, up, id);
    if reply.Some? {
      AcceptExactly(ready, reply.value);
      if Accept(ready, reply.value).Success? {
        assert MovesOn(ready, reply, Accept(ready, reply.value).value.1);
      }
    }
  }
}
