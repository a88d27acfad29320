/** The fail-closed download, and the whole way of an object: sealed, uploaded, downloaded, opened. */
module Download {
  import opened Base
  import opened Manifest
  import opened BlobCodec
  import opened Sealing
  import opened Uploader
  import opened BlobService
  import BI = BlobInvariant
  import BT = BlobTrace
  import DB = DurableBlob
  import G = BlobGrants
  import R = Replay
  import UF = UploadFacts
  import UR = UploadRun

  type Wire = b: BlobBody | b.Encodable() witness Deleted

  /** The identifier drawn for each exchange of a download, and what the transport brings back for the
      bytes sent in it. */
  datatype Network = Network(ids: nat -> RequestId, reply: (nat, Bytes) -> Option<Bytes>)

  // ----- one exchange -----

  /** The response must decode and be to this request; then its status decides. */
  function Checked(reply: Bytes, id: RequestId, command: BlobCommand): Result<Wire, ClientError> {
    match ParseBlobResponse(reply)
    case Failure(_) => Failure(InvalidResponse)
    case Success(f) =>
      BlobResponseExact(reply, f);
      if f.requestId != id || f.response.command != Some(command) then Failure(InvalidResponse)
      else if f.response.status != BLOB_OK then Failure(Refusal(f.response.status))
      else if f.response.body.None? then Failure(InvalidResponse)
      else Success(f.response.body.value)
  }

  /** A request by the download key, in the k-th exchange. */
  function Exchanged(x: Suite, blob: Prepared, net: Network, k: nat, r: Buildable): Result<Wire, ClientError> {
    match net.reply(k, BlobRequestBytes(FrameOf(x, blob.downloadSeed, net.ids(k), r)))
    case None => Failure(Transport)
    case Some(reply) => Checked(reply, net.ids(k), r.Command())
  }

  /** The response counts exactly if it is canonical and to this request: its body if its status is OK, its
      status as a refusal otherwise, and an invalid response in every other case. */
  lemma CheckedExactly(reply: Bytes, p: Pending)
    ensures var a := Checked(reply, p.requestId, p.command);
            && (forall body: BlobBody :: SaysOk(reply, p, body) <==> a.Success? && a.value == body)
            && (forall status :: a == Failure(Refusal(status)) <==> SaysNo(reply, p, status))
            && (a.Failure? ==> a.error.Refusal? || a.error == InvalidResponse)
            && (a.Success? ==> a.value.Command() == p.command)
  {
    hide ParseBlobResponse, BlobResponseBytes, BlobBody.Valid;
    match ParseBlobResponse(reply) {
      case Success(f) => BlobResponseExact(reply, f);
      case Failure(_) =>
    }
    forall body: BlobBody | SaysOk(reply, p, body)
      ensures Checked(reply, p.requestId, p.command).Success? && Checked(reply, p.requestId, p.command).value == body
    {
      BlobResponseExact(reply, BlobReply(p.requestId, BlobResponse(Some(p.command), BLOB_OK, Some(body))));
    }
    forall status: BlobStatus | SaysNo(reply, p, status)
      ensures Checked(reply, p.requestId, p.command) == Failure(Refusal(status))
    {
      BlobResponseExact(reply, BlobReply(p.requestId, Declined(Some(p.command), status)));
    }
  }

  // ----- the download -----

  function AskManifest(x: Suite, blob: Prepared, net: Network): (r: Result<Manifest, ClientError>)
    ensures r.Success? ==> r.value.Valid()
  {
    match Exchanged(x, blob, net, 0, GetManifest(blob.encrypted.blobId, x.capability(blob.downloadSeed)))
    case Failure(e) => Failure(e)
    case Success(body) => if body.ManifestGot? then Success(body.manifest) else Failure(InvalidResponse)
  }

  function AskChunk(x: Suite, blob: Prepared, net: Network, i: U32): Result<Bytes, ClientError> {
    match Exchanged(x, blob, net, i + 1, GetChunk(blob.encrypted.blobId, x.capability(blob.downloadSeed), i))
    case Failure(e) => Failure(e)
    case Success(body) => if body.ChunkGot? then Success(body.chunk) else Failure(InvalidResponse)
  }

  function AskFirst(x: Suite, blob: Prepared, net: Network, n: U32): (r: Result<seq<Bytes>, ClientError>)
    ensures r.Success? ==> |r.value| == n
  {
    if n == 0 then Success([])
    else
      match AskFirst(x, blob, net, n - 1)
      case Failure(e) => Failure(e)
      case Success(chunks) =>
        match AskChunk(x, blob, net, n - 1)
        case Failure(e) => Failure(e)
        case Success(chunk) => Success(chunks + [chunk])
  }

  function Downloaded(x: Suite, blob: Prepared, net: Network): Result<Bytes, ClientError> {
    match AskManifest(x, blob, net)
    case Failure(e) => Failure(e)
    case Success(m) =>
      match AskFirst(x, blob, net, |m.digests|)
      case Failure(e) => Failure(e)
      case Success(chunks) =>
        match Opened(x.crypto, blob.encrypted.key, blob.encrypted.blobId, m, chunks)
        case Failure(_) => Failure(ClientError.Crypto)
        case Success(plaintext) => Success(plaintext)
  }

  method DownloadBlob(x: Suite, blob: Prepared, net: Network) returns (r: Result<Bytes, ClientError>)
    ensures r == Downloaded(x, blob, net)
  {
    hide Opened, IsPowerOfTwo, Exchanged;
    var manifest :- AskManifest(x, blob, net);
    var chunks: seq<Bytes> := [];
    var index := 0;
    while index < |manifest.digests|
      invariant 0 <= index <= |manifest.digests|
      invariant AskFirst(x, blob, net, index) == Success(chunks)
    {
      var chunk := AskChunk(x, blob, net, index);
      if chunk.Failure? {
        RefusalSpreads(x, blob, net, index + 1, |manifest.digests|);
        return Failure(chunk.error);
      }
      chunks := chunks + [chunk.value];
      index := index + 1;
    }
    var plaintext := Open(x.crypto, blob.encrypted.key, blob.encrypted.blobId, manifest, chunks);
    match plaintext
    case Failure(_) => return Failure(ClientError.Crypto);
    case Success(p) => return Success(p);
  }

  lemma {:induction false} RefusalSpreads(x: Suite, blob: Prepared, net: Network, i: U32, n: U32)
    requires i <= n && AskFirst(x, blob, net, i).Failure?
    ensures AskFirst(x, blob, net, n) == AskFirst(x, blob, net, i)
    decreases n
  {
    hide AskChunk;
    if i < n {
      RefusalSpreads(x, blob, net, i, n - 1);
    }
  }

  /** The exchange for chunk i is the first of the chunks' to fail, with this error. */
  ghost predicate FirstToFail(x: Suite, blob: Prepared, net: Network, i: U32, e: ClientError) {
    AskChunk(x, blob, net, i) == Failure(e) && forall j: U32 :: j < i ==> AskChunk(x, blob, net, j).Success?
  }

  ghost predicate FailsWithin(x: Suite, blob: Prepared, net: Network, n: U32, e: ClientError) {
    exists i: U32 :: i < n && FirstToFail(x, blob, net, i, e)
  }

  /** The chunks are those of the exchanges, in order; or the error is that of the first exchange to fail. */
  lemma {:induction false} AskFirstExactly(x: Suite, blob: Prepared, net: Network, n: U32)
    ensures match AskFirst(x, blob, net, n)
            case Success(chunks) =>
              forall i: U32 :: i < n ==> AskChunk(x, blob, net, i) == Success(chunks[i])
            case Failure(e) => FailsWithin(x, blob, net, n, e)
    decreases n
  {
    hide AskChunk;
    if n > 0 {
      var k: U32 := n - 1;
      var last := AskChunk(x, blob, net, k);
      AskFirstExactly(x, blob, net, k);
      match AskFirst(x, blob, net, k) {
        case Failure(e) =>
          assert AskFirst(x, blob, net, n) == Failure(e);
          var i: U32 :| i < k && FirstToFail(x, blob, net, i, e);
          assert i < n && FirstToFail(x, blob, net, i, e);
        case Success(chunks) =>
          if last.Failure? {
            assert AskFirst(x, blob, net, n) == Failure(last.error);
            assert FirstToFail(x, blob, net, k, last.error);
          } else {
            assert AskFirst(x, blob, net, n) == Success(chunks + [last.value]);
          }
      }
    }
  }

  /** The exchange for chunk i. */
  function ChunkReply(x: Suite, blob: Prepared, net: Network, i: U32): Result<Wire, ClientError> {
    Exchanged(x, blob, net, i + 1, GetChunk(blob.encrypted.blobId, x.capability(blob.downloadSeed), i))
  }

  /** An OK response carries the body of its command. */
  lemma BodyAnswersRequest(x: Suite, blob: Prepared, net: Network, k: nat, r: Buildable)
    ensures var a := Exchanged(x, blob, net, k, r); a.Success? ==> a.value.Command() == r.Command()
  {
    hide BlobRequestBytes, Checked;
    match net.reply(k, BlobRequestBytes(FrameOf(x, blob.downloadSeed, net.ids(k), r)))
    case Some(reply) => CheckedExactly(reply, Pending(net.ids(k), r.Command(), []));
    case None =>
  }

  /** The result of a download, exactly: the error of the manifest's exchange, else the error of the first chunk
      exchange to fail, else what opening the chunks of the exchanges gives. */
  lemma DownloadExactly(x: Suite, blob: Prepared, net: Network)
    ensures match Exchanged(x, blob, net, 0, GetManifest(blob.encrypted.blobId, x.capability(blob.downloadSeed)))
            case Failure(e) => Downloaded(x, blob, net) == Failure(e)
            case Success(body) =>
              && body.ManifestGot?
              && var n := |body.manifest.digests|;
                 && (forall i: U32 :: i < n && ChunkReply(x, blob, net, i).Failure?
                                      && (forall j: U32 :: j < i ==> ChunkReply(x, blob, net, j).Success?) ==>
                       Downloaded(x, blob, net) == Failure(ChunkReply(x, blob, net, i).error))
                 && (forall chunks: seq<Bytes> :: Carried(x, blob, net, chunks, n) ==>
                       match Opened(x.crypto, blob.encrypted.key, blob.encrypted.blobId, body.manifest, chunks)
                       case Failure(_) => Downloaded(x, blob, net) == Failure(ClientError.Crypto)
                       case Success(plaintext) => Downloaded(x, blob, net) == Success(plaintext))
  {
    hide Exchanged, Opened, AskFirst, ChunkReply, Carried, AskChunk;
    var b, cap := blob.encrypted.blobId, x.capability(blob.downloadSeed);
    BodyAnswersRequest(x, blob, net, 0, GetManifest(b, cap));
    var ask := AskManifest(x, blob, net);
    if ask.Success? {
      var n := |ask.value.digests|;
      forall i: U32
        ensures var a := ChunkReply(x, blob, net, i); a.Failure? ==> AskChunk(x, blob, net, i) == Failure(a.error)
        ensures ChunkReply(x, blob, net, i).Success? <==> AskChunk(x, blob, net, i).Success?
      {
        ChunkAsked(x, blob, net, i);
      }
      AskFirstExactly(x, blob, net, n);
      forall chunks: seq<Bytes> | Carried(x, blob, net, chunks, n)
        ensures AskFirst(x, blob, net, n) == Success(chunks)
      {
        CarriedIsAsked(x, blob, net, chunks, n);
      }
    }
  }

  /** These are the chunks the first n exchanges carried. */
  ghost predicate Carried(x: Suite, blob: Prepared, net: Network, chunks: seq<Bytes>, n: nat)
    requires n < U32_LIMIT
  {
    |chunks| == n && forall i: U32 :: i < n ==>
      var a := ChunkReply(x, blob, net, i); a.Success? && a.value.ChunkGot? && a.value.chunk == chunks[i]
  }

  lemma ChunkAsked(x: Suite, blob: Prepared, net: Network, i: U32)
    ensures match ChunkReply(x, blob, net, i)
            case Failure(e) => AskChunk(x, blob, net, i) == Failure(e)
            case Success(body) => body.ChunkGot? && AskChunk(x, blob, net, i) == Success(body.chunk)
  {
    hide Exchanged;
    BodyAnswersRequest(x, blob, net, i + 1, GetChunk(blob.encrypted.blobId, x.capability(blob.downloadSeed), i));
  }

  lemma CarriedIsAsked(x: Suite, blob: Prepared, net: Network, chunks: seq<Bytes>, n: U32)
    requires Carried(x, blob, net, chunks, n)
    ensures AskFirst(x, blob, net, n) == Success(chunks)
  {
    hide AskFirst, ChunkReply, AskChunk;
    AskFirstExactly(x, blob, net, n);
    forall i: U32 | i < n ensures AskChunk(x, blob, net, i) == Success(chunks[i]) {
      ChunkAsked(x, blob, net, i);
    }
    var got := AskFirst(x, blob, net, n).value;
    forall i | 0 <= i < n ensures got[i] == chunks[i] {
      var k: U32 := i;
      assert AskChunk(x, blob, net, k) == Success(got[k]);
    }
    assert got == chunks;
  }

  /** Whatever the relay answers, plaintext comes out only of chunks that match the digests of a manifest
      with the expected identity. */
  lemma DownloadFailsClosed(x: Suite, blob: Prepared, net: Network)
    requires Downloaded(x, blob, net).Success?
    ensures exists m: Manifest, chunks: seq<Bytes> ::
              && m.Valid() && DB.Identify(x.crypto.sha, m) == blob.encrypted.blobId
              && Digests(x.crypto.sha, chunks) == m.digests
              && Opened(x.crypto, blob.encrypted.key, blob.encrypted.blobId, m, chunks) ==
                Success(Downloaded(x, blob, net).value)
  {
    hide AskFirst, AskManifest, Opened, DB.Identify, IsPowerOfTwo;
    var m := AskManifest(x, blob, net).value;
    var chunks := AskFirst(x, blob, net, |m.digests|).value;
    OpenFailsClosed(x.crypto, blob.encrypted.key, blob.encrypted.blobId, m, chunks);
  }

  // ----- exchanges one by one -----

  /** The request of the k-th exchange: the manifest, then the chunks in order. */
  function Asking(x: Suite, blob: Prepared, k: nat): (r: Buildable)
    requires k <= |blob.encrypted.chunks| <= MAX_CHUNKS
    ensures r.Valid() && (r.GetManifest? || r.GetChunk?)
  {
    var b, cap := blob.encrypted.blobId, x.capability(blob.downloadSeed);
    if k == 0 then GetManifest(b, cap) else GetChunk(b, cap, k - 1)
  }

  function FrameAt(x: Suite, blob: Prepared, net: Network, k: nat): Bytes
    requires k <= |blob.encrypted.chunks| <= MAX_CHUNKS
  {
    BlobRequestBytes(FrameOf(x, blob.downloadSeed, net.ids(k), Asking(x, blob, k)))
  }

  /** Every frame of a download carries its request and a proof that verifies under the download capability. */
  lemma FramesVerify(x: Suite, blob: Prepared, net: Network, k: nat)
    requires Genuine(x) && k <= |blob.encrypted.chunks| <= MAX_CHUNKS
    ensures match ParseBlobRequest(FrameAt(x, blob, net, k))
            case Failure(_) => false
            case Success(d) =>
              && d.frame.requestId == net.ids(k) && d.frame.request == Asking(x, blob, k)
              && x.verify(x.capability(blob.downloadSeed), d.authenticated, d.frame.auth)
  {
    hide BlobRequestBytes, BlobAuthenticatedBytes, ParseBlobRequest, Asking;
    var id, r := net.ids(k), Asking(x, blob, k);
    BlobRequestExact(FrameAt(x, blob, net, k),
                     DecodedBlob(FrameOf(x, blob.downloadSeed, id, r), BlobAuthenticatedBytes(id, r)));
  }

  /** The k-th exchange brings what was uploaded. */
  ghost predicate Right(x: Suite, blob: Prepared, net: Network, k: nat)
    requires k <= |blob.encrypted.chunks| <= MAX_CHUNKS
  {
    var a := Exchanged(x, blob, net, k, Asking(x, blob, k));
    && a.Success?
    && if k == 0 then a.value.ManifestGot? && a.value.manifest == blob.encrypted.manifest
       else a.value.ChunkGot? && a.value.chunk == blob.encrypted.chunks[k - 1]
  }

  /** The k-th exchange brings an OK response. */
  ghost predicate Granted(x: Suite, blob: Prepared, net: Network, k: nat)
    requires k <= |blob.encrypted.chunks| <= MAX_CHUNKS
  {
    var reply := net.reply(k, FrameAt(x, blob, net, k));
    reply.Some? && UF.IsOk(reply.value)
  }

  /** Whatever is OK is right. */
  ghost predicate Faithful(x: Suite, blob: Prepared, net: Network)
    requires |blob.encrypted.chunks| <= MAX_CHUNKS
  {
    forall k: nat :: k <= |blob.encrypted.chunks| && Granted(x, blob, net, k) ==> Right(x, blob, net, k)
  }

  ghost predicate AllGranted(x: Suite, blob: Prepared, net: Network, n: nat)
    requires n <= |blob.encrypted.chunks| <= MAX_CHUNKS
  {
    forall k: nat :: k <= n ==> Granted(x, blob, net, k)
  }

  /** Without an OK response there is an error, and it is not the cipher's. */
  lemma NotGranted(x: Suite, blob: Prepared, net: Network, k: nat)
    requires k <= |blob.encrypted.chunks| <= MAX_CHUNKS && !Granted(x, blob, net, k)
    ensures var a := Exchanged(x, blob, net, k, Asking(x, blob, k)); a.Failure? && a.error != ClientError.Crypto
  {
    hide ParseBlobResponse, BlobRequestBytes;
  }

  lemma {:induction false} FirstChunks(x: Suite, blob: Prepared, net: Network, n: U32)
    requires n <= |blob.encrypted.chunks| <= MAX_CHUNKS && Faithful(x, blob, net) && Granted(x, blob, net, 0)
    ensures var a := AskFirst(x, blob, net, n);
            if AllGranted(x, blob, net, n) then a == Success(blob.encrypted.chunks[..n])
            else a.Failure? && a.error != ClientError.Crypto
    decreases n
  {
    hide Granted, Exchanged;
    if n > 0 {
      FirstChunks(x, blob, net, n - 1);
      assert Asking(x, blob, n) == GetChunk(blob.encrypted.blobId, x.capability(blob.downloadSeed), n - 1);
      if Granted(x, blob, net, n) {
        assert blob.encrypted.chunks[..n - 1] + [blob.encrypted.chunks[n - 1]] == blob.encrypted.chunks[..n];
      } else {
        NotGranted(x, blob, net, n);
      }
    }
  }

  /** If whatever is OK is right, then the download gives the plaintext exactly when all is OK. */
  lemma FaithfulDownload(x: Suite, blob: Prepared, net: Network)
    requires blob.Valid(x) && Faithful(x, blob, net)
    ensures var e, r := blob.encrypted, Downloaded(x, blob, net);
            if AllGranted(x, blob, net, |e.chunks|)
            then r == Success(Opened(x.crypto, e.key, e.blobId, e.manifest, e.chunks).value)
            else r.Failure? && r.error != ClientError.Crypto
  {
    hide Granted, Exchanged, Opened, AskFirst, ManifestBytes, DB.Identify;
    var n := |blob.encrypted.chunks|;
    assert Asking(x, blob, 0) == GetManifest(blob.encrypted.blobId, x.capability(blob.downloadSeed));
    if Granted(x, blob, net, 0) {
      assert Right(x, blob, net, 0);
      FirstChunks(x, blob, net, n);
      assert blob.encrypted.chunks[..n] == blob.encrypted.chunks;
    } else {
      NotGranted(x, blob, net, 0);
    }
  }

  // ----- answers of the relay -----

  lemma ValidManifest(x: Suite, blob: Prepared)
    requires blob.Valid(x)
    ensures blob.encrypted.manifest.Valid()
            && |blob.encrypted.chunks| == |blob.encrypted.manifest.digests| <= MAX_CHUNKS
    ensures Digests(x.crypto.sha, blob.encrypted.chunks) == blob.encrypted.manifest.digests
  {
    hide Opened, Digests;
    OpenFailsClosed(x.crypto, blob.encrypted.key, blob.encrypted.blobId, blob.encrypted.manifest,
                    blob.encrypted.chunks);
  }

  /** The tables hold the object as it was prepared. */
  ghost predicate Holds(blob: Prepared, db: DB.BlobDb)
    requires blob.encrypted.manifest.Valid()
  {
    var e := blob.encrypted;
    && e.blobId in db.objects && db.objects[e.blobId] == ManifestBytes(e.manifest)
    && forall i: nat :: i < |e.chunks| ==> (e.blobId, i) in db.chunks && db.chunks[(e.blobId, i)] == e.chunks[i]
  }

  /** The reply is the relay's answer in this state at this time. */
  ghost predicate AnsweredFrom(sha: DB.Hash, db: DB.BlobDb, now: U64, job: BlobJob, reply: Bytes) {
    && DB.ExecuteTx(sha, db, job.request, now).1 != Failure(DB.StorageFault)
    && ParseBlobResponse(reply) == Success(Rendered(job, DB.ExecuteTx(sha, db, job.request, now).1))
  }

  /** A granted read serves what is stored. */
  lemma ReadIsStored(sha: DB.Hash, db: DB.BlobDb, now: U64, r: Buildable)
    requires DB.ExecuteTx(sha, db, r, now).1.Success? && (r.GetManifest? || r.GetChunk?)
    ensures DB.ExecuteTx(sha, db, r, now).0 == db
    ensures var body := DB.ExecuteTx(sha, db, r, now).1.value;
            if r.GetManifest?
            then body.ManifestGot? && body.manifest.Valid() && r.blobId in db.objects
                 && ManifestBytes(body.manifest) == db.objects[r.blobId]
            else body.ChunkGot? && (r.blobId, r.index) in db.chunks && body.chunk == db.chunks[(r.blobId, r.index)]
  {
    hide DB.AuthorizeGrant, Parse, DB.Identify, ManifestBytes;
    if r.GetManifest? {
      ParseExact(db.objects[r.blobId], Parse(db.objects[r.blobId]).value);
    }
  }

  /** An answer from a state whose tables lasted until they held the object is right. */
  lemma AnswerIsRight(x: Suite, blob: Prepared, net: Network, k: nat, reply: Bytes, db: DB.BlobDb, now: U64,
                      later: DB.BlobDb)
    requires blob.Valid(x) && k <= |blob.encrypted.chunks|
    requires net.reply(k, FrameAt(x, blob, net, k)) == Some(reply)
    requires AnsweredFrom(x.crypto.sha, db, now, BlobJob(net.ids(k), Asking(x, blob, k)), reply)
    requires DB.ExecuteTx(x.crypto.sha, db, Asking(x, blob, k), now).1.Success?
    requires BI.Keeps(db, later) && Holds(blob, later)
    ensures Right(x, blob, net, k)
  {
    hide DB.ExecuteTx, ParseBlobResponse, BlobRequestBytes, Opened, ManifestBytes, DB.Identify;
    var r := Asking(x, blob, k);
    ReadIsStored(x.crypto.sha, db, now, r);
    var body := DB.ExecuteTx(x.crypto.sha, db, r, now).1.value;
    assert Exchanged(x, blob, net, k, r) == Success(body);
    if k == 0 {
      ManifestBytesInjective(body.manifest, blob.encrypted.manifest);
    }
  }

  /** The download capability is live. */
  ghost predicate Readable(x: Suite, blob: Prepared, db: DB.BlobDb, now: U64) {
    && BI.Sound(x.crypto.sha, db)
    && DB.AuthorizeGrant(db, blob.encrypted.blobId, DB.Download, x.capability(blob.downloadSeed), now).Success?
  }

  lemma ReadableIsServed(x: Suite, blob: Prepared, db: DB.BlobDb, now: U64, k: nat)
    requires blob.Valid(x) && k <= |blob.encrypted.chunks| && Holds(blob, db) && Readable(x, blob, db, now)
    ensures DB.ExecuteTx(x.crypto.sha, db, Asking(x, blob, k), now).1.Success?
  {
    hide BI.Sound, DB.AuthorizeGrant, DB.GetManifestTx, DB.GetChunkTx, Parse, Prepared.Valid, ManifestBytes,
      DB.ChunkFits;
    var sha, b, cap := x.crypto.sha, blob.encrypted.blobId, x.capability(blob.downloadSeed);
    if k == 0 {
      G.ManifestIsServed(sha, db, b, cap, now);
    } else {
      ValidManifest(x, blob);
      ParseExact(db.objects[b], blob.encrypted.manifest);
      G.ChunkIsServed(sha, db, b, cap, k - 1, now);
    }
  }

  /** A state and a time. */
  datatype Moment = Moment(db: DB.BlobDb, now: U64)

  /** The k-th exchange is answered at this moment. */
  ghost predicate ServedAt(x: Suite, blob: Prepared, net: Network, k: nat, at: Moment)
    requires k <= |blob.encrypted.chunks| <= MAX_CHUNKS
  {
    var reply := net.reply(k, FrameAt(x, blob, net, k));
    reply.Some? && AnsweredFrom(x.crypto.sha, at.db, at.now, BlobJob(net.ids(k), Asking(x, blob, k)), reply.value)
  }

  /** Each exchange answered at a moment of its own, when the relay held the object and the download
      capability was live: the download gives what was sealed. */
  lemma DownloadOpens(x: Suite, blob: Prepared, net: Network, at: nat -> Moment)
    requires blob.Valid(x)
    requires forall k: nat :: k <= |blob.encrypted.chunks| ==>
               ServedAt(x, blob, net, k, at(k)) && Readable(x, blob, at(k).db, at(k).now) && Holds(blob, at(k).db)
    ensures var e := blob.encrypted;
            Downloaded(x, blob, net) == Success(Opened(x.crypto, e.key, e.blobId, e.manifest, e.chunks).value)
  {
    hide Downloaded, Opened, DB.ExecuteTx, Readable, Holds, ParseBlobResponse, Exchanged, FrameAt, BI.Keeps, Right,
      Asking;
    forall k: nat | k <= |blob.encrypted.chunks|
      ensures Right(x, blob, net, k) && Granted(x, blob, net, k)
    {
      var m, reply := at(k), net.reply(k, FrameAt(x, blob, net, k)).value;
      ReadableIsServed(x, blob, m.db, m.now, k);
      BI.KeepsItself(m.db);
      AnswerIsRight(x, blob, net, k, reply, m.db, m.now, m.db);
    }
    FaithfulDownload(x, blob, net);
  }

  // ----- downloading what was uploaded -----

  /** No stored chunk of the object is another byte string with the digest of the chunk prepared for its
      place. */
  ghost predicate Uncollided(x: Suite, blob: Prepared, db: DB.BlobDb) {
    var e := blob.encrypted;
    forall i: nat ::
      i < |e.chunks| && (e.blobId, i) in db.chunks
      && x.crypto.sha(db.chunks[(e.blobId, i)]) == x.crypto.sha(e.chunks[i]) ==>
        db.chunks[(e.blobId, i)] == e.chunks[i]
  }

  lemma PublishedIsHeld(t: UR.Setup, db: DB.BlobDb)
    requires t.Valid() && UR.Published(t, db) && Uncollided(t.x, t.blob, db)
    ensures Holds(t.blob, db)
  {
    hide ManifestBytes, Prepared.Valid, Genuine;
    ValidManifest(t.x, t.blob);
  }

  /** The grant of this upload is the first of its object: its commit published it. */
  ghost predicate PublishedBy(t: UR.Setup, db: DB.BlobDb) {
    exists g: nat :: BT.First(db.grants, g) && db.grants[g].id == t.blob.uploadId
      && db.grants[g].blob == t.blob.encrypted.blobId
  }

  /** What an upload itself published needs no property of the hash. */
  lemma OwnIsUncollided(t: UR.Setup, db: DB.BlobDb)
    requires t.Valid() && BT.Traced(db) && PublishedBy(t, db) && UR.Established(t, db, t.Count() + 2)
    ensures Uncollided(t.x, t.blob, db)
  {
    hide Prepared.Valid, Genuine, ManifestBytes;
    var e := t.blob.encrypted;
    var g: nat :| BT.First(db.grants, g) && db.grants[g].id == t.blob.uploadId && db.grants[g].blob == e.blobId;
    forall i: nat | i < |e.chunks| && (e.blobId, i) in db.chunks
      ensures db.chunks[(e.blobId, i)] == e.chunks[i]
    {
      assert BT.SourcedCell(db.staged, db.chunks, db.grants[g], i);
      assert UF.HasStaged(db, t.blob.uploadId, i, e.chunks[i]);
    }
  }

  /** The relay of the run answers the download: an OK response in the k-th exchange is one it gave to the
      bytes of that exchange by some world of the run. */
  ghost predicate Relayed(t: UR.Setup, ws: seq<UR.World>, net: Network, k: nat, m: nat)
    requires k <= t.Count() <= MAX_CHUNKS
  {
    && m < |ws|
    && var reply := net.reply(k, FrameAt(t.x, t.blob, net, k));
       reply.Some? ==> UR.Answers(ws[m].relay, FrameAt(t.x, t.blob, net, k), reply.value)
  }

  /** Bytes that decode and are the frame of an exchange make its call. */
  lemma FrameFixesJob(x: Suite, blob: Prepared, net: Network, k: nat, c: R.Call<BlobJob>)
    requires k <= |blob.encrypted.chunks| <= MAX_CHUNKS && UF.Decodes(c) && c.request == FrameAt(x, blob, net, k)
    ensures c.job == BlobJob(net.ids(k), Asking(x, blob, k))
  {
    hide BlobRequestBytes, BlobAuthenticatedBytes, ParseBlobRequest, Asking;
    var id, r := net.ids(k), Asking(x, blob, k);
    BlobRequestExact(c.request, DecodedBlob(FrameOf(x, blob.downloadSeed, id, r), BlobAuthenticatedBytes(id, r)));
  }

  /** An OK response of the relay tells what the tables held, and they held it ever after. */
  lemma RelayedIsRight(t: UR.Setup, s: R.System<DB.BlobDb, BlobJob>, net: Network, k: nat, reply: Bytes,
                       later: DB.BlobDb)
    requires t.Valid() && UR.RelaySound(t, s) && k <= t.Count() <= MAX_CHUNKS
    requires net.reply(k, FrameAt(t.x, t.blob, net, k)) == Some(reply) && UF.IsOk(reply)
    requires UR.Answers(s, FrameAt(t.x, t.blob, net, k), reply)
    requires BI.Keeps(s.store.db, later) && Holds(t.blob, later)
    ensures Right(t.x, t.blob, net, k)
  {
    hide R.ExactlyOnce, UF.Honest, UF.IsOk, DB.ExecuteTx, BI.Sound, BI.Keeps, Holds, ParseBlobResponse, Exchanged,
      FrameAt, Asking, Prepared.Valid, Genuine, BlobEngine, UF.Decodes;
    var sha := t.x.crypto.sha;
    var r :| r in s.replies && r.call.request == FrameAt(t.x, t.blob, net, k) && r.outcome == R.Respond(reply);
    UF.OkMeansTook(sha, s, r, reply);
    var db, now: U64 :| UF.Took(sha, s, r.call.job, reply, db, now);
    UF.ReplyDecodes(s, r);
    FrameFixesJob(t.x, t.blob, net, k, r.call);
    var ask := Asking(t.x, t.blob, k);
    ReadIsStored(sha, db, now, ask);
    BI.KeepsTransitive(db, s.store.db, later);
    AnswerIsRight(t.x, t.blob, net, k, reply, db, now, later);
  }

  /** The last state of a run that completed the upload. */
  lemma RunHolds(t: UR.Setup, ws: seq<UR.World>, acts: seq<UR.Act>, n: nat)
    requires t.Valid() && UR.Behaviour(t, ws, acts) && n < |ws| && ws[n].memory.Some?
             && ws[n].memory.value.stage.Complete?
    ensures var db := ws[|ws| - 1].relay.store.db;
            && UR.Established(t, db, t.Count() + 2) && UR.Published(t, db) && BT.Traced(db)
            && (PublishedBy(t, db) ==> Uncollided(t.x, t.blob, db))
  {
    hide UR.Behaviour, UR.Established, UR.Published, BT.Traced, UR.RelaySound, UR.ClientSound, PublishedBy, Uncollided,
      BI.Keeps, Prepared.Valid, Genuine;
    var m := |ws| - 1;
    var db := ws[m].relay.store.db;
    CompleteIsEstablished(t, ws, acts, n);
    UR.RunKeeps(t, ws, acts, n, m);
    UR.EstablishedStays(t, ws[n].relay.store.db, db, t.Count() + 2);
    UR.BehaviourSound(t, ws, acts, m);
    UR.EstablishedIsPublished(t, ws[m].relay);
    RelayTraced(t, ws[m].relay);
    if PublishedBy(t, db) {
      OwnIsUncollided(t, db);
    }
  }

  lemma CompleteIsEstablished(t: UR.Setup, ws: seq<UR.World>, acts: seq<UR.Act>, n: nat)
    requires t.Valid() && UR.Behaviour(t, ws, acts) && n < |ws| && ws[n].memory.Some?
             && ws[n].memory.value.stage.Complete?
    ensures UR.Established(t, ws[n].relay.store.db, t.Count() + 2)
  {
    hide UR.Behaviour, UR.Established, UR.RelaySound, UR.InOrder, UR.Follows, Storable, ToBytes, Prepared.Valid,
      Genuine;
    UR.BehaviourSound(t, ws, acts, n);
  }

  lemma RelayTraced(t: UR.Setup, s: R.System<DB.BlobDb, BlobJob>)
    requires UR.RelaySound(t, s)
    ensures BT.Traced(s.store.db)
  {
    hide BT.Traced, BlobEngine, UF.Honest, R.ExactlyOnce;
    UR.StoreIsAfter(BlobEngine(t.x.crypto.sha), DB.EMPTY, s);
    BT.AfterTraced(t.x.crypto.sha, s.effects);
  }

  /** Sealed, uploaded over any run to its end, and downloaded from the relay of that run, each exchange
      answered in a world of its own: the plaintext comes back if and only if every answer is OK, and
      otherwise the error is that of the failed exchange. If this upload's commit published the object,
      the last condition holds by itself. */
  lemma UploadThenDownload(t: UR.Setup, plaintext: Bytes, c: U32, key: Id, salt: Salt, noise: nat -> Byte,
                           ws: seq<UR.World>, acts: seq<UR.Act>, n: nat, net: Network, at: nat -> nat)
    requires t.Valid() && Lawful(t.x.crypto)
             && Sealed(t.x.crypto, plaintext, c, key, salt, noise) == Success(t.blob.encrypted)
    requires UR.Behaviour(t, ws, acts) && n < |ws| && ws[n].memory.Some? && ws[n].memory.value.stage.Complete?
    requires forall k: nat :: k <= t.Count() ==> Relayed(t, ws, net, k, at(k))
    requires var db := ws[|ws| - 1].relay.store.db; PublishedBy(t, db) || Uncollided(t.x, t.blob, db)
    ensures var r := Downloaded(t.x, t.blob, net);
            if AllGranted(t.x, t.blob, net, t.Count()) then r == Success(plaintext)
            else r.Failure? && r.error != ClientError.Crypto
  {
    hide UR.Behaviour, Sealed, Opened, Downloaded, PublishedBy, Uncollided, Lawful, Genuine, Prepared.Valid, Holds,
      UR.Published, UR.Established, BT.Traced, Right, Relayed, FrameAt;
    var db := ws[|ws| - 1].relay.store.db;
    ValidManifest(t.x, t.blob);
    RunHolds(t, ws, acts, n);
    PublishedIsHeld(t, db);
    forall k: nat | k <= t.Count() && Granted(t.x, t.blob, net, k) ensures Right(t.x, t.blob, net, k) {
      RelayedInRun(t, ws, acts, net, k, at(k));
    }
    FaithfulDownload(t.x, t.blob, net);
    OpenOfSeal(t.x.crypto, plaintext, c, key, salt, noise);
  }

  lemma RelayedInRun(t: UR.Setup, ws: seq<UR.World>, acts: seq<UR.Act>, net: Network, k: nat, m: nat)
    requires t.Valid() && UR.Behaviour(t, ws, acts) && k <= t.Count() <= MAX_CHUNKS
             && Holds(t.blob, ws[|ws| - 1].relay.store.db)
    requires Granted(t.x, t.blob, net, k) && Relayed(t, ws, net, k, m)
    ensures Right(t.x, t.blob, net, k)
  {
    hide UR.Behaviour, Genuine, Prepared.Valid, Holds, Right, FrameAt, UF.IsOk, UR.Answers, BI.Keeps, UR.Established,
      UR.ClientSound, UR.RelaySound;
    UR.BehaviourSound(t, ws, acts, m);
    UR.RunKeeps(t, ws, acts, m, |ws| - 1);
    RelayedIsRight(t, ws[m].relay, net, k, net.reply(k, FrameAt(t.x, t.blob, net, k)).value,
                   ws[|ws| - 1].relay.store.db);
  }
}
