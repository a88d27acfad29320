/** Blob profile frames: values, strict decoder, deterministic encoder, and their exactness. */
module BlobCodec {
  import opened Base
  import opened Cbor
  import opened Manifest
  import QC = QueueCodec

  const MAX_BLOB_FRAME_BYTES: nat := 1_049_600
  const MAX_CIPHERTEXT_BYTES: nat := MAX_CHUNK_BYTES + 16
  const AUTH_BYTES: nat := 68

  /** BEGIN_UPLOAD 1, PUT_CHUNK 2, COMMIT 3, GET_MANIFEST 4, GET_CHUNK 5, RENEW 6, DELETE 7. */
  type BlobCommand = n: int | 1 <= n <= 7 witness 1
  const BEGIN_UPLOAD: BlobCommand := 1
  const PUT_CHUNK: BlobCommand := 2
  const COMMIT: BlobCommand := 3
  const GET_MANIFEST: BlobCommand := 4
  const GET_CHUNK: BlobCommand := 5
  const RENEW: BlobCommand := 6
  const DELETE: BlobCommand := 7

  /** The registered status codes are 0 to 14 without a gap. */
  type BlobStatus = n: int | 0 <= n <= 14
  const BLOB_OK: BlobStatus := 0
  const BLOB_UNSUPPORTED_VERSION: BlobStatus := 1
  const BLOB_MALFORMED_FRAME: BlobStatus := 2
  const BLOB_FRAME_TOO_LARGE: BlobStatus := 3
  const BLOB_UNKNOWN_COMMAND: BlobStatus := 4
  const NOT_FOUND: BlobStatus := 5
  const BLOB_UNAUTHORIZED: BlobStatus := 6
  const ID_CONFLICT: BlobStatus := 7
  const BLOB_LIMIT_OUT_OF_RANGE: BlobStatus := 8
  const CHUNK_CONFLICT: BlobStatus := 9
  const INCOMPLETE: BlobStatus := 10
  const IDENTITY_MISMATCH: BlobStatus := 11
  const EXPIRED: BlobStatus := 12
  const BLOB_AUTH_INVALID: BlobStatus := 13
  const BLOB_AUTH_REPLAY: BlobStatus := 14

  datatype Capabilities = Capabilities(upload: Id, download: Id, renew: Id, delete: Id)

  datatype BlobRequest =
    | BeginUpload(uploadId: Id, capabilities: Capabilities, manifest: Manifest, ttl: U64)
    | PutChunk(uploadId: Id, uploadCap: Id, index: U32, ciphertext: Bytes)
    | Commit(uploadId: Id, uploadCap: Id, blobId: Id)
    | GetManifest(blobId: Id, downloadCap: Id)
    | GetChunk(blobId: Id, downloadCap: Id, index: U32)
    | Renew(blobId: Id, renewCap: Id, ttl: U64)
    | Delete(blobId: Id, deleteCap: Id)
  {
    function Command(): BlobCommand {
      match this
      case BeginUpload(_, _, _, _) => BEGIN_UPLOAD
      case PutChunk(_, _, _, _) => PUT_CHUNK
      case Commit(_, _, _) => COMMIT
      case GetManifest(_, _) => GET_MANIFEST
      case GetChunk(_, _, _) => GET_CHUNK
      case Renew(_, _, _) => RENEW
      case Delete(_, _) => DELETE
    }

    /** The capability that must have signed the request. */
    function Capability(): Id {
      match this
      case BeginUpload(_, c, _, _) => c.upload
      case PutChunk(_, c, _, _) => c
      case Commit(_, c, _) => c
      case GetManifest(_, c) => c
      case GetChunk(_, c, _) => c
      case Renew(_, c, _) => c
      case Delete(_, c) => c
    }

    /** What every constructed request satisfies: manifests are only made by parsing. */
    predicate Encodable() {
      match this
      case BeginUpload(_, _, m, _) => m.Valid()
      case PutChunk(_, _, _, c) => |c| < U64_LIMIT
      case _ => true
    }

    /** Within the profile limits, which only the decoder enforces. */
    predicate Valid() {
      && Encodable()
      && match this {
           case BeginUpload(_, _, _, ttl) => ttl > 0
           case PutChunk(_, _, _, c) => |c| <= MAX_CIPHERTEXT_BYTES
           case Renew(_, _, ttl) => ttl > 0
           case _ => true
         }
    }
  }

  datatype BlobFrame = BlobFrame(requestId: RequestId, request: BlobRequest, auth: Bytes) {
    predicate Encodable() {
      request.Encodable() && |auth| < U64_LIMIT
    }
    predicate Valid() {
      request.Valid() && |auth| == AUTH_BYTES
    }
  }

  datatype DecodedBlob = DecodedBlob(frame: BlobFrame, authenticated: Bytes)

  datatype BlobBody =
    | Begun(duplicate: bool)
    | ChunkPut(duplicate: bool)
    | Committed(expiresAt: U64)
    | ManifestGot(manifest: Manifest, expiresAt: U64)
    | ChunkGot(chunk: Bytes, expiresAt: U64)
    | Renewed(expiresAt: U64)
    | Deleted
  {
    function Command(): BlobCommand {
      match this
      case Begun(_) => BEGIN_UPLOAD
      case ChunkPut(_) => PUT_CHUNK
      case Committed(_) => COMMIT
      case ManifestGot(_, _) => GET_MANIFEST
      case ChunkGot(_, _) => GET_CHUNK
      case Renewed(_) => RENEW
      case Deleted => DELETE
    }

    predicate Encodable() {
      match this
      case ManifestGot(m, _) => m.Valid()
      case ChunkGot(c, _) => |c| < U64_LIMIT
      case _ => true
    }

    predicate Valid() {
      Encodable() && (ChunkGot? ==> |chunk| <= MAX_CIPHERTEXT_BYTES)
    }
  }

  datatype BlobResponse = BlobResponse(command: Option<BlobCommand>, status: BlobStatus, body: Option<BlobBody>) {
    predicate Encodable() {
      body.Some? ==> body.value.Encodable()
    }

    /** A success carries the body of its command; any other status carries none. */
    predicate Valid() {
      if status == BLOB_OK then body.Some? && body.value.Valid() && command == Some(body.value.Command())
      else body.None?
    }

    function CommandCode(): U64 {
      match command case None => 0 case Some(c) => c
    }
  }

  function Fulfilled(body: BlobBody): BlobResponse {
    BlobResponse(Some(body.Command()), BLOB_OK, Some(body))
  }

  function Declined(command: Option<BlobCommand>, status: BlobStatus): BlobResponse {
    BlobResponse(command, status, None)
  }

  datatype BlobReply = BlobReply(requestId: RequestId, response: BlobResponse)

  // ----- encoding -----

  function PutGrant(u: Id, c: Capabilities, tail: Bytes): Bytes {
    PutBytes(u, PutBytes(c.upload, PutBytes(c.download, PutBytes(c.renew, PutBytes(c.delete, tail)))))
  }

  function PutBlobBody(r: BlobRequest, tail: Bytes): Bytes
    requires r.Encodable()
  {
    match r
    case BeginUpload(u, c, m, ttl) =>
      PutArray(7, PutGrant(u, c, PutBytes(ManifestBytes(m), PutUnsigned(ttl, tail))))
    case PutChunk(u, c, i, x) => PutArray(4, PutBytes(u, PutBytes(c, PutUnsigned(i, PutBytes(x, tail)))))
    case Commit(u, c, b) => PutArray(3, PutBytes(u, PutBytes(c, PutBytes(b, tail))))
    case GetManifest(b, c) => PutArray(2, PutBytes(b, PutBytes(c, tail)))
    case GetChunk(b, c, i) => PutArray(3, PutBytes(b, PutBytes(c, PutUnsigned(i, tail))))
    case Renew(b, c, ttl) => PutArray(3, PutBytes(b, PutBytes(c, PutUnsigned(ttl, tail))))
    case Delete(b, c) => PutArray(2, PutBytes(b, PutBytes(c, tail)))
  }

  function PutBlobPayload(r: BlobRequest, tail: Bytes): Bytes
    requires r.Encodable()
  {
    PutArray(3, PutUnsigned(0, PutUnsigned(r.Command(), PutBlobBody(r, tail))))
  }

  function BlobAuthenticatedBytes(id: RequestId, r: BlobRequest): Bytes
    requires r.Encodable()
  {
    QC.PutPreamble(id, PutBlobPayload(r, []))
  }

  function BlobRequestBytes(f: BlobFrame): Bytes
    requires f.Encodable()
  {
    QC.PutPreamble(f.requestId, PutBlobPayload(f.request, PutBytes(f.auth, [])))
  }

  function PutReplyBody(body: BlobBody, tail: Bytes): Bytes
    requires body.Encodable()
  {
    match body
    case Begun(d) => PutArray(1, PutUnsigned(QC.Flag(d), tail))
    case ChunkPut(d) => PutArray(1, PutUnsigned(QC.Flag(d), tail))
    case Committed(t) => PutArray(1, PutUnsigned(t, tail))
    case ManifestGot(m, t) => PutArray(2, PutBytes(ManifestBytes(m), PutUnsigned(t, tail)))
    case ChunkGot(c, t) => PutArray(2, PutBytes(c, PutUnsigned(t, tail)))
    case Renewed(t) => PutArray(1, PutUnsigned(t, tail))
    case Deleted => PutArray(0, tail)
  }

  function PutReplyPayload(r: BlobResponse, tail: Bytes): Bytes
    requires r.Encodable()
  {
    PutArray(4, PutUnsigned(1, PutUnsigned(r.CommandCode(), PutUnsigned(r.status,
      if r.body.Some? && r.status == BLOB_OK then PutReplyBody(r.body.value, tail) else PutArray(0, tail)))))
  }

  function BlobResponseBytes(f: BlobReply): Bytes
    requires f.response.Encodable()
  {
    QC.PutPreamble(f.requestId, PutReplyPayload(f.response, []))
  }

  // ----- parsing -----

  function CommandOf(n: U64, rest: Bytes): Parsed<BlobCommand> {
    if n == 0 || n > 7 then Fail(UnknownBlobCommand) else Ok(n, rest)
  }

  function ParseManifest(b: Bytes): (p: Parsed<Manifest>)
    ensures p.Ok? ==> p.value.Valid() && b == PutBytes(ManifestBytes(p.value), p.rest)
    ensures p.Ordinary()
  {
    var (s, rest) :- ParseBytes(b, MAX_MANIFEST_BYTES);
    match Parse(s)
    case Failure(_) => Fail(InvalidValue)
    case Success(m) => ParseExact(s, m); Ok(m, rest)
  }

  function ParseTtl(b: Bytes): (p: Parsed<U64>)
    ensures p.Ok? ==> p.value > 0 && b == PutUnsigned(p.value, p.rest)
    ensures p.Ordinary()
  {
    var (t, rest) :- ParseUnsigned(b);
    if t == 0 then Fail(InvalidValue) else Ok(t, rest)
  }

  function ParseIndex(b: Bytes): (p: Parsed<U32>)
    ensures p.Ok? ==> b == PutUnsigned(p.value, p.rest)
    ensures p.Ordinary()
  {
    var (i, rest) :- ParseUnsigned(b);
    if i >= U32_LIMIT then Fail(InvalidValue) else Ok(i, rest)
  }

  /** The upload identifier followed by the four capabilities of a BEGIN_UPLOAD body. */
  function ParseGrant(b: Bytes): (p: Parsed<(Id, Capabilities)>)
    ensures p.Ok? ==> b == PutGrant(p.value.0, p.value.1, p.rest)
    ensures p.Ordinary()
  {
    var (u, b1) :- ParseId(b);
    var (c1, b2) :- ParseId(b1);
    var (c2, b3) :- ParseId(b2);
    var (c3, b4) :- ParseId(b3);
    var (c4, b5) :- ParseId(b4);
    Ok((u, Capabilities(c1, c2, c3, c4)), b5)
  }

  function ParseBegin(b: Bytes): (p: Parsed<BlobRequest>)
    ensures p.Ok? ==> p.value.Valid() && p.value.BeginUpload? && b == PutBlobBody(p.value, p.rest)
    ensures p.Ordinary()
  {
    var (_, b1) :- ParseArray(b, 7);
    var (g, b2) :- ParseGrant(b1);
    var (m, b3) :- ParseManifest(b2);
    var (ttl, b4) :- ParseTtl(b3);
    Ok(BeginUpload(g.0, g.1, m, ttl), b4)
  }

  function ParsePutChunk(b: Bytes): (p: Parsed<BlobRequest>)
    ensures p.Ok? ==> p.value.Valid() && p.value.PutChunk? && b == PutBlobBody(p.value, p.rest)
    ensures p.Ordinary()
  {
    var (_, b1) :- ParseArray(b, 4);
    var (u, b2) :- ParseId(b1);
    var (c, b3) :- ParseId(b2);
    var (i, b4) :- ParseIndex(b3);
    var (x, b5) :- ParseBytes(b4, MAX_CIPHERTEXT_BYTES);
    Ok(PutChunk(u, c, i, x), b5)
  }

  function ParseCommit(b: Bytes): (p: Parsed<BlobRequest>)
    ensures p.Ok? ==> p.value.Valid() && p.value.Commit? && b == PutBlobBody(p.value, p.rest)
    ensures p.Ordinary()
  {
    var (_, b1) :- ParseArray(b, 3);
    var (u, b2) :- ParseId(b1);
    var (c, b3) :- ParseId(b2);
    var (i, b4) :- ParseId(b3);
    Ok(Commit(u, c, i), b4)
  }

  function ParseGetManifest(b: Bytes): (p: Parsed<BlobRequest>)
    ensures p.Ok? ==> p.value.Valid() && p.value.GetManifest? && b == PutBlobBody(p.value, p.rest)
    ensures p.Ordinary()
  {
    var (_, b1) :- ParseArray(b, 2);
    var (i, b2) :- ParseId(b1);
    var (c, b3) :- ParseId(b2);
    Ok(GetManifest(i, c), b3)
  }

  function ParseGetChunk(b: Bytes): (p: Parsed<BlobRequest>)
    ensures p.Ok? ==> p.value.Valid() && p.value.GetChunk? && b == PutBlobBody(p.value, p.rest)
    ensures p.Ordinary()
  {
    var (_, b1) :- ParseArray(b, 3);
    var (i, b2) :- ParseId(b1);
    var (c, b3) :- ParseId(b2);
    var (n, b4) :- ParseIndex(b3);
    Ok(GetChunk(i, c, n), b4)
  }

  function ParseRenew(b: Bytes): (p: Parsed<BlobRequest>)
    ensures p.Ok? ==> p.value.Valid() && p.value.Renew? && b == PutBlobBody(p.value, p.rest)
    ensures p.Ordinary()
  {
    var (_, b1) :- ParseArray(b, 3);
    var (i, b2) :- ParseId(b1);
    var (c, b3) :- ParseId(b2);
    var (ttl, b4) :- ParseTtl(b3);
    Ok(Renew(i, c, ttl), b4)
  }

  function ParseDelete(b: Bytes): (p: Parsed<BlobRequest>)
    ensures p.Ok? ==> p.value.Valid() && p.value.Delete? && b == PutBlobBody(p.value, p.rest)
    ensures p.Ordinary()
  {
    var (_, b1) :- ParseArray(b, 2);
    var (i, b2) :- ParseId(b1);
    var (c, b3) :- ParseId(b2);
    Ok(Delete(i, c), b3)
  }

  function ParseBlobBody(b: Bytes, command: BlobCommand): (p: Parsed<BlobRequest>)
    ensures p.Ok? ==> p.value.Valid() && p.value.Command() == command && b == PutBlobBody(p.value, p.rest)
    ensures p.Ordinary()
  {
    if command == BEGIN_UPLOAD then ParseBegin(b)
    else if command == PUT_CHUNK then ParsePutChunk(b)
    else if command == COMMIT then ParseCommit(b)
    else if command == GET_MANIFEST then ParseGetManifest(b)
    else if command == GET_CHUNK then ParseGetChunk(b)
    else if command == RENEW then ParseRenew(b)
    else ParseDelete(b)
  }

  function ParseBlobPayload(b: Bytes): (p: Parsed<BlobRequest>)
    ensures p.Ok? ==> p.value.Valid() && b == PutBlobPayload(p.value, p.rest)
    ensures p.Fail? ==> p == Fail(UnknownBlobCommand) || p.Ordinary()
  {
    var (_, b1) :- ParseArray(b, 3);
    var (_, b2) :- ParseExpected(b1, 0);
    var (n, b3) :- ParseUnsigned(b2);
    var (c, _) :- CommandOf(n, b3);
    ParseBlobBody(b3, c)
  }

  /** A payload that opens as a request with a command number that is not assigned. */
  predicate Unassigned(b: Bytes, n: U64, rest: Bytes) {
    (n == 0 || n > 7) && b == PutArray(3, PutUnsigned(0, PutUnsigned(n, rest)))
  }

  /** A command is unknown exactly when its number, in an otherwise well-formed head, is not assigned. */
  lemma UnknownCommandExactly(b: Bytes)
    ensures ParseBlobPayload(b) == Fail(UnknownBlobCommand) <==> exists n: U64, rest: Bytes :: Unassigned(b, n, rest)
  {
    hide PutArray, PutUnsigned, ParseArray, ParseExpected, ParseUnsigned, ParseBlobBody;
    if ParseBlobPayload(b) == Fail(UnknownBlobCommand) {
      var (_, b1) := ParseArray(b, 3).Extract();
      var (_, b2) := ParseExpected(b1, 0).Extract();
      var (n, b3) := ParseUnsigned(b2).Extract();
      assert Unassigned(b, n, b3);
    }
    forall n: U64, rest: Bytes | Unassigned(b, n, rest) ensures ParseBlobPayload(b) == Fail(UnknownBlobCommand) {
      HeadRoundTrip(n, rest);
    }
  }

  lemma HeadRoundTrip(n: U64, rest: Bytes)
    ensures ParseArray(PutArray(3, PutUnsigned(0, PutUnsigned(n, rest))), 3)
            == Ok((), PutUnsigned(0, PutUnsigned(n, rest)))
    ensures ParseExpected(PutUnsigned(0, PutUnsigned(n, rest)), 0) == Ok((), PutUnsigned(n, rest))
    ensures ParseUnsigned(PutUnsigned(n, rest)) == Ok(n, rest)
  {
    hide PutArray, PutUnsigned, ParseUnsigned, ParseArrayLength;
    ItemsRoundTrip();
  }

  function ParseBlobRequest(bytes: Bytes): Result<DecodedBlob, DecodeError> {
    match QC.ParsePreamble(bytes, MAX_BLOB_FRAME_BYTES)
    case Fail(e) => Failure(e)
    case Ok(id, b) =>
      match ParseBlobPayload(b)
      case Fail(e) => Failure(e)
      case Ok(request, rest) =>
        match ParseBytes(rest, AUTH_BYTES)
        case Fail(e) => Failure(e)
        case Ok(auth, left) =>
          if |auth| != AUTH_BYTES then Failure(WrongByteStringLength)
          else if left != [] then Failure(TrailingBytes)
          else
            PutPrepends(id, request, rest);
            Success(DecodedBlob(BlobFrame(id, request, auth), bytes[..|bytes| - |rest|]))
  }

  function ParseOutcome(b: Bytes): (p: Parsed<bool>)
    ensures p.Ok? ==> b == PutUnsigned(QC.Flag(p.value), p.rest)
  {
    var (n, rest) :- ParseUnsigned(b);
    if n > 1 then Fail(InvalidValue) else Ok(n == 1, rest)
  }

  /** The bodies that are a single flag: BEGIN_UPLOAD and PUT_CHUNK. */
  function ParseFlagBody(b: Bytes): (p: Parsed<bool>)
    ensures p.Ok? ==> b == PutArray(1, PutUnsigned(QC.Flag(p.value), p.rest))
  {
    var (_, b1) :- ParseArray(b, 1);
    ParseOutcome(b1)
  }

  /** The bodies that are a single expiry: COMMIT and RENEW. */
  function ParseExpiryBody(b: Bytes): (p: Parsed<U64>)
    ensures p.Ok? ==> b == PutArray(1, PutUnsigned(p.value, p.rest))
  {
    var (_, b1) :- ParseArray(b, 1);
    ParseUnsigned(b1)
  }

  function ParseManifestBody(b: Bytes): (p: Parsed<BlobBody>)
    ensures p.Ok? ==> p.value.Valid() && p.value.ManifestGot? && b == PutReplyBody(p.value, p.rest)
  {
    var (_, b1) :- ParseArray(b, 2);
    var (m, b2) :- ParseManifest(b1);
    var (t, b3) :- ParseUnsigned(b2);
    Ok(ManifestGot(m, t), b3)
  }

  function ParseChunkBody(b: Bytes): (p: Parsed<BlobBody>)
    ensures p.Ok? ==> p.value.Valid() && p.value.ChunkGot? && b == PutReplyBody(p.value, p.rest)
  {
    var (_, b1) :- ParseArray(b, 2);
    var (c, b2) :- ParseBytes(b1, MAX_CIPHERTEXT_BYTES);
    var (t, b3) :- ParseUnsigned(b2);
    Ok(ChunkGot(c, t), b3)
  }

  function ParseReplyBody(b: Bytes, command: BlobCommand): (p: Parsed<BlobBody>)
    ensures p.Ok? ==> p.value.Valid() && p.value.Command() == command && b == PutReplyBody(p.value, p.rest)
  {
    if command == GET_MANIFEST then ParseManifestBody(b)
    else if command == GET_CHUNK then ParseChunkBody(b)
    else if command == BEGIN_UPLOAD then
      var (d, rest) :- ParseFlagBody(b);
      Ok(Begun(d), rest)
    else if command == PUT_CHUNK then
      var (d, rest) :- ParseFlagBody(b);
      Ok(ChunkPut(d), rest)
    else if command == COMMIT then
      var (t, rest) :- ParseExpiryBody(b);
      Ok(Committed(t), rest)
    else if command == RENEW then
      var (t, rest) :- ParseExpiryBody(b);
      Ok(Renewed(t), rest)
    else
      var (_, rest) :- ParseArray(b, 0);
      Ok(Deleted, rest)
  }

  function ParseBlobStatus(b: Bytes): (p: Parsed<BlobStatus>)
    ensures p.Ok? ==> b == PutUnsigned(p.value, p.rest)
  {
    var (n, rest) :- ParseUnsigned(b);
    if n > 14 then Fail(InvalidValue) else Ok(n, rest)
  }

  function ParseReplyPayload(b: Bytes): (p: Parsed<BlobResponse>)
    ensures p.Ok? ==> p.value.Valid() && b == PutReplyPayload(p.value, p.rest)
  {
    var (_, b1) :- ParseArray(b, 4);
    var (_, b2) :- ParseExpected(b1, 1);
    var (n, b3) :- ParseUnsigned(b2);
    if n > 7 then Fail(UnknownBlobCommand)
    else
      var (status, b4) :- ParseBlobStatus(b3);
      if status == BLOB_OK then
        if n == 0 then Fail(InvalidValue)
        else
          var (body, b5) :- ParseReplyBody(b4, n);
          Ok(Fulfilled(body), b5)
      else
        var (_, b5) :- ParseArray(b4, 0);
        Ok(Declined(if n == 0 then None else Some(n), status), b5)
  }

  function ParseBlobResponse(bytes: Bytes): Result<BlobReply, DecodeError> {
    match QC.ParsePreamble(bytes, MAX_BLOB_FRAME_BYTES)
    case Fail(e) => Failure(e)
    case Ok(id, b) =>
      match ParseReplyPayload(b)
      case Fail(e) => Failure(e)
      case Ok(response, left) => if left != [] then Failure(TrailingBytes) else Success(BlobReply(id, response))
  }

  // ----- the codec is exact -----

  lemma ParseOfPutManifest(m: Manifest, tail: Bytes)
    requires m.Valid()
    ensures ParseManifest(PutBytes(ManifestBytes(m), tail)) == Ok(m, tail)
  {
    hide Parse, PutBytes, ParseBytes;
    ParseExact(ManifestBytes(m), m);
    ParseOfPutBytes(ManifestBytes(m), tail, MAX_MANIFEST_BYTES);
  }

  lemma ParseOfPutBlobBody(r: BlobRequest, tail: Bytes)
    requires r.Valid()
    ensures ParseBlobBody(PutBlobBody(r, tail), r.Command()) == Ok(r, tail)
  {
    hide PutArgument, ParseArgument, PutUnsigned, PutArray, PutBytes, ParseUnsigned, ParseArrayLength, ParseBytes,
      ParseId;
    hide ManifestBytes, ParseManifest;
    ItemsRoundTrip();
    if r.BeginUpload? {
      ParseOfPutManifest(r.manifest, PutUnsigned(r.ttl, tail));
    }
  }

  lemma ParseOfPutBlobPayload(r: BlobRequest, tail: Bytes)
    requires r.Valid()
    ensures ParseBlobPayload(PutBlobPayload(r, tail)) == Ok(r, tail)
  {
    hide PutUnsigned, PutArray, ParseUnsigned, ParseArrayLength, PutBlobBody, ParseBlobBody;
    ItemsRoundTrip();
    ParseOfPutBlobBody(r, tail);
  }

  lemma PutBlobPayloadPrepends(r: BlobRequest, t: Bytes, u: Bytes)
    requires r.Encodable()
    ensures PutBlobPayload(r, t + u) == PutBlobPayload(r, t) + u
  {
    hide PutUnsigned, PutArray, PutBytes, ManifestBytes;
    ItemsPrepend();
    assert PutBlobBody(r, t + u) == PutBlobBody(r, t) + u;
  }

  lemma PutPrepends(id: RequestId, r: BlobRequest, tail: Bytes)
    requires r.Encodable()
    ensures QC.PutPreamble(id, PutBlobPayload(r, tail)) == BlobAuthenticatedBytes(id, r) + tail
  {
    hide PutBlobPayload;
    assert [] + tail == tail;
    PutBlobPayloadPrepends(r, [], tail);
    QC.PutPreamblePrepends(id, PutBlobPayload(r, []), tail);
  }

  /** Every request with a chunk within the profile limits fits a frame, whatever its ttl, and so can be
      kept as a pending frame. */
  lemma BlobRequestFits(f: BlobFrame)
    requires f.Encodable() && |f.auth| == AUTH_BYTES
    requires f.request.PutChunk? ==> |f.request.ciphertext| <= MAX_CIPHERTEXT_BYTES
    ensures 0 < |BlobRequestBytes(f)| <= MAX_BLOB_FRAME_BYTES
  {
    hide ManifestBytes;
    var r := f.request;
    assert |PutBytes(f.auth, [])| == 70;
    assert |PutBlobBody(r, PutBytes(f.auth, []))| <= 70 + 1 + 5 * 34 + 5 + MAX_MANIFEST_BYTES + 9;
  }

  lemma BlobResponseFits(f: BlobReply)
    requires f.response.Valid()
    ensures |BlobResponseBytes(f)| <= MAX_BLOB_FRAME_BYTES
  {
    hide ManifestBytes;
    if f.response.status == BLOB_OK {
      assert |PutReplyBody(f.response.body.value, [])| <= 1 + 5 + MAX_MANIFEST_BYTES + 9;
    }
  }

  /** Accepted bytes are the encoding of the frame returned, every valid frame is accepted from its
      encoding, and the authenticated bytes handed out are the ones the encoder signs. */
  lemma BlobRequestExact(bytes: Bytes, d: DecodedBlob)
    ensures ParseBlobRequest(bytes) == Success(d) <==>
              && d.frame.Valid()
              && bytes == BlobRequestBytes(d.frame)
              && d.authenticated == BlobAuthenticatedBytes(d.frame.requestId, d.frame.request)
  {
    hide PutBlobPayload, ParseBlobPayload, QC.PutPreamble, QC.ParsePreamble, PutBytes, ParseBytes;
    if ParseBlobRequest(bytes) == Success(d) {
      var (id, b) := QC.ParsePreamble(bytes, MAX_BLOB_FRAME_BYTES).Extract();
      var (request, rest) := ParseBlobPayload(b).Extract();
      PutPrepends(id, request, rest);
    }
    var f := d.frame;
    if f.Valid() && bytes == BlobRequestBytes(f) {
      var rest := PutBytes(f.auth, []);
      BlobRequestFits(f);
      QC.ParseOfPutPreamble(f.requestId, PutBlobPayload(f.request, rest), MAX_BLOB_FRAME_BYTES);
      ParseOfPutBlobPayload(f.request, rest);
      ParseOfPutBytes(f.auth, [], AUTH_BYTES);
      PutPrepends(f.requestId, f.request, rest);
    }
  }

  /** An upload offered for no time is not a frame. */
  lemma ZeroTtlIsRefused(f: BlobFrame)
    requires f.Encodable() && |f.auth| == AUTH_BYTES && f.request.BeginUpload? && f.request.ttl == 0
    ensures ParseBlobRequest(BlobRequestBytes(f)).Failure?
  {
    hide QC.PutPreamble, QC.ParsePreamble, PutBlobBody, ParseBlobBody, PutUnsigned, PutArray, ParseUnsigned,
      ParseArrayLength, PutBytes;
    var rest := PutBytes(f.auth, []);
    BlobRequestFits(f);
    QC.ParseOfPutPreamble(f.requestId, PutBlobPayload(f.request, rest), MAX_BLOB_FRAME_BYTES);
    ItemsRoundTrip();
    ZeroTtlBody(f.request, rest);
  }

  lemma ZeroTtlBody(r: BlobRequest, tail: Bytes)
    requires r.Encodable() && r.BeginUpload? && r.ttl == 0
    ensures ParseBlobBody(PutBlobBody(r, tail), BEGIN_UPLOAD).Fail?
  {
    hide PutArgument, ParseArgument, PutUnsigned, PutArray, PutBytes, ParseUnsigned, ParseArrayLength, ParseBytes,
      ParseId;
    hide ManifestBytes, ParseManifest;
    ItemsRoundTrip();
    ParseOfPutManifest(r.manifest, PutUnsigned(r.ttl, tail));
  }

  lemma ParseOfPutReplyBody(body: BlobBody, tail: Bytes)
    requires body.Valid()
    ensures ParseReplyBody(PutReplyBody(body, tail), body.Command()) == Ok(body, tail)
  {
    hide PutArgument, ParseArgument, PutUnsigned, PutArray, PutBytes, ParseUnsigned, ParseArrayLength, ParseBytes,
      ParseId;
    hide ManifestBytes, ParseManifest;
    ItemsRoundTrip();
    if body.ManifestGot? {
      ParseOfPutManifest(body.manifest, PutUnsigned(body.expiresAt, tail));
    }
  }

  lemma ParseOfPutReplyPayload(r: BlobResponse, tail: Bytes)
    requires r.Valid()
    ensures ParseReplyPayload(PutReplyPayload(r, tail)) == Ok(r, tail)
  {
    hide PutUnsigned, PutArray, ParseUnsigned, ParseArrayLength, PutReplyBody, ParseReplyBody;
    ItemsRoundTrip();
    if r.status == BLOB_OK {
      ParseOfPutReplyBody(r.body.value, tail);
    } else {
      assert ParseArray(PutArray(0, tail), 0) == Ok((), tail);
    }
  }

  lemma BlobResponseExact(bytes: Bytes, f: BlobReply)
    ensures ParseBlobResponse(bytes) == Success(f) <==> f.response.Valid() && bytes == BlobResponseBytes(f)
  {
    hide PutReplyPayload, ParseReplyPayload, QC.PutPreamble, QC.ParsePreamble;
    if f.response.Valid() && bytes == BlobResponseBytes(f) {
      BlobResponseFits(f);
      QC.ParseOfPutPreamble(f.requestId, PutReplyPayload(f.response, []), MAX_BLOB_FRAME_BYTES);
      ParseOfPutReplyPayload(f.response, []);
    }
  }

  /** Extending a byte string extends what the payload parser leaves, and nothing else. */
  lemma BlobPayloadIsLocal(b: Bytes, more: Bytes)
    requires ParseBlobPayload(b).Ok?
    ensures ParseBlobPayload(b + more) == Ok(ParseBlobPayload(b).value, ParseBlobPayload(b).rest + more)
  {
    hide PutBlobPayload, ParseBlobPayload;
    var p := ParseBlobPayload(b);
    PutBlobPayloadPrepends(p.value, p.rest, more);
    ParseOfPutBlobPayload(p.value, p.rest + more);
  }

  lemma TooLargeBlobIsRefused(bytes: Bytes)
    requires |bytes| > MAX_BLOB_FRAME_BYTES
    ensures ParseBlobRequest(bytes) == Failure(FrameTooLarge) && ParseBlobResponse(bytes) == Failure(FrameTooLarge)
  {
  }

  /** Nothing can be appended to a frame or cut off from one. */
  lemma BlobRequestPrefixFree(bytes: Bytes, extra: Bytes)
    requires ParseBlobRequest(bytes).Success? && extra != []
    ensures ParseBlobRequest(bytes + extra)
            == Failure(if |bytes + extra| > MAX_BLOB_FRAME_BYTES then FrameTooLarge else TrailingBytes)
  {
    hide PutBlobPayload, ParseBlobPayload, QC.PutPreamble, QC.ParsePreamble, PutBytes, ParseBytes;
    var d := ParseBlobRequest(bytes).value;
    BlobRequestExact(bytes, d);
    var f := d.frame;
    assert [] + extra == extra;
    ItemsPrepend();
    assert PutBytes(f.auth, [] + extra) == PutBytes(f.auth, []) + extra;
    var rest := PutBytes(f.auth, extra);
    PutBlobPayloadPrepends(f.request, PutBytes(f.auth, []), extra);
    QC.PutPreamblePrepends(f.requestId, PutBlobPayload(f.request, PutBytes(f.auth, [])), extra);
    if |bytes + extra| > MAX_BLOB_FRAME_BYTES {
      TooLargeBlobIsRefused(bytes + extra);
    } else {
      QC.PreambleLength(f.requestId, PutBlobPayload(f.request, rest));
      QC.ParseOfPutPreamble(f.requestId, PutBlobPayload(f.request, rest), MAX_BLOB_FRAME_BYTES);
      ParseOfPutBlobPayload(f.request, rest);
      ParseOfPutBytes(f.auth, extra, AUTH_BYTES);
    }
  }

  lemma PutReplyPayloadPrepends(r: BlobResponse, t: Bytes, u: Bytes)
    requires r.Encodable()
    ensures PutReplyPayload(r, t + u) == PutReplyPayload(r, t) + u
  {
    hide PutUnsigned, PutArray, PutBytes, ManifestBytes;
    ItemsPrepend();
    if r.body.Some? {
      assert PutReplyBody(r.body.value, t + u) == PutReplyBody(r.body.value, t) + u;
    }
  }

  lemma BlobResponsePrefixFree(bytes: Bytes, extra: Bytes)
    requires ParseBlobResponse(bytes).Success? && extra != []
    ensures ParseBlobResponse(bytes + extra)
            == Failure(if |bytes + extra| > MAX_BLOB_FRAME_BYTES then FrameTooLarge else TrailingBytes)
  {
    hide PutReplyPayload, ParseReplyPayload, QC.PutPreamble, QC.ParsePreamble;
    var f := ParseBlobResponse(bytes).value;
    BlobResponseExact(bytes, f);
    assert [] + extra == extra;
    PutReplyPayloadPrepends(f.response, [], extra);
    QC.PutPreamblePrepends(f.requestId, PutReplyPayload(f.response, []), extra);
    if |bytes + extra| > MAX_BLOB_FRAME_BYTES {
      TooLargeBlobIsRefused(bytes + extra);
    } else {
      QC.PreambleLength(f.requestId, PutReplyPayload(f.response, extra));
      QC.ParseOfPutPreamble(f.requestId, PutReplyPayload(f.response, extra), MAX_BLOB_FRAME_BYTES);
      ParseOfPutReplyPayload(f.response, extra);
    }
  }

  // ----- the imperative decoder and encoder -----

  method DecodeTtl(decoder: Decoder) returns (r: Result<U64, DecodeError>)
    requires decoder.Valid()
    modifies decoder
    ensures decoder.Valid() && decoder.Reads(ParseTtl(old(decoder.Rest())), r)
  {
    var ttl :- decoder.Unsigned();
    if ttl == 0 {
      return Failure(InvalidValue);
    }
    return Success(ttl);
  }

  method DecodeIndex(decoder: Decoder) returns (r: Result<U32, DecodeError>)
    requires decoder.Valid()
    modifies decoder
    ensures decoder.Valid() && decoder.Reads(ParseIndex(old(decoder.Rest())), r)
  {
    var index :- decoder.Unsigned();
    if index >= U32_LIMIT {
      return Failure(InvalidValue);
    }
    return Success(index);
  }

  method DecodeManifest(decoder: Decoder) returns (r: Result<Manifest, DecodeError>)
    requires decoder.Valid()
    modifies decoder
    ensures decoder.Valid() && decoder.Reads(ParseManifest(old(decoder.Rest())), r)
  {
    hide ParseBytes, PutBytes, Parse, ManifestBytes;
    var bytes :- decoder.ByteString(MAX_MANIFEST_BYTES);
    match Parse(bytes)
    case Failure(_) => return Failure(InvalidValue);
    case Success(manifest) => return Success(manifest);
  }

  method DecodeGrant(decoder: Decoder) returns (r: Result<(Id, Capabilities), DecodeError>)
    requires decoder.Valid()
    modifies decoder
    ensures decoder.Valid() && decoder.Reads(ParseGrant(old(decoder.Rest())), r)
  {
    hide ParseId, PutBytes, PutGrant;
    var uploadId :- decoder.FixedId();
    var upload :- decoder.FixedId();
    var download :- decoder.FixedId();
    var renew :- decoder.FixedId();
    var delete :- decoder.FixedId();
    return Success((uploadId, Capabilities(upload, download, renew, delete)));
  }

  method DecodeBlobRequestBody(decoder: Decoder, command: BlobCommand) returns (r: Result<BlobRequest, DecodeError>)
    requires decoder.Valid()
    modifies decoder
    ensures decoder.Valid() && decoder.Reads(ParseBlobBody(old(decoder.Rest()), command), r)
  {
    hide PutUnsigned, PutArray, PutBytes, PutGrant, PutBlobBody, ManifestBytes;
    hide ParseUnsigned, ParseArrayLength, ParseBytes, ParseId, ParseGrant, ParseManifest, ParseTtl, ParseIndex;
    if command == BEGIN_UPLOAD {
      var _ :- decoder.Array(7);
      var grant :- DecodeGrant(decoder);
      var manifest :- DecodeManifest(decoder);
      var ttl :- DecodeTtl(decoder);
      return Success(BeginUpload(grant.0, grant.1, manifest, ttl));
    } else if command == PUT_CHUNK {
      var _ :- decoder.Array(4);
      var uploadId :- decoder.FixedId();
      var uploadCap :- decoder.FixedId();
      var index :- DecodeIndex(decoder);
      var ciphertext :- decoder.ByteString(MAX_CIPHERTEXT_BYTES);
      return Success(PutChunk(uploadId, uploadCap, index, ciphertext));
    } else if command == COMMIT {
      var _ :- decoder.Array(3);
      var uploadId :- decoder.FixedId();
      var uploadCap :- decoder.FixedId();
      var blobId :- decoder.FixedId();
      return Success(Commit(uploadId, uploadCap, blobId));
    } else if command == GET_MANIFEST {
      var _ :- decoder.Array(2);
      var blobId :- decoder.FixedId();
      var downloadCap :- decoder.FixedId();
      return Success(GetManifest(blobId, downloadCap));
    } else if command == GET_CHUNK {
      var _ :- decoder.Array(3);
      var blobId :- decoder.FixedId();
      var downloadCap :- decoder.FixedId();
      var index :- DecodeIndex(decoder);
      return Success(GetChunk(blobId, downloadCap, index));
    } else if command == RENEW {
      var _ :- decoder.Array(3);
      var blobId :- decoder.FixedId();
      var renewCap :- decoder.FixedId();
      var ttl :- DecodeTtl(decoder);
      return Success(Renew(blobId, renewCap, ttl));
    } else {
      var _ :- decoder.Array(2);
      var blobId :- decoder.FixedId();
      var deleteCap :- decoder.FixedId();
      return Success(Delete(blobId, deleteCap));
    }
  }

  method DecodeBlobRequest(bytes: Bytes) returns (r: Result<DecodedBlob, DecodeError>)
    ensures r == ParseBlobRequest(bytes)
  {
    hide PutUnsigned, PutArray, PutBytes, ParseUnsigned, ParseArrayLength, ParseBytes, ParseBlobBody, PutBlobBody;
    var requestId :- QC.DecodePreamble(bytes, MAX_BLOB_FRAME_BYTES);
    var decoder := new Decoder(bytes, QC.PREAMBLE_BYTES);
    var _ :- decoder.Array(3);
    var _ :- decoder.Expect(0);
    var command :- decoder.Unsigned();
    if command == 0 || command > 7 {
      return Failure(UnknownBlobCommand);
    }
    var request :- DecodeBlobRequestBody(decoder, command);
    var authenticatedEnd := decoder.offset;
    var auth :- decoder.ByteString(AUTH_BYTES);
    if |auth| != AUTH_BYTES {
      return Failure(WrongByteStringLength);
    }
    if decoder.offset != |bytes| {
      return Failure(TrailingBytes);
    }
    return Success(DecodedBlob(BlobFrame(requestId, request, auth), bytes[..authenticatedEnd]));
  }

  method DecodeOutcome(decoder: Decoder) returns (r: Result<bool, DecodeError>)
    requires decoder.Valid()
    modifies decoder
    ensures decoder.Valid() && decoder.Reads(ParseOutcome(old(decoder.Rest())), r)
  {
    var value :- decoder.Unsigned();
    if value > 1 {
      return Failure(InvalidValue);
    }
    return Success(value == 1);
  }

  method DecodeBlobResponseBody(decoder: Decoder, command: BlobCommand) returns (r: Result<BlobBody, DecodeError>)
    requires decoder.Valid()
    modifies decoder
    ensures decoder.Valid() && decoder.Reads(ParseReplyBody(old(decoder.Rest()), command), r)
  {
    hide PutUnsigned, PutArray, PutBytes, PutReplyBody, ManifestBytes;
    hide ParseUnsigned, ParseArrayLength, ParseBytes, ParseManifest, ParseOutcome;
    if command == BEGIN_UPLOAD {
      var _ :- decoder.Array(1);
      var duplicate :- DecodeOutcome(decoder);
      return Success(Begun(duplicate));
    } else if command == PUT_CHUNK {
      var _ :- decoder.Array(1);
      var duplicate :- DecodeOutcome(decoder);
      return Success(ChunkPut(duplicate));
    } else if command == COMMIT {
      var _ :- decoder.Array(1);
      var expiresAt :- decoder.Unsigned();
      return Success(Committed(expiresAt));
    } else if command == GET_MANIFEST {
      var _ :- decoder.Array(2);
      var manifest :- DecodeManifest(decoder);
      var expiresAt :- decoder.Unsigned();
      return Success(ManifestGot(manifest, expiresAt));
    } else if command == GET_CHUNK {
      var _ :- decoder.Array(2);
      var chunk :- decoder.ByteString(MAX_CIPHERTEXT_BYTES);
      var expiresAt :- decoder.Unsigned();
      return Success(ChunkGot(chunk, expiresAt));
    } else if command == RENEW {
      var _ :- decoder.Array(1);
      var expiresAt :- decoder.Unsigned();
      return Success(Renewed(expiresAt));
    } else {
      var _ :- decoder.Array(0);
      return Success(Deleted);
    }
  }

  method DecodeBlobResponse(bytes: Bytes) returns (r: Result<BlobReply, DecodeError>)
    ensures r == ParseBlobResponse(bytes)
  {
    hide PutUnsigned, PutArray, PutBytes, ParseUnsigned, ParseArrayLength, ParseBytes, ParseReplyBody, PutReplyBody;
    var requestId :- QC.DecodePreamble(bytes, MAX_BLOB_FRAME_BYTES);
    var decoder := new Decoder(bytes, QC.PREAMBLE_BYTES);
    var _ :- decoder.Array(4);
    var _ :- decoder.Expect(1);
    var code :- decoder.Unsigned();
    if code > 7 {
      return Failure(UnknownBlobCommand);
    }
    var status :- decoder.Unsigned();
    if status > 14 {
      return Failure(InvalidValue);
    }
    var response: BlobResponse;
    if status == BLOB_OK {
      if code == 0 {
        return Failure(InvalidValue);
      }
      var body :- DecodeBlobResponseBody(decoder, code);
      response := Fulfilled(body);
    } else {
      var _ :- decoder.Array(0);
      response := Declined(if code == 0 then None else Some(code), status);
    }
    if decoder.offset != |bytes| {
      return Failure(TrailingBytes);
    }
    return Success(BlobReply(requestId, response));
  }

  method EncodeBlobRequestBody(output: Output, r: BlobRequest)
    requires r.Encodable()
    modifies output
    ensures forall t :: output.data + t == old(output.data) + PutBlobBody(r, t)
  {
    hide PutUnsigned, PutArray, PutBytes, ManifestBytes;
    match r
    case BeginUpload(u, c, m, ttl) =>
      output.Array(7);
      output.ByteString(u);
      output.ByteString(c.upload);
      output.ByteString(c.download);
      output.ByteString(c.renew);
      output.ByteString(c.delete);
      output.ByteString(ManifestBytes(m));
      output.Unsigned(ttl);
    case PutChunk(u, c, i, x) =>
      output.Array(4);
      output.ByteString(u);
      output.ByteString(c);
      output.Unsigned(i);
      output.ByteString(x);
    case Commit(u, c, b) =>
      output.Array(3);
      output.ByteString(u);
      output.ByteString(c);
      output.ByteString(b);
    case GetManifest(b, c) =>
      output.Array(2);
      output.ByteString(b);
      output.ByteString(c);
    case GetChunk(b, c, i) =>
      output.Array(3);
      output.ByteString(b);
      output.ByteString(c);
      output.Unsigned(i);
    case Renew(b, c, ttl) =>
      output.Array(3);
      output.ByteString(b);
      output.ByteString(c);
      output.Unsigned(ttl);
    case Delete(b, c) =>
      output.Array(2);
      output.ByteString(b);
      output.ByteString(c);
  }

  method EncodeBlobAuthenticatedRequest(id: RequestId, r: BlobRequest) returns (bytes: Bytes)
    requires r.Encodable()
    ensures bytes == BlobAuthenticatedBytes(id, r)
  {
    hide PutBlobBody, QC.PutPreamble, PutArray, PutUnsigned;
    var output := new Output();
    QC.EncodePreamble(output, id);
    output.Array(3);
    output.Unsigned(0);
    output.Unsigned(r.Command());
    EncodeBlobRequestBody(output, r);
    bytes := output.data;
    assert bytes == bytes + [] == [] + BlobAuthenticatedBytes(id, r) == BlobAuthenticatedBytes(id, r);
  }

  method EncodeBlobRequest(f: BlobFrame) returns (bytes: Bytes)
    requires f.Encodable()
    ensures bytes == BlobRequestBytes(f)
  {
    hide PutBlobPayload, QC.PutPreamble, PutBytes;
    var output := new Output();
    output.data := EncodeBlobAuthenticatedRequest(f.requestId, f.request);
    output.ByteString(f.auth);
    bytes := output.data;
    assert bytes + [] == BlobAuthenticatedBytes(f.requestId, f.request) + PutBytes(f.auth, []);
    PutPrepends(f.requestId, f.request, PutBytes(f.auth, []));
  }

  method EncodeBlobResponseBody(output: Output, body: BlobBody)
    requires body.Encodable()
    modifies output
    ensures forall t :: output.data + t == old(output.data) + PutReplyBody(body, t)
  {
    hide PutUnsigned, PutArray, PutBytes, ManifestBytes;
    match body
    case Begun(duplicate) =>
      output.Array(1);
      output.Unsigned(QC.Flag(duplicate));
    case ChunkPut(duplicate) =>
      output.Array(1);
      output.Unsigned(QC.Flag(duplicate));
    case Committed(expiresAt) =>
      output.Array(1);
      output.Unsigned(expiresAt);
    case Renewed(expiresAt) =>
      output.Array(1);
      output.Unsigned(expiresAt);
    case ManifestGot(manifest, expiresAt) =>
      output.Array(2);
      output.ByteString(ManifestBytes(manifest));
      output.Unsigned(expiresAt);
    case ChunkGot(chunk, expiresAt) =>
      output.Array(2);
      output.ByteString(chunk);
      output.Unsigned(expiresAt);
    case Deleted =>
      output.Array(0);
  }

  method EncodeBlobResponse(f: BlobReply) returns (bytes: Bytes)
    requires f.response.Encodable()
    ensures bytes == BlobResponseBytes(f)
  {
    hide PutReplyBody, QC.PutPreamble, PutArray, PutUnsigned;
    var output := new Output();
    QC.EncodePreamble(output, f.requestId);
    output.Array(4);
    output.Unsigned(1);
    output.Unsigned(f.response.CommandCode());
    output.Unsigned(f.response.status);
    if f.response.body.Some? && f.response.status == BLOB_OK {
      EncodeBlobResponseBody(output, f.response.body.value);
    } else {
      output.Array(0);
    }
    bytes := output.data;
    assert bytes == bytes + [] == [] + BlobResponseBytes(f) == BlobResponseBytes(f);
  }
}
