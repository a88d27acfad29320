/** Queue v1 frames: protocol values, the strict decoder and the deterministic encoder.

    `Put...`, `Parse...` and `...Bytes` are the specification; the methods thread a `Decoder` or an
    `Output` and are proved against it. `RequestExact` and `ResponseExact` say that a byte string is
    accepted exactly when it is the encoding of the frame returned. */
module QueueCodec {
  import opened Base
  import opened Cbor

  const MAX_FRAME_BYTES: nat := 65_536
  const MAX_AUTH_BYTES: nat := 1_024
  const MAX_MESSAGE_BYTES: nat := 64_374
  const PREAMBLE_BYTES: nat := 17
  const VERSION: Byte := 1

  /** CREATE_QUEUE 1, SEND 2, FETCH 3, ACK 4, DELETE_QUEUE 5. */
  type Command = n: int | 1 <= n <= 5 witness 1
  const CREATE_QUEUE: Command := 1
  const SEND: Command := 2
  const FETCH: Command := 3
  const ACK: Command := 4
  const DELETE_QUEUE: Command := 5

  /** The registered status codes are 0 to 16 without a gap. */
  type Status = n: int | 0 <= n <= 16
  const OK: Status := 0
  const UNSUPPORTED_VERSION: Status := 1
  const MALFORMED_FRAME: Status := 2
  const FRAME_TOO_LARGE: Status := 3
  const UNKNOWN_COMMAND: Status := 4
  const QUEUE_NOT_FOUND: Status := 5
  const UNAUTHORIZED: Status := 6
  const QUEUE_ID_CONFLICT: Status := 7
  const MESSAGE_ID_CONFLICT: Status := 8
  const MESSAGE_TOO_LARGE: Status := 9
  const QUEUE_FULL: Status := 10
  const EXPIRY_OVERFLOW: Status := 11
  const ACK_MISMATCH: Status := 12
  const NOT_DELIVERED: Status := 13
  const AUTH_INVALID: Status := 14
  const LIMIT_OUT_OF_RANGE: Status := 15
  const AUTH_REPLAY: Status := 16

  datatype Request =
    | CreateQueue(queueId: Id, sender: Id, recipient: Id, maxMessages: U64, maxMessageBytes: U64)
    | Send(queueId: Id, sender: Id, messageId: Id, payload: Bytes, ttl: U64)
    | Fetch(queueId: Id, recipient: Id)
    | Ack(queueId: Id, recipient: Id, messageId: Id)
    | DeleteQueue(queueId: Id, recipient: Id)
  {
    function Command(): Command {
      match this
      case CreateQueue(_, _, _, _, _) => CREATE_QUEUE
      case Send(_, _, _, _, _) => SEND
      case Fetch(_, _) => FETCH
      case Ack(_, _, _) => ACK
      case DeleteQueue(_, _) => DELETE_QUEUE
    }

    /** The limits the protocol types enforce when a request value is constructed. */
    predicate Valid() {
      match this
      case CreateQueue(_, _, _, m, s) => 1 <= m && 1 <= s <= MAX_MESSAGE_BYTES
      case Send(_, _, _, p, _) => |p| <= MAX_MESSAGE_BYTES
      case _ => true
    }
  }

  datatype RequestFrame = RequestFrame(requestId: RequestId, request: Request, auth: Bytes) {
    predicate Valid() {
      request.Valid() && |auth| <= MAX_AUTH_BYTES
    }
  }

  /** A decoded frame and the received bytes its proof covers. */
  datatype DecodedRequest = DecodedRequest(frame: RequestFrame, authenticated: Bytes)

  datatype Delivery = Delivery(messageId: Id, payload: Bytes, expiresAt: U64)

  datatype ResponseBody =
    | QueueCreated(existed: bool)
    | Sent(duplicate: bool)
    | Fetched(delivery: Option<Delivery>)
    | Acked
    | QueueDeleted
  {
    function Command(): Command {
      match this
      case QueueCreated(_) => CREATE_QUEUE
      case Sent(_) => SEND
      case Fetched(_) => FETCH
      case Acked => ACK
      case QueueDeleted => DELETE_QUEUE
    }

    predicate Valid() {
      match this
      case Fetched(Some(d)) => |d.payload| <= MAX_MESSAGE_BYTES
      case _ => true
    }
  }

  /** A success carries its body; an error carries a nonzero status and an empty body. */
  datatype Response = Completed(body: ResponseBody) | Refused(answers: Option<Command>, status: Status) {
    predicate Valid() {
      match this
      case Completed(body) => body.Valid()
      case Refused(_, status) => status != OK
    }
    function Command(): Option<Command> {
      match this
      case Completed(body) => Some(body.Command())
      case Refused(c, _) => c
    }
    function CommandCode(): U64 {
      match Command() case None => 0 case Some(c) => c
    }
    function StatusCode(): U64 {
      match this case Completed(_) => OK case Refused(_, status) => status
    }
  }

  datatype ResponseFrame = ResponseFrame(requestId: RequestId, response: Response)

  // ----- encoding -----

  function PutPreamble(id: RequestId, tail: Bytes): (b: Bytes)
    ensures |b| == PREAMBLE_BYTES + |tail|
  {
    [VERSION] + (id + tail)
  }

  function PutRequestBody(r: Request, tail: Bytes): Bytes
    requires r.Valid()
  {
    match r
    case CreateQueue(q, s, d, m, n) =>
      PutArray(5, PutBytes(q, PutBytes(s, PutBytes(d, PutUnsigned(m, PutUnsigned(n, tail))))))
    case Send(q, s, m, p, ttl) =>
      PutArray(5, PutBytes(q, PutBytes(s, PutBytes(m, PutBytes(p, PutUnsigned(ttl, tail))))))
    case Fetch(q, d) => PutArray(2, PutBytes(q, PutBytes(d, tail)))
    case Ack(q, d, m) => PutArray(3, PutBytes(q, PutBytes(d, PutBytes(m, tail))))
    case DeleteQueue(q, d) => PutArray(2, PutBytes(q, PutBytes(d, tail)))
  }

  function PutRequestPayload(r: Request, tail: Bytes): Bytes
    requires r.Valid()
  {
    PutArray(3, PutUnsigned(0, PutUnsigned(r.Command(), PutRequestBody(r, tail))))
  }

  /** The bytes a request proof covers. */
  function AuthenticatedBytes(id: RequestId, r: Request): Bytes
    requires r.Valid()
  {
    PutPreamble(id, PutRequestPayload(r, []))
  }

  /** A complete request frame. */
  function RequestBytes(f: RequestFrame): Bytes
    requires f.Valid()
  {
    PutPreamble(f.requestId, PutRequestPayload(f.request, PutBytes(f.auth, [])))
  }

  function Flag(b: bool): U64 {
    if b then 1 else 0
  }

  function PutResponseBody(body: ResponseBody, tail: Bytes): Bytes
    requires body.Valid()
  {
    match body
    case QueueCreated(existed) => PutArray(1, PutUnsigned(Flag(existed), tail))
    case Sent(duplicate) => PutArray(1, PutUnsigned(Flag(duplicate), tail))
    case Fetched(None) => PutArray(1, PutUnsigned(0, tail))
    case Fetched(Some(d)) =>
      PutArray(4, PutUnsigned(1, PutBytes(d.messageId, PutBytes(d.payload, PutUnsigned(d.expiresAt, tail)))))
    case _ => PutArray(0, tail)
  }

  function PutResponsePayload(r: Response, tail: Bytes): Bytes
    requires r.Valid()
  {
    PutArray(4, PutUnsigned(1, PutUnsigned(r.CommandCode(), PutUnsigned(r.StatusCode(),
      if r.Completed? then PutResponseBody(r.body, tail) else PutArray(0, tail)))))
  }

  /** A complete response frame. */
  function ResponseBytes(f: ResponseFrame): Bytes
    requires f.response.Valid()
  {
    PutPreamble(f.requestId, PutResponsePayload(f.response, []))
  }

  // ----- parsing -----

  /** Version and request identifier; the size bound is checked before anything is read. */
  function ParsePreamble(bytes: Bytes, max: nat): (p: Parsed<RequestId>)
    ensures p.Ok? ==> |bytes| <= max && bytes == PutPreamble(p.value, p.rest)
  {
    if |bytes| > max then Fail(FrameTooLarge)
    else if |bytes| < PREAMBLE_BYTES then Fail(Truncated)
    else if bytes[0] == 0 then Fail(ReservedVersion)
    else
      var id: RequestId := bytes[1..17];
      if bytes[0] != VERSION then Fail(UnsupportedVersion(bytes[0], id))
      else
        assert bytes == [bytes[0]] + (bytes[1..17] + bytes[17..]);
        Ok(id, bytes[17..])
  }

  function ParseCommand(b: Bytes): (p: Parsed<Command>)
    ensures p.Ok? ==> b == PutUnsigned(p.value, p.rest)
    ensures p.Ordinary()
  {
    var (n, rest) :- ParseUnsigned(b);
    var c :- CommandOf(n, rest);
    Ok(c.0, rest)
  }

  function CommandOf(n: U64, rest: Bytes): Parsed<Command> {
    if n >= 256 then Fail(InvalidValue) else if n == 0 || n > 5 then Fail(InvalidProtocolValue) else Ok(n, rest)
  }

  function ParseCreate(b: Bytes): (p: Parsed<Request>)
    ensures p.Ok? ==> p.value.Valid() && p.value.CreateQueue? && b == PutRequestBody(p.value, p.rest)
    ensures p.Ordinary()
  {
    var (_, b1) :- ParseArray(b, 5);
    var (q, b2) :- ParseId(b1);
    var (s, b3) :- ParseId(b2);
    var (d, b4) :- ParseId(b3);
    var (m, b5) :- ParseUnsigned(b4);
    var (n, b6) :- ParseUnsigned(b5);
    if m == 0 || n == 0 || n > MAX_MESSAGE_BYTES then Fail(InvalidProtocolValue)
    else Ok(CreateQueue(q, s, d, m, n), b6)
  }

  function ParseSend(b: Bytes): (p: Parsed<Request>)
    ensures p.Ok? ==> p.value.Valid() && p.value.Send? && b == PutRequestBody(p.value, p.rest)
    ensures p.Ordinary()
  {
    var (_, b1) :- ParseArray(b, 5);
    var (q, b2) :- ParseId(b1);
    var (s, b3) :- ParseId(b2);
    var (m, b4) :- ParseId(b3);
    var (p, b5) :- ParseBytes(b4, MAX_MESSAGE_BYTES);
    var (ttl, b6) :- ParseUnsigned(b5);
    Ok(Send(q, s, m, p, ttl), b6)
  }

  function ParseRequestBody(b: Bytes, command: Command): (p: Parsed<Request>)
    ensures p.Ok? ==> p.value.Valid() && p.value.Command() == command && b == PutRequestBody(p.value, p.rest)
    ensures p.Ordinary()
  {
    if command == CREATE_QUEUE then ParseCreate(b)
    else if command == SEND then ParseSend(b)
    else if command == FETCH then
      var (_, b1) :- ParseArray(b, 2);
      var (q, b2) :- ParseId(b1);
      var (d, b3) :- ParseId(b2);
      Ok(Fetch(q, d), b3)
    else if command == ACK then
      var (_, b1) :- ParseArray(b, 3);
      var (q, b2) :- ParseId(b1);
      var (d, b3) :- ParseId(b2);
      var (m, b4) :- ParseId(b3);
      Ok(Ack(q, d, m), b4)
    else
      var (_, b1) :- ParseArray(b, 2);
      var (q, b2) :- ParseId(b1);
      var (d, b3) :- ParseId(b2);
      Ok(DeleteQueue(q, d), b3)
  }

  function ParseRequestPayload(b: Bytes): (p: Parsed<Request>)
    ensures p.Ok? ==> p.value.Valid() && b == PutRequestPayload(p.value, p.rest)
    ensures p.Ordinary()
  {
    var (_, b1) :- ParseArray(b, 3);
    var (_, b2) :- ParseExpected(b1, 0);
    var (c, b3) :- ParseCommand(b2);
    ParseRequestBody(b3, c)
  }

  function ParseRequest(bytes: Bytes): Result<DecodedRequest, DecodeError> {
    match ParsePreamble(bytes, MAX_FRAME_BYTES)
    case Fail(e) => Failure(e)
    case Ok(id, b) =>
      match ParseRequestPayload(b)
      case Fail(e) => Failure(e)
      case Ok(request, rest) =>
        match ParseBytes(rest, MAX_AUTH_BYTES)
        case Fail(e) => Failure(e)
        case Ok(auth, left) =>
          if left != [] then Failure(TrailingBytes)
          else
            var frame := RequestFrame(id, request, auth);
            PutPrepends(frame, rest);
            Success(DecodedRequest(frame, bytes[..|bytes| - |rest|]))
  }

  function ParseResponseBody(b: Bytes, command: Command): (p: Parsed<ResponseBody>)
    ensures p.Ok? ==> p.value.Valid() && p.value.Command() == command && b == PutResponseBody(p.value, p.rest)
  {
    if command == CREATE_QUEUE then
      var (_, b1) :- ParseArray(b, 1);
      var (v, b2) :- ParseFlag(b1);
      Ok(QueueCreated(v), b2)
    else if command == SEND then
      var (_, b1) :- ParseArray(b, 1);
      var (v, b2) :- ParseFlag(b1);
      Ok(Sent(v), b2)
    else if command == FETCH then
      var (n, b1) :- ParseArrayLength(b);
      if n == 1 then
        var (_, b2) :- ParseExpected(b1, 0);
        Ok(Fetched(None), b2)
      else if n == 4 then
        var (_, b2) :- ParseExpected(b1, 1);
        var (m, b3) :- ParseId(b2);
        var (p, b4) :- ParseBytes(b3, MAX_MESSAGE_BYTES);
        var (t, b5) :- ParseUnsigned(b4);
        Ok(Fetched(Some(Delivery(m, p, t))), b5)
      else Fail(InvalidValue)
    else if command == ACK then
      var (_, b1) :- ParseArray(b, 0);
      Ok(Acked, b1)
    else
      var (_, b1) :- ParseArray(b, 0);
      Ok(QueueDeleted, b1)
  }

  /** An outcome code: 0 for the first time, 1 for a repetition. */
  function ParseFlag(b: Bytes): (p: Parsed<bool>)
    ensures p.Ok? ==> b == PutUnsigned(Flag(p.value), p.rest)
  {
    var (n, rest) :- ParseUnsigned(b);
    if n >= 256 then Fail(InvalidValue) else if n > 1 then Fail(InvalidProtocolValue) else Ok(n == 1, rest)
  }

  function ParseStatus(b: Bytes): (p: Parsed<Status>)
    ensures p.Ok? ==> b == PutUnsigned(p.value, p.rest)
  {
    var (n, rest) :- ParseUnsigned(b);
    if n >= 256 then Fail(InvalidValue) else if n > 16 then Fail(InvalidProtocolValue) else Ok(n, rest)
  }

  function ParseResponsePayload(b: Bytes): (p: Parsed<Response>)
    ensures p.Ok? ==> p.value.Valid() && b == PutResponsePayload(p.value, p.rest)
  {
    var (_, b1) :- ParseArray(b, 4);
    var (_, b2) :- ParseExpected(b1, 1);
    var (code, b3) :- ParseUnsigned(b2);
    var (status, b4) :- ParseStatus(b3);
    if status == OK then
      var (c, _) :- CommandOf(code, b4);
      var (body, b5) :- ParseResponseBody(b4, c);
      Ok(Completed(body), b5)
    else
      var (_, b5) :- ParseArray(b4, 0);
      if code == 0 then Ok(Refused(None, status), b5)
      else
        var (c, _) :- CommandOf(code, b5);
        Ok(Refused(Some(c), status), b5)
  }

  function ParseResponse(bytes: Bytes): Result<ResponseFrame, DecodeError> {
    match ParsePreamble(bytes, MAX_FRAME_BYTES)
    case Fail(e) => Failure(e)
    case Ok(id, b) =>
      match ParseResponsePayload(b)
      case Fail(e) => Failure(e)
      case Ok(response, left) =>
        if left != [] then Failure(TrailingBytes) else Success(ResponseFrame(id, response))
  }

  // ----- the codec is exact -----

  lemma ParseOfPutRequestPayload(r: Request, tail: Bytes)
    requires r.Valid()
    ensures ParseRequestPayload(PutRequestPayload(r, tail)) == Ok(r, tail)
  {
    hide PutArgument, ParseArgument, PutUnsigned, PutArray, PutBytes, ParseUnsigned, ParseArrayLength, ParseBytes,
      ParseId;
    ItemsRoundTrip();
    var c := r.Command();
    var b := PutRequestBody(r, tail);
    assert ParseCommand(PutUnsigned(c, b)) == Ok(c, b);
    assert ParseRequestBody(b, c) == Ok(r, tail);
  }

  lemma ParseOfPutPreamble(id: RequestId, tail: Bytes, max: nat)
    requires PREAMBLE_BYTES + |tail| <= max
    ensures ParsePreamble(PutPreamble(id, tail), max) == Ok(id, tail)
  {
    var b := PutPreamble(id, tail);
    assert b[1..17] == id && b[17..] == tail;
  }

  lemma PutPreamblePrepends(id: RequestId, t: Bytes, u: Bytes)
    ensures PutPreamble(id, t + u) == PutPreamble(id, t) + u
  {
    assert id + (t + u) == (id + t) + u;
  }

  lemma PutRequestPayloadPrepends(r: Request, t: Bytes, u: Bytes)
    requires r.Valid()
    ensures PutRequestPayload(r, t + u) == PutRequestPayload(r, t) + u
  {
    hide PutUnsigned, PutArray, PutBytes;
    ItemsPrepend();
    assert PutRequestBody(r, t + u) == PutRequestBody(r, t) + u;
  }

  /** What precedes the auth string is exactly the authenticated bytes. */
  lemma PutPrepends(f: RequestFrame, tail: Bytes)
    requires f.Valid()
    ensures PutPreamble(f.requestId, PutRequestPayload(f.request, tail))
            == AuthenticatedBytes(f.requestId, f.request) + tail
  {
    assert [] + tail == tail;
    PutRequestPayloadPrepends(f.request, [], tail);
    PutPreamblePrepends(f.requestId, PutRequestPayload(f.request, []), tail);
  }

  /** The largest request is a SEND of the largest payload, and it fills the frame bound. */
  /** The length of an encoded request, item by item. */
  lemma RequestLength(f: RequestFrame)
    requires f.Valid()
    ensures |RequestBytes(f)| == 21 + 1 + Width(|f.auth|) + |f.auth| +
              match f.request
              case CreateQueue(_, _, _, m, k) => 104 + Width(m) + Width(k)
              case Send(_, _, _, p, ttl) => 104 + Width(|p|) + |p| + Width(ttl)
              case Ack(_, _, _) => 102
              case _ => 68
  {
    hide PutArgument;
    assert Width(32) == 1 && Width(5) == Width(3) == Width(2) == Width(0) == Width(f.request.Command()) == 0;
    hide Width;
  }

  lemma RequestFits(f: RequestFrame)
    requires f.Valid()
    ensures |RequestBytes(f)| <= MAX_FRAME_BYTES
    ensures |RequestBytes(f)| == MAX_FRAME_BYTES <==>
              f.request.Send? && |f.request.payload| == MAX_MESSAGE_BYTES
              && f.request.ttl >= U32_LIMIT && |f.auth| == MAX_AUTH_BYTES
  {
    hide RequestBytes, Pow256;
    RequestLength(f);
  }

  lemma ResponseFits(f: ResponseFrame)
    requires f.response.Valid()
    ensures |ResponseBytes(f)| < MAX_FRAME_BYTES
  {
    var r := f.response;
    if r.Completed? {
      assert |PutResponseBody(r.body, [])| <= 1 + 1 + 34 + 3 + MAX_MESSAGE_BYTES + 9;
    }
  }

  /** Accepted bytes are the encoding of the frame returned, every valid frame is accepted from its
      encoding, and the authenticated bytes handed out are the ones the encoder signs. */
  lemma RequestExact(bytes: Bytes, d: DecodedRequest)
    ensures ParseRequest(bytes) == Success(d) <==>
              && d.frame.Valid()
              && bytes == RequestBytes(d.frame)
              && d.authenticated == AuthenticatedBytes(d.frame.requestId, d.frame.request)
  {
    hide PutRequestPayload, ParseRequestPayload, PutPreamble, ParsePreamble, PutBytes, ParseBytes;
    if ParseRequest(bytes) == Success(d) {
      var (id, b) := ParsePreamble(bytes, MAX_FRAME_BYTES).Extract();
      var (request, rest) := ParseRequestPayload(b).Extract();
      PutPrepends(d.frame, rest);
    }
    var f := d.frame;
    if f.Valid() && bytes == RequestBytes(f) {
      var rest := PutBytes(f.auth, []);
      RequestFits(f);
      ParseOfPutPreamble(f.requestId, PutRequestPayload(f.request, rest), MAX_FRAME_BYTES);
      ParseOfPutRequestPayload(f.request, rest);
      ParseOfPutBytes(f.auth, [], MAX_AUTH_BYTES);
      PutPrepends(f, rest);
    }
  }

  lemma ParseOfPutResponseBody(body: ResponseBody, tail: Bytes)
    requires body.Valid()
    ensures ParseResponseBody(PutResponseBody(body, tail), body.Command()) == Ok(body, tail)
  {
    hide PutArgument, ParseArgument, PutUnsigned, PutArray, PutBytes, ParseUnsigned, ParseArrayLength, ParseBytes,
      ParseId;
    ItemsRoundTrip();
  }

  lemma ParseOfPutResponsePayload(r: Response, tail: Bytes)
    requires r.Valid()
    ensures ParseResponsePayload(PutResponsePayload(r, tail)) == Ok(r, tail)
  {
    hide PutUnsigned, PutArray, ParseUnsigned, ParseArrayLength, PutResponseBody, ParseResponseBody;
    ItemsRoundTrip();
    if r.Completed? {
      var b := PutResponseBody(r.body, tail);
      ParseOfPutResponseBody(r.body, tail);
      assert ParseStatus(PutUnsigned(OK, b)) == Ok(OK, b);
    } else {
      var b := PutArray(0, tail);
      assert ParseArray(b, 0) == Ok((), tail);
      assert ParseStatus(PutUnsigned(r.status, b)) == Ok(r.status, b);
    }
  }

  lemma ResponseExact(bytes: Bytes, f: ResponseFrame)
    ensures ParseResponse(bytes) == Success(f) <==> f.response.Valid() && bytes == ResponseBytes(f)
  {
    if f.response.Valid() && bytes == ResponseBytes(f) {
      ResponseFits(f);
      ParseOfPutPreamble(f.requestId, PutResponsePayload(f.response, []), MAX_FRAME_BYTES);
      ParseOfPutResponsePayload(f.response, []);
    }
  }

  /** Byte equality of accepted frames is equality of frames. */
  lemma RequestBytesInjective(f: RequestFrame, g: RequestFrame)
    requires f.Valid() && g.Valid()
    ensures RequestBytes(f) == RequestBytes(g) <==> f == g
  {
    var d := DecodedRequest(f, AuthenticatedBytes(f.requestId, f.request));
    var e := DecodedRequest(g, AuthenticatedBytes(g.requestId, g.request));
    RequestExact(RequestBytes(f), d);
    RequestExact(RequestBytes(g), e);
  }

  /** The bytes under a proof determine the request identifier and the request. */
  lemma AuthenticatedBytesInjective(i: RequestId, r: Request, j: RequestId, q: Request)
    requires r.Valid() && q.Valid()
    ensures AuthenticatedBytes(i, r) == AuthenticatedBytes(j, q) <==> i == j && r == q
  {
    hide PutRequestPayload, PutPreamble, PutBytes;
    PutPrepends(RequestFrame(i, r, []), PutBytes([], []));
    PutPrepends(RequestFrame(j, q, []), PutBytes([], []));
    if AuthenticatedBytes(i, r) == AuthenticatedBytes(j, q) {
      RequestBytesInjective(RequestFrame(i, r, []), RequestFrame(j, q, []));
    }
  }

  /** Extending a byte string extends what the payload parser leaves, and nothing else. */
  lemma RequestPayloadIsLocal(b: Bytes, more: Bytes)
    requires ParseRequestPayload(b).Ok?
    ensures ParseRequestPayload(b + more) == Ok(ParseRequestPayload(b).value, ParseRequestPayload(b).rest + more)
  {
    hide PutRequestPayload, ParseRequestPayload;
    var p := ParseRequestPayload(b);
    PutRequestPayloadPrepends(p.value, p.rest, more);
    ParseOfPutRequestPayload(p.value, p.rest + more);
  }

  /** The size check comes first. */
  lemma TooLargeIsRefused(bytes: Bytes)
    requires |bytes| > MAX_FRAME_BYTES
    ensures ParseRequest(bytes) == Failure(FrameTooLarge) && ParseResponse(bytes) == Failure(FrameTooLarge)
  {
  }

  /** Nothing can be appended to a frame or cut off from one: a longer byte string is refused for what
      follows the frame, or for its size. */
  lemma RequestPrefixFree(bytes: Bytes, extra: Bytes)
    requires ParseRequest(bytes).Success? && extra != []
    ensures ParseRequest(bytes + extra) ==
              Failure(if |bytes + extra| > MAX_FRAME_BYTES then FrameTooLarge else TrailingBytes)
  {
    hide PutRequestPayload, PutPreamble, PutBytes, ParseRequestPayload, ParsePreamble, ParseBytes;
    var d := ParseRequest(bytes).value;
    RequestExact(bytes, d);
    var f := d.frame;
    assert [] + extra == extra;
    ItemsPrepend();
    assert PutBytes(f.auth, [] + extra) == PutBytes(f.auth, []) + extra;
    var rest := PutBytes(f.auth, extra);
    PutRequestPayloadPrepends(f.request, PutBytes(f.auth, []), extra);
    PutPreamblePrepends(f.requestId, PutRequestPayload(f.request, PutBytes(f.auth, [])), extra);
    assert bytes + extra == PutPreamble(f.requestId, PutRequestPayload(f.request, rest));
    if |bytes + extra| > MAX_FRAME_BYTES {
      TooLargeIsRefused(bytes + extra);
    } else {
      PreambleLength(f.requestId, PutRequestPayload(f.request, rest));
      ParseOfPutPreamble(f.requestId, PutRequestPayload(f.request, rest), MAX_FRAME_BYTES);
      ParseOfPutRequestPayload(f.request, rest);
      ParseOfPutBytes(f.auth, extra, MAX_AUTH_BYTES);
    }
  }

  lemma PreambleLength(id: RequestId, tail: Bytes)
    ensures |PutPreamble(id, tail)| == PREAMBLE_BYTES + |tail|
  {
  }

  lemma PutResponsePayloadPrepends(r: Response, t: Bytes, u: Bytes)
    requires r.Valid()
    ensures PutResponsePayload(r, t + u) == PutResponsePayload(r, t) + u
  {
    hide PutUnsigned, PutArray, PutBytes;
    ItemsPrepend();
    if r.Completed? {
      assert PutResponseBody(r.body, t + u) == PutResponseBody(r.body, t) + u;
    }
  }

  lemma ResponsePrefixFree(bytes: Bytes, extra: Bytes)
    requires ParseResponse(bytes).Success? && extra != []
    ensures ParseResponse(bytes + extra) ==
              Failure(if |bytes + extra| > MAX_FRAME_BYTES then FrameTooLarge else TrailingBytes)
  {
    hide PutResponsePayload, PutPreamble, ParseResponsePayload, ParsePreamble;
    var f := ParseResponse(bytes).value;
    ResponseExact(bytes, f);
    assert [] + extra == extra;
    PutResponsePayloadPrepends(f.response, [], extra);
    PutPreamblePrepends(f.requestId, PutResponsePayload(f.response, []), extra);
    if |bytes + extra| > MAX_FRAME_BYTES {
      TooLargeIsRefused(bytes + extra);
    } else {
      PreambleLength(f.requestId, PutResponsePayload(f.response, extra));
      ParseOfPutPreamble(f.requestId, PutResponsePayload(f.response, extra), MAX_FRAME_BYTES);
      ParseOfPutResponsePayload(f.response, extra);
    }
  }

  // ----- the codec as written: a decoder and an output buffer threaded through every body -----

  method DecodeRequestBody(decoder: Decoder, command: Command) returns (r: Result<Request, DecodeError>)
    requires decoder.Valid()
    modifies decoder
    ensures decoder.Valid() && decoder.Reads(ParseRequestBody(old(decoder.Rest()), command), r)
  {
    hide PutArgument, ParseArgument, PutUnsigned, PutArray, PutBytes, ParseUnsigned, ParseArrayLength, ParseBytes,
      ParseId;
    if command == CREATE_QUEUE {
      var _ :- decoder.Array(5);
      var queue :- decoder.FixedId();
      var sender :- decoder.FixedId();
      var recipient :- decoder.FixedId();
      var maxMessages :- decoder.Unsigned();
      var maxMessageBytes :- decoder.Unsigned();
      if maxMessages == 0 || maxMessageBytes == 0 || maxMessageBytes > MAX_MESSAGE_BYTES {
        return Failure(InvalidProtocolValue);
      }
      return Success(CreateQueue(queue, sender, recipient, maxMessages, maxMessageBytes));
    } else if command == SEND {
      var _ :- decoder.Array(5);
      var queue :- decoder.FixedId();
      var sender :- decoder.FixedId();
      var message :- decoder.FixedId();
      var payload :- decoder.ByteString(MAX_MESSAGE_BYTES);
      var ttl :- decoder.Unsigned();
      return Success(Send(queue, sender, message, payload, ttl));
    } else if command == FETCH {
      var _ :- decoder.Array(2);
      var queue :- decoder.FixedId();
      var recipient :- decoder.FixedId();
      return Success(Fetch(queue, recipient));
    } else if command == ACK {
      var _ :- decoder.Array(3);
      var queue :- decoder.FixedId();
      var recipient :- decoder.FixedId();
      var message :- decoder.FixedId();
      return Success(Ack(queue, recipient, message));
    } else {
      var _ :- decoder.Array(2);
      var queue :- decoder.FixedId();
      var recipient :- decoder.FixedId();
      return Success(DeleteQueue(queue, recipient));
    }
  }

  method DecodePreamble(bytes: Bytes, max: nat) returns (r: Result<RequestId, DecodeError>)
    ensures match ParsePreamble(bytes, max)
            case Ok(id, _) => r == Success(id)
            case Fail(e) => r == Failure(e)
  {
    if |bytes| > max {
      return Failure(FrameTooLarge);
    }
    if |bytes| < PREAMBLE_BYTES {
      return Failure(Truncated);
    }
    if bytes[0] == 0 {
      return Failure(ReservedVersion);
    }
    var id: RequestId := bytes[1..17];
    if bytes[0] != VERSION {
      return Failure(UnsupportedVersion(bytes[0], id));
    }
    return Success(id);
  }

  method DecodeCommand(decoder: Decoder) returns (r: Result<Command, DecodeError>)
    requires decoder.Valid()
    modifies decoder
    ensures decoder.Valid() && decoder.Reads(ParseCommand(old(decoder.Rest())), r)
  {
    var value :- decoder.Unsigned();
    if value >= 256 {
      return Failure(InvalidValue);
    }
    if value == 0 || value > 5 {
      return Failure(InvalidProtocolValue);
    }
    return Success(value);
  }

  method DecodeRequest(bytes: Bytes) returns (r: Result<DecodedRequest, DecodeError>)
    ensures r == ParseRequest(bytes)
  {
    hide PutArgument, ParseArgument, PutUnsigned, PutArray, PutBytes, ParseUnsigned, ParseArrayLength, ParseBytes,
      ParseId;
    var requestId :- DecodePreamble(bytes, MAX_FRAME_BYTES);
    var decoder := new Decoder(bytes, PREAMBLE_BYTES);
    var _ :- decoder.Array(3);
    var _ :- decoder.Expect(0);
    var command :- DecodeCommand(decoder);
    var request :- DecodeRequestBody(decoder, command);
    var authenticatedEnd := decoder.offset;
    var auth :- decoder.ByteString(MAX_AUTH_BYTES);
    if decoder.offset != |bytes| {
      return Failure(TrailingBytes);
    }
    return Success(DecodedRequest(RequestFrame(requestId, request, auth), bytes[..authenticatedEnd]));
  }

  method DecodeFlag(decoder: Decoder) returns (r: Result<bool, DecodeError>)
    requires decoder.Valid()
    modifies decoder
    ensures decoder.Valid() && decoder.Reads(ParseFlag(old(decoder.Rest())), r)
  {
    var value :- decoder.Unsigned();
    if value >= 256 {
      return Failure(InvalidValue);
    }
    if value > 1 {
      return Failure(InvalidProtocolValue);
    }
    return Success(value == 1);
  }

  method DecodeResponseBody(decoder: Decoder, command: Command) returns (r: Result<ResponseBody, DecodeError>)
    requires decoder.Valid()
    modifies decoder
    ensures decoder.Valid() && decoder.Reads(ParseResponseBody(old(decoder.Rest()), command), r)
  {
    hide PutArgument, ParseArgument, PutUnsigned, PutArray, PutBytes, ParseUnsigned, ParseArrayLength, ParseBytes,
      ParseId;
    if command == CREATE_QUEUE {
      var _ :- decoder.Array(1);
      var existed :- DecodeFlag(decoder);
      return Success(QueueCreated(existed));
    } else if command == SEND {
      var _ :- decoder.Array(1);
      var duplicate :- DecodeFlag(decoder);
      return Success(Sent(duplicate));
    } else if command == FETCH {
      var length :- decoder.ArrayLength();
      if length == 1 {
        var _ :- decoder.Expect(0);
        return Success(Fetched(None));
      } else if length == 4 {
        var _ :- decoder.Expect(1);
        var message :- decoder.FixedId();
        var payload :- decoder.ByteString(MAX_MESSAGE_BYTES);
        var expiresAt :- decoder.Unsigned();
        return Success(Fetched(Some(Delivery(message, payload, expiresAt))));
      } else {
        return Failure(InvalidValue);
      }
    } else if command == ACK {
      var _ :- decoder.Array(0);
      return Success(Acked);
    } else {
      var _ :- decoder.Array(0);
      return Success(QueueDeleted);
    }
  }

  method DecodeResponse(bytes: Bytes) returns (r: Result<ResponseFrame, DecodeError>)
    ensures r == ParseResponse(bytes)
  {
    hide PutArgument, ParseArgument, PutUnsigned, PutArray, PutBytes, ParseUnsigned, ParseArrayLength, ParseBytes,
      ParseId;
    var requestId :- DecodePreamble(bytes, MAX_FRAME_BYTES);
    var decoder := new Decoder(bytes, PREAMBLE_BYTES);
    var _ :- decoder.Array(4);
    var _ :- decoder.Expect(1);
    var code :- decoder.Unsigned();
    var status :- decoder.Unsigned();
    if status >= 256 {
      return Failure(InvalidValue);
    }
    if status > 16 {
      return Failure(InvalidProtocolValue);
    }
    var response: Response;
    if status == OK {
      if code >= 256 {
        return Failure(InvalidValue);
      }
      if code == 0 || code > 5 {
        return Failure(InvalidProtocolValue);
      }
      var body :- DecodeResponseBody(decoder, code);
      response := Completed(body);
    } else {
      var _ :- decoder.Array(0);
      if code >= 256 {
        return Failure(InvalidValue);
      }
      if code > 5 {
        return Failure(InvalidProtocolValue);
      }
      response := Refused(if code == 0 then None else Some(code), status);
    }
    if decoder.offset != |bytes| {
      return Failure(TrailingBytes);
    }
    return Success(ResponseFrame(requestId, response));
  }

  method EncodePreamble(output: Output, id: RequestId)
    modifies output
    ensures forall t :: output.data + t == old(output.data) + PutPreamble(id, t)
  {
    ghost var before := output.data;
    output.data := output.data + [VERSION];
    output.data := output.data + id;
    forall t ensures output.data + t == before + PutPreamble(id, t) {
    }
  }

  method EncodeRequestPayload(output: Output, r: Request)
    requires r.Valid()
    modifies output
    ensures forall t :: output.data + t == old(output.data) + PutRequestPayload(r, t)
  {
    output.Array(3);
    output.Unsigned(0);
    output.Unsigned(r.Command());
    match r
    case CreateQueue(q, s, d, m, n) =>
      output.Array(5);
      output.ByteString(q);
      output.ByteString(s);
      output.ByteString(d);
      output.Unsigned(m);
      output.Unsigned(n);
    case Send(q, s, m, p, ttl) =>
      output.Array(5);
      output.ByteString(q);
      output.ByteString(s);
      output.ByteString(m);
      output.ByteString(p);
      output.Unsigned(ttl);
    case Fetch(q, d) =>
      output.Array(2);
      output.ByteString(q);
      output.ByteString(d);
    case Ack(q, d, m) =>
      output.Array(3);
      output.ByteString(q);
      output.ByteString(d);
      output.ByteString(m);
    case DeleteQueue(q, d) =>
      output.Array(2);
      output.ByteString(q);
      output.ByteString(d);
  }

  method EncodeAuthenticatedRequest(id: RequestId, r: Request) returns (bytes: Bytes)
    requires r.Valid()
    ensures bytes == AuthenticatedBytes(id, r)
  {
    hide PutRequestPayload, PutPreamble;
    var output := new Output();
    EncodePreamble(output, id);
    EncodeRequestPayload(output, r);
    bytes := output.data;
    assert bytes == bytes + [] == [] + AuthenticatedBytes(id, r) == AuthenticatedBytes(id, r);
  }

  /** The frame bound asserted after encoding always holds. */
  method EncodeRequest(f: RequestFrame) returns (bytes: Bytes)
    requires f.Valid()
    ensures bytes == RequestBytes(f)
    ensures |bytes| <= MAX_FRAME_BYTES
  {
    var output := new Output();
    output.data := EncodeAuthenticatedRequest(f.requestId, f.request);
    output.ByteString(f.auth);
    bytes := output.data;
    assert bytes + [] == AuthenticatedBytes(f.requestId, f.request) + PutBytes(f.auth, []);
    PutPrepends(f, PutBytes(f.auth, []));
    RequestFits(f);
  }

  method EncodeResponsePayload(output: Output, r: Response)
    requires r.Valid()
    modifies output
    ensures forall t :: output.data + t == old(output.data) + PutResponsePayload(r, t)
  {
    hide PutUnsigned, PutArray, PutResponseBody;
    output.Array(4);
    output.Unsigned(1);
    output.Unsigned(r.CommandCode());
    output.Unsigned(r.StatusCode());
    match r
    case Refused(_, _) => output.Array(0);
    case Completed(body) => EncodeSuccessBody(output, body);
  }

  method EncodeResponse(f: ResponseFrame) returns (bytes: Bytes)
    requires f.response.Valid()
    ensures bytes == ResponseBytes(f)
    ensures |bytes| < MAX_FRAME_BYTES
  {
    hide PutResponsePayload, PutPreamble;
    var output := new Output();
    EncodePreamble(output, f.requestId);
    EncodeResponsePayload(output, f.response);
    bytes := output.data;
    assert bytes == bytes + [] == [] + ResponseBytes(f) == ResponseBytes(f);
    ResponseFits(f);
  }

  method EncodeSuccessBody(output: Output, body: ResponseBody)
    requires body.Valid()
    modifies output
    ensures forall t :: output.data + t == old(output.data) + PutResponseBody(body, t)
  {
    match body
    case QueueCreated(existed) =>
      output.Array(1);
      output.Unsigned(Flag(existed));
    case Sent(duplicate) =>
      output.Array(1);
      output.Unsigned(Flag(duplicate));
    case Fetched(None) =>
      output.Array(1);
      output.Unsigned(0);
    case Fetched(Some(d)) =>
      output.Array(4);
      output.Unsigned(1);
      output.ByteString(d.messageId);
      output.ByteString(d.payload);
      output.Unsigned(d.expiresAt);
    case _ =>
      output.Array(0);
  }
}
