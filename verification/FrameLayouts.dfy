/** Every frame of both profiles byte by byte: command codes, statuses, and the fields in their order. */
module FrameLayouts {
  import opened Base
  import opened Cbor
  import opened QueueCodec
  import BC = BlobCodec
  import DB = DurableBlob
  import BS = BlobService
  import L = Layouts
  import M = Manifest
  import QS = QueueService
  import Relay

  /** A 32-byte identifier as an item. */
  function Item(x: Id): Bytes {
    [0x58, 0x20] + x
  }

  lemma ItemFirst(x: Id, tail: Bytes)
    ensures PutBytes(x, tail) == Item(x) + tail
  {
    L.IdItem(x, tail);
    assert [0x58, 0x20] + (x + tail) == Item(x) + tail;
  }

  /** Version, identifier, and the four bytes that open every request. */
  function RequestStart(id: RequestId, command: Byte, arity: nat): Bytes
    requires arity < 8
  {
    [0x01] + id + [0x83, 0x00, command, 0x80 + arity]
  }

  /** Version, identifier, and the five bytes that open every response. */
  function ResponseStart(id: RequestId, command: Byte, status: Byte, arity: nat): Bytes
    requires arity < 8
  {
    [0x01] + id + [0x84, 0x01, command, status, 0x80 + arity]
  }

  lemma Requests(id: RequestId, command: nat, arity: nat, tail: Bytes)
    requires command < 24 && arity < 8
    ensures PutPreamble(id, PutArray(3, PutUnsigned(0, PutUnsigned(command, PutArray(arity, tail)))))
            == RequestStart(id, command, arity) + tail
  {
    hide PutArray, PutUnsigned;
    L.RequestHead(command, arity, tail);
    var head := [0x83, 0x00, command, 0x80 + arity];
    assert [0x01] + (id + (head + tail)) == [0x01] + id + head + tail;
  }

  lemma Responses(id: RequestId, command: nat, status: nat, arity: nat, tail: Bytes)
    requires command < 24 && status < 24 && arity < 8
    ensures var body := PutArray(arity, tail);
            PutPreamble(id, PutArray(4, PutUnsigned(1, PutUnsigned(command, PutUnsigned(status, body)))))
            == ResponseStart(id, command, status, arity) + tail
  {
    var t := PutArray(arity, tail);
    assert t == [0x80 + arity] + tail;
    assert PutUnsigned(status, t) == [status] + t;
    assert PutUnsigned(command, [status] + t) == [command] + ([status] + t);
    hide PutArgument;
    assert PutArray(4, PutUnsigned(1, [command] + ([status] + t))) == [0x84, 0x01] + ([command] + ([status] + t)) by {
      ArrayOfFour([command] + ([status] + t));
    }
    var head := [0x84, 0x01, command, status, 0x80 + arity];
    assert [0x84, 0x01] + ([command] + ([status] + t)) == head + tail;
    assert [0x01] + (id + (head + tail)) == [0x01] + id + head + tail;
  }

  lemma ArrayOfFour(tail: Bytes)
    ensures PutArray(4, PutUnsigned(1, tail)) == [0x84, 0x01] + tail
  {
  }

  // ----- the queue profile -----

  lemma CreateQueueLayout(id: RequestId, q: Id, s: Id, d: Id, m: U64, n: U64, auth: Bytes)
    requires 1 <= m && 1 <= n <= MAX_MESSAGE_BYTES && |auth| <= MAX_AUTH_BYTES
    ensures RequestBytes(RequestFrame(id, CreateQueue(q, s, d, m, n), auth))
            == RequestStart(id, 1, 5)
               + (Item(q) + (Item(s) + (Item(d) + PutUnsigned(m, PutUnsigned(n, PutBytes(auth, []))))))
  {
    hide PutArray, PutUnsigned, PutBytes, RequestStart, PutPreamble;
    var t := PutUnsigned(m, PutUnsigned(n, PutBytes(auth, [])));
    ItemFirst(d, t);
    ItemFirst(s, PutBytes(d, t));
    ItemFirst(q, PutBytes(s, PutBytes(d, t)));
    Requests(id, 1, 5, PutBytes(q, PutBytes(s, PutBytes(d, t))));
  }

  lemma SendLayout(id: RequestId, q: Id, s: Id, m: Id, p: Bytes, ttl: U64, auth: Bytes)
    requires |p| <= MAX_MESSAGE_BYTES && |auth| <= MAX_AUTH_BYTES
    ensures RequestBytes(RequestFrame(id, Send(q, s, m, p, ttl), auth))
            == RequestStart(id, 2, 5)
               + (Item(q) + (Item(s) + (Item(m) + PutBytes(p, PutUnsigned(ttl, PutBytes(auth, []))))))
  {
    hide PutArray, PutUnsigned, PutBytes, RequestStart, PutPreamble;
    var t := PutBytes(p, PutUnsigned(ttl, PutBytes(auth, [])));
    ItemFirst(m, t);
    ItemFirst(s, PutBytes(m, t));
    ItemFirst(q, PutBytes(s, PutBytes(m, t)));
    Requests(id, 2, 5, PutBytes(q, PutBytes(s, PutBytes(m, t))));
  }

  lemma RecipientLayouts(id: RequestId, q: Id, d: Id, m: Id, auth: Bytes)
    requires |auth| <= MAX_AUTH_BYTES
    ensures RequestBytes(RequestFrame(id, Fetch(q, d), auth))
            == RequestStart(id, 3, 2) + (Item(q) + (Item(d) + PutBytes(auth, [])))
    ensures RequestBytes(RequestFrame(id, Ack(q, d, m), auth))
            == RequestStart(id, 4, 3) + (Item(q) + (Item(d) + (Item(m) + PutBytes(auth, []))))
    ensures RequestBytes(RequestFrame(id, DeleteQueue(q, d), auth))
            == RequestStart(id, 5, 2) + (Item(q) + (Item(d) + PutBytes(auth, [])))
  {
    hide PutArray, PutUnsigned, PutBytes, RequestStart, PutPreamble;
    var t := PutBytes(auth, []);
    ItemFirst(d, t);
    ItemFirst(q, PutBytes(d, t));
    Requests(id, 3, 2, PutBytes(q, PutBytes(d, t)));
    Requests(id, 5, 2, PutBytes(q, PutBytes(d, t)));
    ItemFirst(m, t);
    ItemFirst(d, PutBytes(m, t));
    ItemFirst(q, PutBytes(d, PutBytes(m, t)));
    Requests(id, 4, 3, PutBytes(q, PutBytes(d, PutBytes(m, t))));
  }

  function Bit(b: bool): Byte {
    if b then 1 else 0
  }

  lemma SmallUnsigned(v: nat, tail: Bytes)
    requires v < 24
    ensures PutUnsigned(v, tail) == [v] + tail
  {
  }

  lemma LastUnsigned(v: nat)
    requires v < 24
    ensures PutUnsigned(v, []) == [v]
  {
  }

  lemma QueueSuccessLayouts(id: RequestId, again: bool)
    ensures ResponseBytes(ResponseFrame(id, Completed(QueueCreated(again)))) ==
              ResponseStart(id, 1, 0, 1) + [Bit(again)]
    ensures ResponseBytes(ResponseFrame(id, Completed(Sent(again)))) == ResponseStart(id, 2, 0, 1) + [Bit(again)]
    ensures ResponseBytes(ResponseFrame(id, Completed(Fetched(None)))) == ResponseStart(id, 3, 0, 1) + [0]
    ensures ResponseBytes(ResponseFrame(id, Completed(Acked))) == ResponseStart(id, 4, 0, 0)
    ensures ResponseBytes(ResponseFrame(id, Completed(QueueDeleted))) == ResponseStart(id, 5, 0, 0)
  {
    hide PutArray, PutUnsigned, ResponseStart, PutPreamble;
    LastUnsigned(Flag(again));
    LastUnsigned(0);
    Responses(id, 1, 0, 1, [Bit(again)]);
    Responses(id, 2, 0, 1, [Bit(again)]);
    Responses(id, 3, 0, 1, [0]);
    Responses(id, 4, 0, 0, []);
    Responses(id, 5, 0, 0, []);
  }

  lemma DeliveryLayout(id: RequestId, d: Delivery)
    requires |d.payload| <= MAX_MESSAGE_BYTES
    ensures ResponseBytes(ResponseFrame(id, Completed(Fetched(Some(d)))))
            == ResponseStart(id, 3, 0, 4)
               + ([1] + (Item(d.messageId) + PutBytes(d.payload, PutUnsigned(d.expiresAt, []))))
  {
    hide PutArray, PutUnsigned, PutBytes, ResponseStart, PutPreamble;
    var t := PutBytes(d.payload, PutUnsigned(d.expiresAt, []));
    ItemFirst(d.messageId, t);
    SmallUnsigned(1, PutBytes(d.messageId, t));
    Responses(id, 3, 0, 4, PutUnsigned(1, PutBytes(d.messageId, t)));
  }

  /** A refusal: the command it answers or zero, its status, and an empty body. */
  lemma RefusalLayout(id: RequestId, command: Option<Command>, status: Status)
    requires status != OK
    ensures ResponseBytes(ResponseFrame(id, Refused(command, status)))
            == ResponseStart(id, match command case None => 0 case Some(c) => c, status, 0)
  {
    hide PutArray, PutUnsigned, ResponseStart, PutPreamble;
    Responses(id, match command case None => 0 case Some(c) => c, status, 0, []);
  }

  /** The registered numbers of the queue profile's statuses. */
  lemma QueueStatuses()
    ensures OK == 0 && UNSUPPORTED_VERSION == 1 && MALFORMED_FRAME == 2 && FRAME_TOO_LARGE == 3 && UNKNOWN_COMMAND == 4
    ensures QS.StatusOf(Relay.QueueNotFound) == 5 && QS.StatusOf(Relay.Unauthorized) == 6
    ensures QS.StatusOf(Relay.QueueIdConflict) == 7 && QS.StatusOf(Relay.MessageIdConflict) == 8
    ensures QS.StatusOf(Relay.MessageTooLarge) == 9 && QS.StatusOf(Relay.QueueFull) == 10
    ensures QS.StatusOf(Relay.ExpiryOverflow) == 11 && QS.StatusOf(Relay.AckMismatch) == 12
    ensures QS.StatusOf(Relay.NotDelivered) == 13 && AUTH_INVALID == 14
    ensures QS.StatusOf(Relay.LimitOutOfRange) == 15 && AUTH_REPLAY == 16
  {
  }

  // ----- the blob profile -----

  lemma BeginUploadLayout(id: RequestId, u: Id, c: BC.Capabilities, m: M.Manifest, ttl: U64, auth: Bytes)
    requires m.Valid() && |auth| == BC.AUTH_BYTES
    ensures BC.BlobRequestBytes(BC.BlobFrame(id, BC.BeginUpload(u, c, m, ttl), auth))
            == RequestStart(id, 1, 7)
               + (Item(u) + (Item(c.upload) + (Item(c.download) + (Item(c.renew) + (Item(c.delete)
               + PutBytes(M.ManifestBytes(m), PutUnsigned(ttl, PutBytes(auth, []))))))))
  {
    hide PutArray, PutUnsigned, PutBytes, RequestStart, PutPreamble, M.ManifestBytes;
    var t := PutBytes(M.ManifestBytes(m), PutUnsigned(ttl, PutBytes(auth, [])));
    ItemFirst(c.delete, t);
    ItemFirst(c.renew, PutBytes(c.delete, t));
    ItemFirst(c.download, PutBytes(c.renew, PutBytes(c.delete, t)));
    ItemFirst(c.upload, PutBytes(c.download, PutBytes(c.renew, PutBytes(c.delete, t))));
    ItemFirst(u, PutBytes(c.upload, PutBytes(c.download, PutBytes(c.renew, PutBytes(c.delete, t)))));
    Requests(id, 1, 7, BC.PutGrant(u, c, t));
  }

  lemma PutChunkLayout(id: RequestId, u: Id, cap: Id, i: U32, x: Bytes, auth: Bytes)
    requires |x| < U64_LIMIT && |auth| == BC.AUTH_BYTES
    ensures BC.BlobRequestBytes(BC.BlobFrame(id, BC.PutChunk(u, cap, i, x), auth))
            == RequestStart(id, 2, 4) + (Item(u) + (Item(cap) + PutUnsigned(i, PutBytes(x, PutBytes(auth, [])))))
  {
    hide PutArray, PutUnsigned, PutBytes, RequestStart, PutPreamble;
    var t := PutUnsigned(i, PutBytes(x, PutBytes(auth, [])));
    ItemFirst(cap, t);
    ItemFirst(u, PutBytes(cap, t));
    Requests(id, 2, 4, PutBytes(u, PutBytes(cap, t)));
  }

  lemma ObjectLayouts(id: RequestId, b: Id, cap: Id, i: U32, ttl: U64, auth: Bytes)
    requires |auth| == BC.AUTH_BYTES
    ensures BC.BlobRequestBytes(BC.BlobFrame(id, BC.GetManifest(b, cap), auth))
            == RequestStart(id, 4, 2) + (Item(b) + (Item(cap) + PutBytes(auth, [])))
    ensures BC.BlobRequestBytes(BC.BlobFrame(id, BC.GetChunk(b, cap, i), auth))
            == RequestStart(id, 5, 3) + (Item(b) + (Item(cap) + PutUnsigned(i, PutBytes(auth, []))))
    ensures BC.BlobRequestBytes(BC.BlobFrame(id, BC.Renew(b, cap, ttl), auth))
            == RequestStart(id, 6, 3) + (Item(b) + (Item(cap) + PutUnsigned(ttl, PutBytes(auth, []))))
    ensures BC.BlobRequestBytes(BC.BlobFrame(id, BC.Delete(b, cap), auth))
            == RequestStart(id, 7, 2) + (Item(b) + (Item(cap) + PutBytes(auth, [])))
  {
    hide PutArray, PutUnsigned, PutBytes, RequestStart, PutPreamble;
    var t := PutBytes(auth, []);
    TwoItems(id, 4, 2, b, cap, t);
    TwoItems(id, 5, 3, b, cap, PutUnsigned(i, t));
    TwoItems(id, 6, 3, b, cap, PutUnsigned(ttl, t));
    TwoItems(id, 7, 2, b, cap, t);
  }

  lemma TwoItems(id: RequestId, command: nat, arity: nat, x: Id, y: Id, tail: Bytes)
    requires command < 24 && arity < 8
    ensures var body := PutArray(arity, PutBytes(x, PutBytes(y, tail)));
            PutPreamble(id, PutArray(3, PutUnsigned(0, PutUnsigned(command, body))))
            == RequestStart(id, command, arity) + (Item(x) + (Item(y) + tail))
  {
    hide PutArray, PutUnsigned, PutBytes, RequestStart, PutPreamble;
    ItemFirst(y, tail);
    ItemFirst(x, PutBytes(y, tail));
    Requests(id, command, arity, PutBytes(x, PutBytes(y, tail)));
  }

  function Fulfilled(id: RequestId, command: BC.BlobCommand, body: BC.BlobBody): BC.BlobReply {
    BC.BlobReply(id, BC.BlobResponse(Some(command), 0, Some(body)))
  }

  lemma BlobSuccessLayouts(id: RequestId, again: bool, t: U64)
    ensures BC.BlobResponseBytes(Fulfilled(id, 1, BC.Begun(again))) == ResponseStart(id, 1, 0, 1) + [Bit(again)]
    ensures BC.BlobResponseBytes(Fulfilled(id, 2, BC.ChunkPut(again))) == ResponseStart(id, 2, 0, 1) + [Bit(again)]
    ensures BC.BlobResponseBytes(Fulfilled(id, 3, BC.Committed(t))) == ResponseStart(id, 3, 0, 1) + PutUnsigned(t, [])
    ensures BC.BlobResponseBytes(Fulfilled(id, 6, BC.Renewed(t))) == ResponseStart(id, 6, 0, 1) + PutUnsigned(t, [])
    ensures BC.BlobResponseBytes(Fulfilled(id, 7, BC.Deleted)) == ResponseStart(id, 7, 0, 0)
  {
    hide PutArray, PutUnsigned, ResponseStart, PutPreamble;
    LastUnsigned(Flag(again));
    Responses(id, 1, 0, 1, [Bit(again)]);
    Responses(id, 2, 0, 1, [Bit(again)]);
    Responses(id, 3, 0, 1, PutUnsigned(t, []));
    Responses(id, 6, 0, 1, PutUnsigned(t, []));
    Responses(id, 7, 0, 0, []);
  }

  lemma BlobReadLayouts(id: RequestId, m: M.Manifest, x: Bytes, t: U64)
    requires m.Valid() && |x| < U64_LIMIT
    ensures BC.BlobResponseBytes(Fulfilled(id, 4, BC.ManifestGot(m, t)))
            == ResponseStart(id, 4, 0, 2) + PutBytes(M.ManifestBytes(m), PutUnsigned(t, []))
    ensures BC.BlobResponseBytes(Fulfilled(id, 5, BC.ChunkGot(x, t)))
            == ResponseStart(id, 5, 0, 2) + PutBytes(x, PutUnsigned(t, []))
  {
    hide PutArray, PutUnsigned, PutBytes, ResponseStart, PutPreamble, M.ManifestBytes;
    Responses(id, 4, 0, 2, PutBytes(M.ManifestBytes(m), PutUnsigned(t, [])));
    Responses(id, 5, 0, 2, PutBytes(x, PutUnsigned(t, [])));
  }

  lemma BlobRefusalLayout(id: RequestId, command: Option<BC.BlobCommand>, status: BC.BlobStatus)
    requires status != BC.BLOB_OK
    ensures BC.BlobResponseBytes(BC.BlobReply(id, BC.Declined(command, status)))
            == ResponseStart(id, match command case None => 0 case Some(c) => c, status, 0)
  {
    hide PutArray, PutUnsigned, ResponseStart, PutPreamble;
    Responses(id, match command case None => 0 case Some(c) => c, status, 0, []);
  }

  /** The registered numbers of the blob profile's statuses. */
  lemma BlobStatuses()
    ensures BC.BLOB_OK == 0 && BC.BLOB_UNSUPPORTED_VERSION == 1 && BC.BLOB_MALFORMED_FRAME == 2
    ensures BC.BLOB_FRAME_TOO_LARGE == 3 && BC.BLOB_UNKNOWN_COMMAND == 4
    ensures BS.StatusOf(DB.NotFound) == 5 && BS.StatusOf(DB.Unauthorized) == 6 && BS.StatusOf(DB.IdConflict) == 7
    ensures BS.StatusOf(DB.LimitOutOfRange) == 8 && BS.StatusOf(DB.ChunkConflict) == 9
    ensures BS.StatusOf(DB.Incomplete) == 10 && BS.StatusOf(DB.IdentityMismatch) == 11 && BS.StatusOf(DB.Expired) == 12
    ensures BC.BLOB_AUTH_INVALID == 13 && BC.BLOB_AUTH_REPLAY == 14
  {
  }
}
