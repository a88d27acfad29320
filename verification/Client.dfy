/** The sender and recipient state machines of the client. */
module Client {
  import opened Base
  import opened QueueCodec

  type Auth = s: Bytes | |s| <= MAX_AUTH_BYTES witness []

  /** One device's view of a queue: its identifiers and what its keys do.
      `sign` makes a proof over request bytes, `verify` checks the sender's, and `open` authenticates and
      decrypts a payload under a message identifier. */
  datatype Device = Device(queue: Id, sender: Id, recipient: Id,
                           sign: Bytes -> Auth, verify: (Id, Bytes, Bytes) -> bool, open: (Id, Bytes) -> Option<Bytes>)

  datatype ClientError =
    | Transport
    | Decode
    | Crypto
    | ResponseRequestIdMismatch
    | ResponseCommandMismatch
    | Refusal(status: Status)
    | UnexpectedResponse
    | Store
    | InvalidPreparedSend

  function SignedFrame(sign: Bytes -> Auth, id: RequestId, r: Request): Bytes
    requires r.Valid()
  {
    RequestBytes(RequestFrame(id, r, sign(AuthenticatedBytes(id, r))))
  }

  /** A response counts only for the outstanding request: same identifier, same command. */
  function CheckedResponse(bytes: Bytes, id: RequestId, command: Command): Result<Response, ClientError> {
    match ParseResponse(bytes)
    case Failure(_) => Failure(Decode)
    case Success(f) =>
      if f.requestId != id then Failure(ResponseRequestIdMismatch)
      else if f.response.Command() != Some(command) then Failure(ResponseCommandMismatch)
      else Success(f.response)
  }

  // ----- sender -----

  /** What an outbox must persist before sending. */
  datatype PreparedSend = PreparedSend(requestId: RequestId, messageId: Id, frame: Bytes)

  function Prepare(u: Device, id: RequestId, message: Id, ciphertext: Bytes, ttl: U64): PreparedSend
    requires |ciphertext| <= MAX_MESSAGE_BYTES
  {
    PreparedSend(id, message, SignedFrame(u.sign, id, Send(u.queue, u.sender, message, ciphertext, ttl)))
  }

  /** Rebuilds the prepared state from persisted bytes after a restart. */
  function Restore(u: Device, bytes: Bytes): Result<PreparedSend, ClientError> {
    match ParseRequest(bytes)
    case Failure(_) => Failure(InvalidPreparedSend)
    case Success(d) =>
      var f := d.frame;
      if !u.verify(u.sender, d.authenticated, f.auth) then Failure(InvalidPreparedSend)
      else
        match f.request
        case Send(q, s, m, _, _) =>
          if q == u.queue && s == u.sender then Success(PreparedSend(f.requestId, m, bytes))
            else Failure(InvalidPreparedSend)
        case _ => Failure(InvalidPreparedSend)
  }

  /** A restart loses nothing: restoring a prepared frame gives the prepared state back. */
  lemma RestoreOfPrepare(u: Device, id: RequestId, message: Id, ciphertext: Bytes, ttl: U64)
    requires |ciphertext| <= MAX_MESSAGE_BYTES
    requires forall b :: u.verify(u.sender, b, u.sign(b))
    ensures var p := Prepare(u, id, message, ciphertext, ttl); Restore(u, p.frame) == Success(p)
  {
    hide ParseRequest, RequestBytes, AuthenticatedBytes;
    var r := Send(u.queue, u.sender, message, ciphertext, ttl);
    var a := AuthenticatedBytes(id, r);
    var f := RequestFrame(id, r, u.sign(a));
    RequestExact(RequestBytes(f), DecodedRequest(f, a));
  }

  /** Restoring accepts exactly the frames that carry a valid SEND of this sender on this queue. */
  lemma RestoreExact(u: Device, bytes: Bytes, p: PreparedSend)
    ensures Restore(u, bytes) == Success(p) <==>
              exists f: RequestFrame ::
                && f.Valid() && bytes == RequestBytes(f)
                && f.request.Send? && f.request.queueId == u.queue && f.request.sender == u.sender
                && p == PreparedSend(f.requestId, f.request.messageId, bytes)
                && u.verify(u.sender, AuthenticatedBytes(f.requestId, f.request), f.auth)
  {
    hide ParseRequest, RequestBytes, AuthenticatedBytes;
    if ParseRequest(bytes).Success? {
      RequestExact(bytes, ParseRequest(bytes).value);
    }
    forall f: RequestFrame | f.Valid() && bytes == RequestBytes(f)
      ensures ParseRequest(bytes) == Success(DecodedRequest(f, AuthenticatedBytes(f.requestId, f.request)))
    {
      RequestExact(bytes, DecodedRequest(f, AuthenticatedBytes(f.requestId, f.request)));
    }
  }

  function SendResult(reply: Option<Bytes>, id: RequestId): Result<bool, ClientError> {
    match reply
    case None => Failure(Transport)
    case Some(bytes) =>
      var response :- CheckedResponse(bytes, id, SEND);
      match response
      case Completed(Sent(duplicate)) => Success(duplicate)
      case Refused(_, status) => Failure(Refusal(status))
      case _ => Failure(UnexpectedResponse)
  }

  /** A send completes exactly on the canonical success response to this request identifier. */
  lemma SendResultExact(reply: Option<Bytes>, id: RequestId, duplicate: bool)
    ensures SendResult(reply, id) == Success(duplicate) <==>
              reply == Some(ResponseBytes(ResponseFrame(id, Completed(Sent(duplicate)))))
  {
    hide ParseResponse, ResponseBytes;
    var f := ResponseFrame(id, Completed(Sent(duplicate)));
    ResponseExact(ResponseBytes(f), f);
    if reply.Some? && ParseResponse(reply.value).Success? {
      ResponseExact(reply.value, ParseResponse(reply.value).value);
    }
  }

  // ----- recipient -----

  datatype Opened = Opened(messageId: Id, plaintext: Bytes)

  /** Checks a FETCH response and authenticates the delivery in it, if there is one. */
  function Incoming(u: Device, id: RequestId, reply: Option<Bytes>): Result<Option<Opened>, ClientError> {
    match reply
    case None => Failure(Transport)
    case Some(bytes) =>
      var response :- CheckedResponse(bytes, id, FETCH);
      match response
      case Completed(Fetched(None)) => Success(None)
      case Completed(Fetched(Some(d))) =>
        (match u.open(d.messageId, d.payload)
         case None => Failure(Crypto)
         case Some(plaintext) => Success(Some(Opened(d.messageId, plaintext))))
      case Refused(_, status) => Failure(Refusal(status))
      case _ => Failure(UnexpectedResponse)
  }

  /** The inbox after a commit that succeeds: a message is applied once, under its identifier. */
  function Commit(inbox: map<Id, Bytes>, m: Opened): map<Id, Bytes> {
    if m.messageId in inbox then inbox else inbox[m.messageId := m.plaintext]
  }

  datatype PollOutcome = Empty | Applied(id: Id) | RedeliveryAcknowledged(id: Id)

  /** Inbox, frames sent, and result of one poll. */
  datatype Polled = Polled(inbox: map<Id, Bytes>, sent: seq<Bytes>, result: Result<PollOutcome, ClientError>)

  function FetchFrame(u: Device, id: RequestId): Bytes {
    SignedFrame(u.sign, id, Fetch(u.queue, u.recipient))
  }

  function AckFrame(u: Device, id: RequestId, message: Id): Bytes {
    SignedFrame(u.sign, id, Ack(u.queue, u.recipient, message))
  }

  /** FETCH, authenticate and decrypt, durable commit, ACK. The replies and the store's success are what
      the environment supplies; an absent reply is a transport failure. */
  function Polling(u: Device, inbox: map<Id, Bytes>, fetchId: RequestId, fetchReply: Option<Bytes>, stores: bool,
                   ackId: RequestId, ackReply: Option<Bytes>): Polled
  {
    var fetch := FetchFrame(u, fetchId);
    match Incoming(u, fetchId, fetchReply)
    case Failure(e) => Polled(inbox, [fetch], Failure(e))
    case Success(None) => Polled(inbox, [fetch], Success(Empty))
    case Success(Some(m)) =>
      if !stores then Polled(inbox, [fetch], Failure(Store))
      else
        Polled(Commit(inbox, m), [fetch, AckFrame(u, ackId, m.messageId)],
               match ackReply
               case None => Failure(Transport)
               case Some(bytes) =>
                 var response :- CheckedResponse(bytes, ackId, ACK);
                 (match response
                  case Completed(Acked) =>
                    Success(if m.messageId in inbox then RedeliveryAcknowledged(m.messageId) else Applied(m.messageId))
                  case Refused(_, status) => Failure(Refusal(status))
                  case _ => Failure(UnexpectedResponse)))
  }

  /** Transport and inbox as the state machine drives them: a script of replies, and a log of frames. */
  class Environment {
    var inbox: map<Id, Bytes>
    var sent: seq<Bytes>

    constructor (inbox: map<Id, Bytes>)
      ensures this.inbox == inbox && sent == []
    {
      this.inbox := inbox;
      this.sent := [];
    }

    method Transmit(frame: Bytes)
      modifies this`sent
      ensures sent == old(sent) + [frame]
    {
      sent := sent + [frame];
    }

    method Store(m: Opened, stores: bool) returns (r: Result<bool, ClientError>)
      modifies this`inbox
      ensures !stores ==> r == Failure(ClientError.Store) && inbox == old(inbox)
      ensures stores ==> r == Success(m.messageId !in old(inbox)) && inbox == Commit(old(inbox), m)
    {
      if !stores {
        return Failure(ClientError.Store);
      }
      r := Success(m.messageId !in inbox);
      if m.messageId !in inbox {
        inbox := inbox[m.messageId := m.plaintext];
      }
    }

    method Poll(u: Device, fetchId: RequestId, fetchReply: Option<Bytes>, stores: bool, ackId: RequestId,
                ackReply: Option<Bytes>)
      returns (r: Result<PollOutcome, ClientError>)
      modifies this
      ensures old(sent) <= sent
      ensures Polled(inbox, sent[|old(sent)|..], r) ==
                Polling(u, old(inbox), fetchId, fetchReply, stores, ackId, ackReply)
    {
      hide RequestBytes, AuthenticatedBytes, CheckedResponse;
      Transmit(SignedFrame(u.sign, fetchId, Fetch(u.queue, u.recipient)));
      var incoming :- Incoming(u, fetchId, fetchReply);
      if incoming.None? {
        return Success(Empty);
      }
      var message := incoming.value;
      var applied :- Store(message, stores);
      Transmit(SignedFrame(u.sign, ackId, Ack(u.queue, u.recipient, message.messageId)));
      assert sent[|old(sent)|..] == [FetchFrame(u, fetchId), AckFrame(u, ackId, message.messageId)];
      if ackReply.None? {
        return Failure(Transport);
      }
      var response :- CheckedResponse(ackReply.value, ackId, ACK);
      match response
      case Completed(Acked) =>
        return Success(if applied then Applied(message.messageId) else RedeliveryAcknowledged(message.messageId));
      case Refused(_, status) => return Failure(Refusal(status));
      case _ => return Failure(UnexpectedResponse);
    }
  }

  /** An ACK is sent only for a message that is durably in the inbox, with the plaintext first opened for
      it; any failure before the commit sends none and stores nothing. */
  lemma AckOnlyAfterCommit(u: Device, inbox: map<Id, Bytes>, fetchId: RequestId, fetchReply: Option<Bytes>,
                           stores: bool, ackId: RequestId, ackReply: Option<Bytes>)
    ensures var p := Polling(u, inbox, fetchId, fetchReply, stores, ackId, ackReply);
            && (forall m :: m in inbox ==> m in p.inbox && p.inbox[m] == inbox[m])
            && (|p.sent| == 1 ==> p.inbox == inbox)
            && (|p.sent| != 1 ==>
                  exists m: Id :: p.sent == [FetchFrame(u, fetchId), AckFrame(u, ackId, m)] && m in p.inbox
                    && p.inbox.Keys == inbox.Keys + {m})
            && (p.result.Success? && !p.result.value.Empty? ==> p.result.value.id in p.inbox && |p.sent| == 2)
  {
    hide FetchFrame, AckFrame, CheckedResponse;
  }

  // ----- what replies make of a poll -----

  /** The canonical response with this answer to the request with this identifier. */
  predicate Says(reply: Option<Bytes>, id: RequestId, response: Response) {
    response.Valid() && reply == Some(ResponseBytes(ResponseFrame(id, response)))
  }

  /** A checked response is the canonical encoding of it, and every such encoding passes. */
  lemma CheckedExactly(bytes: Bytes, id: RequestId, command: Command, response: Response)
    ensures CheckedResponse(bytes, id, command) == Success(response) <==>
              Says(Some(bytes), id, response) && response.Command() == Some(command)
  {
    hide ParseResponse, ResponseBytes;
    ResponseExact(bytes, ResponseFrame(id, response));
  }

  /** Why a response does not count: it is no response, it answers another request, or another command. */
  lemma CheckFailsExactly(bytes: Bytes, id: RequestId, command: Command)
    ensures var a := CheckedResponse(bytes, id, command);
            && (a == Failure(Decode) <==> forall f: ResponseFrame :: f.response.Valid() ==> bytes != ResponseBytes(f))
            && (a == Failure(ResponseRequestIdMismatch) <==>
                  exists f: ResponseFrame :: f.response.Valid() && bytes == ResponseBytes(f) && f.requestId != id)
            && (a == Failure(ResponseCommandMismatch) <==>
                  exists f: ResponseFrame :: f.response.Valid() && bytes == ResponseBytes(f) && f.requestId == id
                                             && f.response.Command() != Some(command))
  {
    hide ParseResponse, ResponseBytes;
    if ParseResponse(bytes).Success? {
      ResponseExact(bytes, ParseResponse(bytes).value);
    }
    forall f: ResponseFrame | f.response.Valid() && bytes == ResponseBytes(f)
      ensures ParseResponse(bytes) == Success(f)
    {
      ResponseExact(bytes, f);
    }
  }

  lemma CheckedIsSaid(bytes: Bytes, id: RequestId, command: Command)
    ensures var a := CheckedResponse(bytes, id, command);
            match a
            case Success(response) => Says(Some(bytes), id, response) && response.Command() == Some(command)
            case Failure(e) => e in {Decode, ResponseRequestIdMismatch, ResponseCommandMismatch}
  {
    hide ParseResponse, ResponseBytes;
    var a := CheckedResponse(bytes, id, command);
    if a.Success? {
      CheckedExactly(bytes, id, command, a.value);
    }
  }

  /** Some FETCH response delivers this message, and it opens to this plaintext. */
  ghost predicate Delivers(u: Device, reply: Option<Bytes>, id: RequestId, m: Id, plaintext: Bytes) {
    exists d: Delivery :: Says(reply, id, Completed(Fetched(Some(d)))) && d.messageId == m
                          && u.open(m, d.payload) == Some(plaintext)
  }

  /** Some FETCH response delivers a message that does not open. */
  ghost predicate Garbled(u: Device, reply: Option<Bytes>, id: RequestId) {
    exists d: Delivery :: Says(reply, id, Completed(Fetched(Some(d)))) && u.open(d.messageId, d.payload) == None
  }

  /** What each FETCH reply comes to: a delivery that opens, an empty queue, or a refusal with its status. */
  lemma IncomingExactly(u: Device, id: RequestId, reply: Option<Bytes>)
    ensures var a := Incoming(u, id, reply);
            && (forall m: Opened :: a == Success(Some(m)) <==> Delivers(u, reply, id, m.messageId, m.plaintext))
            && (a == Success(None) <==> Says(reply, id, Completed(Fetched(None))))
            && (a == Failure(Transport) <==> reply == None)
            && (forall status :: a == Failure(Refusal(status)) <==> Says(reply, id, Refused(Some(FETCH), status)))
            && (a == Failure(Crypto) <==> Garbled(u, reply, id))
            && a != Failure(Store)
  {
    hide CheckedResponse, Says;
    if reply.Some? {
      CheckedIsSaid(reply.value, id, FETCH);
      forall response: Response | Says(reply, id, response) && response.Command() == Some(FETCH)
        ensures CheckedResponse(reply.value, id, FETCH) == Success(response)
      {
        CheckedExactly(reply.value, id, FETCH, response);
      }
    } else {
      NothingSaid(id);
    }
  }

  lemma NothingSaid(id: RequestId)
    ensures forall response: Response :: !Says(None, id, response)
  {
  }

  /** What an ACK reply comes to. */
  function AckResult(reply: Option<Bytes>, id: RequestId): Result<(), ClientError> {
    match reply
    case None => Failure(Transport)
    case Some(bytes) =>
      match CheckedResponse(bytes, id, ACK)
      case Failure(e) => Failure(e)
      case Success(Completed(Acked)) => Success(())
      case Success(Refused(_, status)) => Failure(Refusal(status))
      case Success(_) => Failure(UnexpectedResponse)
  }

  lemma AckResultExactly(reply: Option<Bytes>, id: RequestId)
    ensures var a := AckResult(reply, id);
            && (a.Success? <==> Says(reply, id, Completed(Acked)))
            && (a == Failure(Transport) <==> reply == None)
            && (forall status :: a == Failure(Refusal(status)) <==> Says(reply, id, Refused(Some(ACK), status)))
            && a != Failure(Store) && a != Failure(Crypto)
  {
    hide CheckedResponse, Says;
    if reply.Some? {
      CheckedIsSaid(reply.value, id, ACK);
      forall response: Response | Says(reply, id, response) && response.Command() == Some(ACK)
        ensures CheckedResponse(reply.value, id, ACK) == Success(response)
      {
        CheckedExactly(reply.value, id, ACK, response);
      }
    } else {
      NothingSaid(id);
    }
  }

  /** The result of a poll, exactly. A message is reported applied or acknowledged again only on the canonical
      ACK response, and which of the two says whether the inbox had it; an empty queue, a refusal with its
      status, a lost reply, a failed store and a message that does not open are each reported as such. */
  lemma PollExactly(u: Device, inbox: map<Id, Bytes>, fetchId: RequestId, fetchReply: Option<Bytes>, stores: bool,
                    ackId: RequestId, ackReply: Option<Bytes>)
    ensures var r := Polling(u, inbox, fetchId, fetchReply, stores, ackId, ackReply).result;
            var delivers := exists m, p :: Delivers(u, fetchReply, fetchId, m, p);
            && (forall m :: r == Success(Applied(m)) <==>
                  && (exists p :: Delivers(u, fetchReply, fetchId, m, p)) && stores && m !in inbox
                  && Says(ackReply, ackId, Completed(Acked)))
            && (forall m :: r == Success(RedeliveryAcknowledged(m)) <==>
                  && (exists p :: Delivers(u, fetchReply, fetchId, m, p)) && stores && m in inbox
                  && Says(ackReply, ackId, Completed(Acked)))
            && (r == Success(Empty) <==> Says(fetchReply, fetchId, Completed(Fetched(None))))
            && (forall status :: r == Failure(Refusal(status)) <==>
                  || Says(fetchReply, fetchId, Refused(Some(FETCH), status))
                  || (delivers && stores && Says(ackReply, ackId, Refused(Some(ACK), status))))
            && (r == Failure(Transport) <==> fetchReply == None || (delivers && stores && ackReply == None))
            && (r == Failure(Store) <==> delivers && !stores)
            && (r == Failure(Crypto) <==> Garbled(u, fetchReply, fetchId))
  {
    hide Incoming, CheckedResponse, Says, Delivers, Garbled, FetchFrame, AckFrame;
    IncomingExactly(u, fetchId, fetchReply);
    AckResultExactly(ackReply, ackId);
    var a := Incoming(u, fetchId, fetchReply);
    match a {
      case Success(Some(m)) =>
        OneDelivery(u, fetchReply, fetchId, m);
        PollEnds(u, inbox, fetchId, fetchReply, stores, ackId, ackReply, m);
      case _ =>
        assert forall m, p :: !Delivers(u, fetchReply, fetchId, m, p) by {
          forall m, p ensures !Delivers(u, fetchReply, fetchId, m, p) {
            assert a != Success(Some(Opened(m, p)));
          }
        }
    }
  }

  /** A reply delivers one message. */
  lemma OneDelivery(u: Device, reply: Option<Bytes>, id: RequestId, m: Opened)
    requires Incoming(u, id, reply) == Success(Some(m))
    ensures forall n, p :: Delivers(u, reply, id, n, p) <==> n == m.messageId && p == m.plaintext
  {
    hide Incoming, Delivers;
    IncomingExactly(u, id, reply);
    forall n, p ensures Delivers(u, reply, id, n, p) <==> n == m.messageId && p == m.plaintext {
      assert Incoming(u, id, reply) == Success(Some(Opened(n, p))) <==> Delivers(u, reply, id, n, p);
    }
  }

  lemma PollEnds(u: Device, inbox: map<Id, Bytes>, fetchId: RequestId, fetchReply: Option<Bytes>, stores: bool,
                 ackId: RequestId, ackReply: Option<Bytes>, m: Opened)
    requires Incoming(u, fetchId, fetchReply) == Success(Some(m))
    ensures var r := Polling(u, inbox, fetchId, fetchReply, stores, ackId, ackReply).result;
            r == if !stores then Failure(Store)
                 else match AckResult(ackReply, ackId)
                      case Failure(e) => Failure(e)
                      case Success(_) =>
                        Success(if m.messageId in inbox then RedeliveryAcknowledged(m.messageId)
                                else Applied(m.messageId))
  {
    hide Incoming, CheckedResponse, FetchFrame, AckFrame;
  }

  /** The frames of a poll are the recipient's own FETCH and ACK, and their proofs verify as the relay checks
      them. */
  lemma PollFramesVerify(u: Device, id: RequestId, m: Id)
    requires forall b :: u.verify(u.recipient, b, u.sign(b))
    ensures match ParseRequest(FetchFrame(u, id))
            case Success(d) => d.frame.requestId == id && d.frame.request == Fetch(u.queue, u.recipient)
                               && u.verify(u.recipient, d.authenticated, d.frame.auth)
            case Failure(_) => false
    ensures match ParseRequest(AckFrame(u, id, m))
            case Success(d) => d.frame.requestId == id && d.frame.request == Ack(u.queue, u.recipient, m)
                               && u.verify(u.recipient, d.authenticated, d.frame.auth)
            case Failure(_) => false
  {
    hide ParseRequest, RequestBytes, AuthenticatedBytes;
    SignedDecodes(u.sign, id, Fetch(u.queue, u.recipient));
    SignedDecodes(u.sign, id, Ack(u.queue, u.recipient, m));
  }

  lemma SignedDecodes(sign: Bytes -> Auth, id: RequestId, r: Request)
    requires r.Valid()
    ensures ParseRequest(SignedFrame(sign, id, r))
            == Success(DecodedRequest(RequestFrame(id, r, sign(AuthenticatedBytes(id, r))), AuthenticatedBytes(id, r)))
  {
    hide ParseRequest, RequestBytes, AuthenticatedBytes;
    var a := AuthenticatedBytes(id, r);
    var f := RequestFrame(id, r, sign(a));
    RequestExact(RequestBytes(f), DecodedRequest(f, a));
  }

  /** A send reports a refusal exactly on a canonical refusal of SEND with that status, and a lost reply as
      such. */
  lemma SendRefusedExactly(reply: Option<Bytes>, id: RequestId)
    ensures var a := SendResult(reply, id);
            && (forall status :: a == Failure(Refusal(status)) <==> Says(reply, id, Refused(Some(SEND), status)))
            && (a == Failure(Transport) <==> reply == None)
  {
    hide CheckedResponse, Says;
    if reply.Some? {
      CheckedIsSaid(reply.value, id, SEND);
      forall response: Response | Says(reply, id, response) && response.Command() == Some(SEND)
        ensures CheckedResponse(reply.value, id, SEND) == Success(response)
      {
        CheckedExactly(reply.value, id, SEND, response);
      }
    } else {
      NothingSaid(id);
    }
  }
}
