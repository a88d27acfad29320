# Cofferwire, modelled and proved in Dafny

Cofferwire is a store-and-forward protocol: clients seal and sign, and a relay that is not trusted with
content queues messages and keeps encrypted objects available. This project models its core and proves
what the protocol is for:

- a message accepted by an honest relay is not lost between a sender and a recipient, over every run with
  lost, delayed, duplicated and reordered frames, crashes and storage faults;
- at-least-once frames have exactly-once effects, through any interleaving of connections and any failing
  storage call;
- the SQLite relay answers as the in-memory relay does, under exactly the clocks for which it can, and the
  daemon replies to every sequence of byte strings as an ideal one over the in-memory relay would;
- nothing is in the blob tables without a request under the capability that allows it;
- a published object is complete, identified by its manifest and immutable, and the resumable uploader
  publishes it through store failures, lost responses, crashes and restores, and what was sealed and
  uploaded downloads to the same plaintext;
- every format is canonical: a byte string is accepted exactly when it is the encoding of what it decodes
  to.

## Layout

| files | what they model |
|---|---|
| Base, Cbor, QueueCodec, BlobCodec, Manifest, ManifestLimits | bytes, the CBOR subset, queue and blob frames, the blob manifest |
| Layouts, FrameLayouts, FieldLayouts | published vectors, every frame byte by byte, and the fields of what is sealed or persisted |
| Relay, RelayAnswers, Ledger | the in-memory relay, its answers and its conservation books |
| DurableQueue, QueueSimulation | the SQLite queue tables and their agreement with the in-memory relay |
| Replay, RateLimiter, QueueService, BlobService | replay-checked exchange, admission, the daemon's entry points |
| ServiceRuns, QueueIdeal, BlobIdeal | the entry points over every sequence of arrivals, against ideal daemons |
| DurableBlob, BlobInvariant, BlobAnswers, BlobGrants, BlobPublish | the blob tables: staging, publication, grants, every answer exactly |
| BlobTrace, BlobOrigins | over every run, where published chunks come from and which capability allowed each change |
| Client, Delivery, DeliveryLive | sender and recipient, end-to-end delivery, and a run of it |
| Sealing, Snapshot, Uploader, UploadFacts, UploadRun, UploadLive, Download | sealed objects, upload snapshots, the uploader and its runs, download |
| OfflineBundle | offline bundle fields and envelopes |

## How to read it

Code that changes things in place is a class with methods or a method with loops, each proved equal to a
function of the old state; what the protocol promises is proved about those functions. Encoders are written
`Put...(value, tail)` and parsers return the bytes they leave, so that both directions of a format are plain
equations. Random values, clocks, replies, the outcomes of storage calls and all cryptography are
parameters; where a result needs a law of theirs (opening inverts sealing, a proof by a key verifies), the
law is a named predicate in its `requires`. A transaction is a copy of the tables that is either committed
or dropped.

Assumed of SQLite: commit and rollback are atomic, primary keys are unique, deletes cascade, an omitted
integer key is one above the largest present, and a lookup through an index returns matching rows in rowid
order.

## Where the code and what is written about it differ

The model follows the code.

- Renewal and deletion update every grant with the same blob and capability, while authorization reads one
  row. "Never shortens" and "exactly one grant" are therefore conditional: `BlobGrants.NeverShortensExactly`
  and `BlobGrants.DeletesOneExactly` give the exact conditions, and
  `BlobPublish.SharedCapabilitiesInterfere` a reachable state in which both fail.
- The rate limiter admits the first request of a new key without looking at `max_requests`
  (`RateLimiter.BudgetIsMaxRequestsExactly`).
- A rejected durable command rolls its pruning back, so the two relays can differ when the clock goes back
  (`QueueSimulation.ClockConditionExact`).
- An advance whose second record becomes durable without being reported is not a success, so an upload
  that restarts from it is complete after fewer than n + 2 successes: `UploadLive.UploadCanSalvage`
  constructs such a run for every stage, and `UploadRun.SuccessesAreExact` gives the exact condition.
- An uploader with a zero ttl produces a frame no relay decodes and a snapshot that does not restore
  (`BlobCodec.ZeroTtlIsRefused`, `Snapshot.ZeroTtlIsMalformed`).
- The daemon answers an unknown queue command and queue limits out of range with MALFORMED_FRAME, because
  the decoder refuses them; the specification names UNKNOWN_COMMAND and LIMIT_OUT_OF_RANGE
  (`ServiceRuns.UnknownCommandIsMalformed`, `ServiceRuns.BadLimitsAreMalformed`, and
  `ServiceRuns.RunAnswers` for when each status occurs).

## Model

| member | source | states |
|---|---|---|
| Delivery.NoMessageIsLost | crates/cofferwire-client/src/lib.rs:392-441 | Over every run with lost, delayed, duplicated and reordered frames, crashes and storage faults: a message row of a queue configured for the two devices stays, unchanged, or it leaves at one act, which is expiry at the relay's time, a signed queue deletion by the recipient, or a signed ACK of a message that is already in the recipient's durable inbox with exactly the plaintext the row opens to |
| Delivery.InboxIsFaithful | crates/cofferwire-client/src/lib.rs:392-441 | Over every run the recipient's inbox holds only plaintexts of the sender's outbox under their message identifiers, and an entry never changes; derived from what the relay stores, records and replays, with payloads by others assumed not to open |
| Delivery.BehaviourSound | crates/cofferwire-client/src/lib.rs:392-441 | The invariant behind both, in every world of every run: signed ACKs name committed messages, stored rows and recorded FETCH responses that open do so to the outbox's plaintexts, and the inbox agrees with the outbox |
| Delivery.ReceivedIsGenuine | crates/cofferwire-client/src/lib.rs:392-441 | Whatever response to its FETCH reaches the recipient, fresh or replayed: a message that opens is in the sender's outbox with that plaintext |
| Delivery.ConfiguredStays | crates/cofferwire-relay/src/durable.rs:269-319 | While a message of the queue stays, its queue row stays as it was: no command rewrites it |
| Delivery.StepAccounts | crates/cofferwire-relay/src/durable.rs:521-553 | One act either keeps a given message row or accounts for its departure |
| Delivery.PollIsActs | crates/cofferwire-client/src/lib.rs:392-441 | The poll, as a function of replies and store outcome, leaves the inbox that the acts of a run leave and sends an ACK exactly when they hold a message, for that message |
| DeliveryLive.MessageIsDelivered | crates/cofferwire-client/src/lib.rs:235-441 | Every message whose ciphertext opens has a run, constructed act by act from the empty relay, in which it is queued, fetched, committed to the inbox and acknowledged; it leaves at the last act by the ACK of a committed message |
| Client.Environment.Poll | crates/cofferwire-client/src/lib.rs:392-441 | FETCH, check, open, durable commit, then ACK: new inbox, frames sent and result for every reply and every store outcome |
| Client.Environment.Store | crates/cofferwire-client/src/lib.rs:71-75 | The durable commit applies a message once under its identifier, and a failed commit changes nothing |
| Client.AckOnlyAfterCommit | crates/cofferwire-client/src/lib.rs:392-441 | An ACK is sent only for a message that is in the inbox afterwards; a failure before the commit sends none and stores nothing; existing entries keep their plaintext |
| Client.PollExactly | crates/cofferwire-client/src/lib.rs:392-441 | The result of a poll, exactly, through the canonical bytes of the replies: applied or acknowledged again only on the canonical ACK success, by whether the inbox had the message; empty, refusal with its status, lost reply, failed store and unopenable message each exactly when they are so |
| Client.IncomingExactly | crates/cofferwire-client/src/lib.rs:405-427 | What a FETCH reply comes to: a delivery that opens, empty, a refusal with its status, or a delivery that does not open, each exactly |
| Client.AckResultExactly | crates/cofferwire-client/src/lib.rs:429-440 | What an ACK reply comes to, exactly |
| Client.CheckFailsExactly | crates/cofferwire-client/src/lib.rs:461-474 | A response is rejected as undecodable, for another request or for another command exactly when it is so |
| Client.PollFramesVerify | crates/cofferwire-client/src/lib.rs:397-436 | The frames of a poll decode to the recipient's FETCH and ACK, with proofs that verify as the relay checks them |
| Client.SendRefusedExactly | crates/cofferwire-client/src/lib.rs:307-324 | A send reports a refusal exactly on the canonical refusal of SEND with that status, and a lost reply as such |
| Client.RestoreOfPrepare | crates/cofferwire-client/src/lib.rs:235-298 | Restoring the persisted frame of a prepared send gives the prepared state back |
| Client.RestoreExact | crates/cofferwire-client/src/lib.rs:276-298 | Restoring accepts exactly the frames that carry a verified SEND of this sender on this queue, and returns their identifiers |
| Client.SendResultExact | crates/cofferwire-client/src/lib.rs:307-324 | A send completes exactly on the canonical SEND success response that echoes its request identifier, and reports the duplicate flag in it |
| Relay.Relay.CreateQueue | crates/cofferwire-relay/src/lib.rs:236-255 | The method on the mutable map does what the create step says: created, confirmed, or refused for a differing configuration |
| Relay.Relay.DiscardExpired | crates/cofferwire-relay/src/lib.rs:209-211 | The in-place retain leaves exactly the live messages, in order |
| Relay.Relay.FindMessage | crates/cofferwire-relay/src/lib.rs:285-294 | The scan returns the first message with the identifier, if there is one |
| Relay.Relay.Send | crates/cofferwire-relay/src/lib.rs:266-316 | Prunes, then answers duplicate, conflict, too large, full, overflow or accepted, with the exact new state in each case |
| Relay.Relay.Fetch | crates/cofferwire-relay/src/lib.rs:324-341 | Prunes, marks the head delivered and returns it, or reports an empty queue |
| Relay.Relay.Acknowledge | crates/cofferwire-relay/src/lib.rs:350-368 | Prunes, then removes the head only if it is the named message and was delivered |
| Relay.Relay.DeleteQueue | crates/cofferwire-relay/src/lib.rs:376-390 | Removes the queue for its recipient only |
| Relay.RunSound | crates/cofferwire-relay/src/lib.rs:209-390 | In every reachable state, under any clock: message identifiers are unique, depth and sizes are within the queue's limits, and only the head can be marked delivered |
| Relay.FetchIsLive | crates/cofferwire-relay/src/lib.rs:324-341 | A delivery has not expired, goes to the configured recipient, and is a message that was in the queue |
| Relay.DuplicateSendKeeps | crates/cofferwire-relay/src/lib.rs:283-295 | A duplicate send adds nothing and changes no expiry: it only prunes |
| Relay.ApplyFrame | crates/cofferwire-relay/src/lib.rs:236-390 | A command changes no queue but the one it names |
| RelayAnswers.SendExactly | crates/cofferwire-relay/src/lib.rs:266-316 | In a reachable state, the exact condition of every answer to SEND on the live messages, and what is appended |
| RelayAnswers.FetchExactly | crates/cofferwire-relay/src/lib.rs:324-341 | Empty exactly without a live message, and otherwise the oldest of them is delivered |
| RelayAnswers.AckExactly | crates/cofferwire-relay/src/lib.rs:350-368 | Acknowledged, not delivered or mismatched exactly by what the oldest live message is; an acknowledged one goes |
| RelayAnswers.CreateExactly | crates/cofferwire-relay/src/lib.rs:236-255 | New, the same configuration again, or a conflict, each exactly |
| RelayAnswers.DeleteExactly | crates/cofferwire-relay/src/lib.rs:376-390 | The queue goes exactly for its configured recipient, and no other queue does |
| RelayAnswers.LiveExactly | crates/cofferwire-relay/src/lib.rs:209-211 | Pruning keeps exactly the live messages, the oldest first |
| Ledger.TrackedRun | crates/cofferwire-relay/src/lib.rs:236-390 | Conservation over every run under any clock: per queue, the accepted messages are partitioned into queued, acknowledged, expired and dropped; the queued ones are exactly the queue's contents in order of acceptance; the acknowledged ones, in order of acknowledgement, are a subsequence of acceptance; nothing expires before its time |
| Ledger.TrackBookBalanced | crates/cofferwire-relay/src/lib.rs:236-390 | Each command keeps the book balanced, ends a fate at most once, and adds a line exactly when it accepts a message |
| Ledger.FatesAreFinal | crates/cofferwire-relay/src/lib.rs:236-390 | Over every continuation of a run no accepted message is forgotten and no fate but Queued changes |
| DurableQueue.Transaction.CreateQueue | crates/cofferwire-relay/src/durable.rs:269-319 | The transaction inserts or compares the queue row, with limits as 8-byte cells |
| DurableQueue.Transaction.Send | crates/cofferwire-relay/src/durable.rs:362-421 | Prune, look the message up by rowid order, check size, depth and expiry, insert under max+1 rowid |
| DurableQueue.Transaction.Fetch | crates/cofferwire-relay/src/durable.rs:455-490 | Prune, then mark the lowest row of the queue delivered and return it |
| DurableQueue.Transaction.Acknowledge | crates/cofferwire-relay/src/durable.rs:521-553 | Prune, then delete the lowest row only if it is the named message and was delivered |
| DurableQueue.Transaction.DeleteQueue | crates/cofferwire-relay/src/durable.rs:582-593 | Delete the queue row and, by cascade, its message rows |
| DurableQueue.DurableRelay.Execute | crates/cofferwire-relay/src/durable.rs:328-355 | A command and its commit: a rejected command or a failed commit leaves the database as it was |
| DurableQueue.FirstOf | crates/cofferwire-relay/src/durable.rs:463-476 | The lowest rowid of a selection |
| DurableQueue.NextRow | crates/cofferwire-relay/src/durable.rs:410-420 | The rowid of an insertion is above every present rowid |
| DurableQueue.DiscardedIsExpired | crates/cofferwire-relay/src/durable.rs:786-799 | The byte-wise comparison of 8-byte cells removes exactly the rows of the queue whose expiry, as a number, is at or before now |
| DurableQueue.RowKeptOrDeparts | crates/cofferwire-relay/src/durable.rs:269-593 | A message row stays with its contents, or it expired, was acknowledged at the head after delivery, or went with its queue |
| DurableQueue.RowKeptOrAccepted | crates/cofferwire-relay/src/durable.rs:362-421 | A message row that is new comes from an authorized SEND accepted just now, with its payload and expiry |
| DurableQueue.ApplyKeepsForeignKeys | crates/cofferwire-relay/src/durable.rs:582-593 | Every message row belongs to a queue row after every command |
| DurableQueue.QueueRowKept | crates/cofferwire-relay/src/durable.rs:269-319 | A queue row is never rewritten |
| Base.BytewiseLessIsNumeric | crates/cofferwire-relay/src/durable.rs:786-799 | Comparing 8-byte big-endian cells as byte strings is comparing the numbers in them |
| QueueSimulation.DurableRefinesRelay | crates/cofferwire-relay/src/durable.rs:269-593 | For every command sequence under a clock that never goes back, the SQLite relay gives the same answers as the in-memory relay, and the states agree after pruning at the latest time |
| QueueSimulation.StepAgrees | crates/cofferwire-relay/src/durable.rs:269-593 | One command from corresponding states: equal answers and corresponding states, although a rejected durable command rolls its pruning back |
| QueueSimulation.ClockConditionExact | crates/cofferwire-relay/src/durable.rs:340-351 | Going from time t to time u at the end of a run is harmless for every run exactly when t <= u |
| QueueSimulation.BackstepDiffers | crates/cofferwire-relay/src/durable.rs:340-351 | The run that shows it: after a rejected command at a later time, a fetch at an earlier time finds the message in the table but not in memory |
| QueueSimulation.DiscardExpiredPrunes | crates/cofferwire-relay/src/durable.rs:786-799 | Pruning the table leaves, queue by queue, what pruning the in-memory deque leaves |
| Replay.Connection.Exchange | crates/cofferwire-relay/src/replay.rs:74-119 | Effect and record in one transaction; a rejection rolls back and is recorded in a second one, after which others may have committed; a taken key falls back to the stored record; for every set of failing storage calls |
| Replay.Connection.InsertRecord | crates/cofferwire-relay/src/replay.rs:121-146 | The insertion reports a taken key and then changes nothing |
| Replay.RunExactlyOnce | crates/cofferwire-relay/src/replay.rs:74-146 | Over every interleaving of connections with crashes and storage faults: the database is the serial execution of the committed effects, each key has at most one effect and exactly one record with an account of its response, and every reply agrees with the records |
| Replay.ExchangeIsSteps | crates/cofferwire-relay/src/replay.rs:74-119 | The exchange as written, for every set of failing storage calls, is the steps of its connection with any events of other connections in between: the same reply, and the same store after the transaction that decides |
| Replay.OneEffectPerKey | crates/cofferwire-relay/src/replay.rs:74-119 | No key has two committed effects, over every run |
| Replay.RepliesAgree | crates/cofferwire-relay/src/replay.rs:74-119 | All replies to one key and one byte string are equal, faults aside, over every run |
| Replay.RunKeepsRecords | crates/cofferwire-relay/src/replay.rs:121-146 | A record never changes, over every continuation of a run |
| Replay.RecordedCallHasNoEffect | crates/cofferwire-relay/src/replay.rs:84-118 | Once a key has a record, a call under it changes neither database nor history |
| Replay.RetryIsReplayed | crates/cofferwire-relay/src/replay.rs:74-119 | A recorded key: equal bytes get the stored response, differing bytes a conflict, and the store is untouched |
| Replay.LookupFirstAgrees | apps/cofferwired/src/lib.rs:180-205 | Looking the record up first equals always executing and resolving by the insertion conflict, exactly unless a recorded key's re-execution would hit a storage fault |
| QueueService.RelayService.ExchangeAt | apps/cofferwired/src/lib.rs:150-206 | Decode, authenticate, limit, validate, look up, execute: new limiter windows, new store and response for every byte string |
| QueueService.ServedEchoes | apps/cofferwired/src/lib.rs:150-206 | Whatever the bytes, the response decodes and echoes the identifier in their preamble |
| QueueService.EngineEchoes | apps/cofferwired/src/lib.rs:296-309 | A rendered response decodes to the answer that was rendered, under the request's identifier |
| QueueService.UnauthenticatedIsIgnored | apps/cofferwired/src/lib.rs:150-170 | Bytes that do not decode, or whose proof fails, change neither limiter nor store |
| QueueService.RetryIsAnsweredAlike | apps/cofferwired/src/lib.rs:180-205 | An answered frame sent again gets the same response and leaves the store alone, unless the limiter turns it away |
| QueueService.ErrorResponseEchoes | apps/cofferwired/src/lib.rs:419-424 | An error response decodes to its status and command |
| QueueService.StatusTellsError | apps/cofferwired/src/lib.rs:436-449 | Distinct relay errors have distinct statuses |
| ServiceRuns.RunAnswers | apps/cofferwired/src/lib.rs:150-206 | Over every sequence of arriving byte strings from the empty store: every response decodes and echoes the identifier of its bytes; a frame that does not decode gets MALFORMED_FRAME exactly when its error is neither the version nor the size, and no frame that decodes does; UNKNOWN_COMMAND is never answered, and LIMIT_OUT_OF_RANGE to a SEND only |
| ServiceRuns.ServedAnswers | apps/cofferwired/src/lib.rs:150-206 | One arrival keeps that so, for the response and for every recorded response |
| ServiceRuns.UnknownCommandIsMalformed | apps/cofferwired/src/lib.rs:366-377 | Every frame with an unassigned command number is answered MALFORMED_FRAME, in any state |
| ServiceRuns.BadLimitsAreMalformed | apps/cofferwired/src/lib.rs:366-377 | Every CREATE_QUEUE with a limit out of range is answered MALFORMED_FRAME, in any state |
| ServiceRuns.DecodeStatusExactly | apps/cofferwired/src/lib.rs:366-377 | The status of bytes that do not decode, read off their length and first byte |
| QueueIdeal.RunFollows | apps/cofferwired/src/lib.rs:150-206 | Over every sequence of arriving byte strings under a clock that does not go back, the daemon replies, byte for byte, as an ideal one with the full admission list, the in-memory relay and the first response given for each key |
| QueueIdeal.ServedFollows | apps/cofferwired/src/lib.rs:150-206 | One arrival keeps the daemon's windows, tables and records standing for the ideal state, with the ideal reply |
| QueueIdeal.WireAgrees | crates/cofferwire-relay/src/durable.rs:677-742 | On the wire the durable relay answers as the in-memory relay does, except that a delivery too large for a frame is refused |
| QueueIdeal.EngineFollows | apps/cofferwired/src/lib.rs:296-309 | A response to a fresh request parses to the rendering of the in-memory relay's answer after the commands so far; over the wire no delivery is too large |
| QueueIdeal.AckedExactly | crates/cofferwire-relay/src/durable.rs:521-553 | Acked is answered exactly when the queue is the recipient's and its delivered head has the identifier; that row leaves and, expired rows apart, no other |
| QueueIdeal.OverloadedExactly | apps/cofferwired/src/lib.rs:172-174 | Over every sequence of arrivals: Overloaded exactly for a frame that decodes and verifies and that counting its principal's earlier admissions refuses |
| QueueIdeal.AnswersWithinBudget | apps/cofferwired/src/lib.rs:172-174 | Over every sequence of arrivals: in no window are more frames of one principal executed or replayed than its budget |
| QueueIdeal.SuccessIsSigned | apps/cofferwired/src/lib.rs:155-171 | Over every sequence of arrivals: a success goes only to bytes that carry the proof of the sender or recipient they name |
| QueueIdeal.SuccessIsConfigured | crates/cofferwire-relay/src/durable.rs:269-593 | A command succeeds only for the sender or recipient its queue is configured with |
| RateLimiter.RateLimiter.Admit | apps/cofferwired/src/rate_limit.rs:46-73 | The in-place deque trims, counts and pushes as the admission step says |
| RateLimiter.SumsFitExactly | apps/cofferwired/src/rate_limit.rs:46-62 | The 64-bit additions of stored times and window stay exact exactly unless a request is admitted within one window of the largest time |
| RateLimiter.AdmitAgrees | apps/cofferwired/src/rate_limit.rs:46-73 | Under a clock that does not go back the limiter decides as counting the full admission log would, for tracked and new keys |
| RateLimiter.RunAgrees | apps/cofferwired/src/rate_limit.rs:46-73 | The deques agree with the full log after every such run |
| RateLimiter.BudgetHolds | apps/cofferwired/src/rate_limit.rs:46-73 | In no window, wherever it ends, is a key admitted more often than its budget, and the tracked keys never exceed the capacity |
| RateLimiter.BudgetIsMaxRequestsExactly | apps/cofferwired/src/rate_limit.rs:63-72 | The budget is max_requests in every run exactly when max_requests is positive |
| RateLimiter.FirstRequestAdmitted | apps/cofferwired/src/rate_limit.rs:63-72 | The input that shows it: a new key is admitted without looking at max_requests |
| Cbor.Decoder.Argument | crates/cofferwire-codec/src/cbor.rs:29-79 | The cursor method reads what the argument parser reads and stops where it stops |
| Cbor.Decoder.Unsigned | crates/cofferwire-codec/src/cbor.rs:81-83 | An unsigned item |
| Cbor.Decoder.ArrayLength | crates/cofferwire-codec/src/cbor.rs:97-99 | An array head of any length |
| Cbor.Decoder.Array | crates/cofferwire-codec/src/cbor.rs:85-95 | An array head of the expected length |
| Cbor.Decoder.ByteString | crates/cofferwire-codec/src/cbor.rs:101-135 | A byte string within its bound, or the reason it is not one |
| Cbor.Output.Argument | crates/cofferwire-codec/src/cbor.rs:138-167 | The buffer grows by exactly the shortest form of the argument |
| Cbor.Output.Unsigned | crates/cofferwire-codec/src/cbor.rs:169-171 | The buffer grows by one unsigned item |
| Cbor.Output.Array | crates/cofferwire-codec/src/cbor.rs:173-175 | The buffer grows by one array head |
| Cbor.Output.ByteString | crates/cofferwire-codec/src/cbor.rs:177-184 | The buffer grows by one byte string item |
| Cbor.ParseOfPutArgument | crates/cofferwire-codec/src/cbor.rs:29-79 | Decoding an encoded argument returns it and the bytes after it, for every 64-bit value and major type |
| Cbor.PutOfParseArgument | crates/cofferwire-codec/src/cbor.rs:29-79 | Every accepted argument is the shortest encoding of its value (sections 3 and 4.2.1 of RFC 8949) |
| Cbor.WiderFormIsRefused | crates/cofferwire-codec/src/cbor.rs:29-79 | For every major type, value and wider width than the value needs, the argument is refused as non-canonical |
| Cbor.ReservedCodeIsRefused | crates/cofferwire-codec/src/cbor.rs:29-79 | For every major type the reserved codes and indefinite lengths are refused |
| Cbor.ItemsRoundTrip | crates/cofferwire-codec/src/cbor.rs:81-184 | The same for unsigned items, array heads, byte strings and identifiers |
| Cbor.ItemsPrepend | crates/cofferwire-codec/src/cbor.rs:138-184 | Encoding an item only puts bytes in front of what follows |
| QueueCodec.RequestExact | crates/cofferwire-codec/src/lib.rs:131-168 | A byte string is accepted as a request frame exactly when the frame is valid and the bytes are its encoding, and the authenticated bytes handed out are the ones the encoder signs |
| QueueCodec.ResponseExact | crates/cofferwire-codec/src/lib.rs:140-196 | A byte string is accepted as a response frame exactly when the response is valid and the bytes are its encoding |
| QueueCodec.RequestBytesInjective | crates/cofferwire-codec/src/lib.rs:131-136 | Equal request bytes mean equal frames, so comparing bytes decides frame equality |
| QueueCodec.AuthenticatedBytesInjective | crates/cofferwire-codec/src/lib.rs:122-127 | Equal signed bytes mean equal identifier and request |
| QueueCodec.RequestPayloadIsLocal | crates/cofferwire-codec/src/lib.rs:154-168 | Extending the input extends only what the payload parser leaves |
| QueueCodec.RequestPrefixFree | crates/cofferwire-codec/src/lib.rs:154-231 | Any proper extension of a request frame is refused, for what follows the frame or for its size; so no proper prefix of a frame is a frame |
| QueueCodec.ResponsePrefixFree | crates/cofferwire-codec/src/lib.rs:175-231 | The same for response frames |
| QueueCodec.RequestFits | crates/cofferwire-codec/src/lib.rs:131-136 | Every constructible request encodes within 65,536 bytes, and meets the bound exactly for the largest SEND with the largest proof and a ttl that takes nine bytes |
| QueueCodec.ResponseFits | crates/cofferwire-codec/src/lib.rs:140-146 | Every response encodes below the bound |
| QueueCodec.DecodePreamble | crates/cofferwire-codec/src/lib.rs:198-221 | Size, length, reserved version and unknown version are refused in that order |
| QueueCodec.DecodeCommand | crates/cofferwire-codec/src/lib.rs:246-256 | The command code, or the refusal for its width or value |
| QueueCodec.DecodeRequestBody | crates/cofferwire-codec/src/lib.rs:296-347 | The threaded decoder reads the body of each command as the parser does |
| QueueCodec.DecodeRequest | crates/cofferwire-codec/src/lib.rs:154-168 | The request decoder is the parser that the exactness results are about |
| QueueCodec.DecodeResponseBody | crates/cofferwire-codec/src/lib.rs:349-394 | The threaded decoder reads each success body as the parser does |
| QueueCodec.DecodeResponse | crates/cofferwire-codec/src/lib.rs:175-196 | The response decoder is the parser that the exactness results are about |
| QueueCodec.EncodeRequestPayload | crates/cofferwire-codec/src/lib.rs:406-444 | The buffer grows by exactly the payload of the request |
| QueueCodec.EncodeAuthenticatedRequest | crates/cofferwire-codec/src/lib.rs:122-127 | Preamble and payload, nothing else |
| QueueCodec.EncodeRequest | crates/cofferwire-codec/src/lib.rs:131-136 | The canonical bytes, within the frame bound, so the assertion after encoding cannot fire |
| QueueCodec.EncodeResponsePayload | crates/cofferwire-codec/src/lib.rs:446-460 | The buffer grows by exactly the payload of the response |
| QueueCodec.EncodeSuccessBody | crates/cofferwire-codec/src/lib.rs:462-485 | The buffer grows by exactly the success body |
| QueueCodec.EncodeResponse | crates/cofferwire-codec/src/lib.rs:140-146 | The canonical bytes, within the frame bound |
| Manifest.ParseExact | crates/cofferwire-types/src/blob.rs:88-155 | A byte string is a manifest exactly when all limit equations hold of the manifest returned and the bytes are its canonical form |
| Manifest.ParseReportsExactly | crates/cofferwire-types/src/blob.rs:88-150 | The limits are blamed exactly for a well-formed header that breaks them |
| ManifestLimits.LimitsExactly | crates/cofferwire-types/src/blob.rs:117-129 | The limit equations hold exactly for chunks of 2^5 to 2^20 bytes in objects of 2^6 to 2^30 bytes with 1 to 2^15 chunks |
| Manifest.ManifestBytesInjective | crates/cofferwire-types/src/blob.rs:88-160 | Manifests with equal bytes are equal |
| BlobCodec.BlobRequestExact | crates/cofferwire-codec/src/blob.rs:25-82 | A byte string is accepted as a blob request exactly when the frame is within the limits, has a 68-byte proof and a positive ttl, and the bytes are its encoding; the authenticated bytes are the signed ones |
| BlobCodec.BlobResponseExact | crates/cofferwire-codec/src/blob.rs:86-150 | A byte string is accepted as a blob response exactly when status, command and body belong together and the bytes are its encoding |
| BlobCodec.ZeroTtlIsRefused | crates/cofferwire-codec/src/blob.rs:242-248 | An upload offered for no time encodes to bytes that do not decode |
| BlobCodec.UnknownCommandExactly | crates/cofferwire-codec/src/blob.rs:213-221 | A command is unknown exactly when its number, in an otherwise well-formed head, is not assigned |
| BlobCodec.BlobPayloadIsLocal | crates/cofferwire-codec/src/blob.rs:223-325 | Extending the input extends only what the payload parser leaves |
| BlobCodec.BlobRequestPrefixFree | crates/cofferwire-codec/src/blob.rs:49-82 | Any proper extension of a blob request is refused, for what follows it or for its size |
| BlobCodec.BlobResponsePrefixFree | crates/cofferwire-codec/src/blob.rs:112-150 | The same for blob responses |
| BlobCodec.BlobRequestFits | crates/cofferwire-codec/src/blob.rs:382-458 | Every request whose chunk is within the profile fits 1,049,600 bytes, so it can be kept as a pending frame |
| BlobCodec.BlobResponseFits | crates/cofferwire-codec/src/blob.rs:460-482 | Every valid response fits the same bound |
| BlobCodec.DecodeBlobRequestBody | crates/cofferwire-codec/src/blob.rs:223-325 | The threaded decoder reads the body of each command as the parser does |
| BlobCodec.DecodeBlobRequest | crates/cofferwire-codec/src/blob.rs:49-82 | The request decoder is the parser that the exactness results are about |
| BlobCodec.DecodeBlobResponseBody | crates/cofferwire-codec/src/blob.rs:327-369 | The threaded decoder reads each success body as the parser does |
| BlobCodec.DecodeBlobResponse | crates/cofferwire-codec/src/blob.rs:112-150 | The response decoder is the parser that the exactness results are about |
| BlobCodec.EncodeBlobRequestBody | crates/cofferwire-codec/src/blob.rs:382-458 | The buffer grows by exactly the body of the request |
| BlobCodec.EncodeBlobAuthenticatedRequest | crates/cofferwire-codec/src/blob.rs:25-34 | Preamble and payload, nothing else |
| BlobCodec.EncodeBlobRequest | crates/cofferwire-codec/src/blob.rs:38-42 | The canonical bytes, whatever the ttl and proof |
| BlobCodec.EncodeBlobResponseBody | crates/cofferwire-codec/src/blob.rs:460-482 | The buffer grows by exactly the success body |
| BlobCodec.EncodeBlobResponse | crates/cofferwire-codec/src/blob.rs:86-105 | The canonical bytes; a body without OK, or OK without a body, is written as an empty array |
| Layouts.SendRequestLayout | vectors/codec-v1.json:6-10 | The published SEND request, byte by byte, for all identifiers |
| Layouts.SendResponseLayout | vectors/codec-v1.json:11-15 | The published SEND response, byte by byte |
| Layouts.NoncanonicalItemsAreRefused | vectors/codec-v1.json:17-33 | The published non-canonical items are refused, as instances of the two laws on all wider forms and reserved codes |
| Layouts.ManifestLayout | vectors/blob-v1.json:7-29 | The published two-chunk manifest, byte by byte, for all salts and digests |
| Layouts.CommitLayout | crates/cofferwire-codec/src/blob.rs:411-420 | COMMIT, byte by byte, for all identifiers and proofs |
| Layouts.ArgumentLayout | crates/cofferwire-codec/src/cbor.rs:138-167 | Arguments as section 3 of RFC 8949 lays them out, for every major type and value |
| FrameLayouts.CreateQueueLayout | crates/cofferwire-codec/src/lib.rs:406-444 | CREATE_QUEUE byte by byte |
| FrameLayouts.SendLayout | crates/cofferwire-codec/src/lib.rs:406-444 | SEND byte by byte |
| FrameLayouts.RecipientLayouts | crates/cofferwire-codec/src/lib.rs:406-444 | FETCH, ACK and DELETE_QUEUE byte by byte |
| FrameLayouts.QueueSuccessLayouts | crates/cofferwire-codec/src/lib.rs:446-485 | The success responses byte by byte |
| FrameLayouts.DeliveryLayout | crates/cofferwire-codec/src/lib.rs:446-485 | A delivery byte by byte |
| FrameLayouts.RefusalLayout | crates/cofferwire-codec/src/lib.rs:446-460 | Refusals byte by byte: command or zero, status, empty body |
| FrameLayouts.QueueStatuses | apps/cofferwired/src/lib.rs:436-449 | The registered number of every queue status and the error it stands for |
| FrameLayouts.BeginUploadLayout | crates/cofferwire-codec/src/blob.rs:382-458 | BEGIN_UPLOAD byte by byte |
| FrameLayouts.PutChunkLayout | crates/cofferwire-codec/src/blob.rs:382-458 | PUT_CHUNK byte by byte |
| FrameLayouts.ObjectLayouts | crates/cofferwire-codec/src/blob.rs:382-458 | GET_MANIFEST, GET_CHUNK, RENEW and DELETE byte by byte |
| FrameLayouts.BlobSuccessLayouts | crates/cofferwire-codec/src/blob.rs:460-482 | The success responses without content byte by byte |
| FrameLayouts.BlobReadLayouts | crates/cofferwire-codec/src/blob.rs:460-482 | The responses with a manifest or a chunk byte by byte |
| FrameLayouts.BlobRefusalLayout | crates/cofferwire-codec/src/blob.rs:86-110 | Refusals byte by byte |
| FrameLayouts.BlobStatuses | apps/cofferwired/src/lib.rs:353-364 | The registered number of every blob status and the error it stands for |
| Layouts.SealedSizeOfVector | vectors/blob-v1.json:7-19 | The published 22-byte plaintext in 32-byte chunks is padded to 64 bytes |
| DurableBlob.BlobTransaction.BeginUpload | crates/cofferwire-relay/src/durable_blob.rs:199-230 | New, confirmed or conflicting staging row, or a refused lifetime |
| DurableBlob.BlobTransaction.PutChunk | crates/cofferwire-relay/src/durable_blob.rs:263-307 | Stored, duplicate, or the reason the chunk is refused |
| DurableBlob.BlobTransaction.CheckChunks | crates/cofferwire-relay/src/durable_blob.rs:382-389 | The loop returns the first missing or mismatching chunk in index order, if any |
| DurableBlob.BlobTransaction.Commit | crates/cofferwire-relay/src/durable_blob.rs:338-417 | The publication, with every refusal in its order and all four tables written |
| DurableBlob.BlobTransaction.Renew | crates/cofferwire-relay/src/durable_blob.rs:548-571 | The later of the authorized grant's expiry and now + ttl goes to every matching live grant |
| DurableBlob.BlobTransaction.Delete | crates/cofferwire-relay/src/durable_blob.rs:601-613 | Every grant with the blob and capability is marked |
| DurableBlob.BlobTransaction.Execute | crates/cofferwire-relay/src/durable_blob.rs:616-679 | Each request runs its own command |
| DurableBlob.FirstFlaw | crates/cofferwire-relay/src/durable_blob.rs:382-389 | No flaw exactly when every chunk from here on is staged with its digest |
| DurableBlob.FirstMatch | crates/cofferwire-relay/src/durable_blob.rs:693-712 | The first matching grant in rowid order: it matches and no earlier one does |
| BlobInvariant.ExecuteSound | crates/cofferwire-relay/src/durable_blob.rs:199-613 | Every command keeps the invariant of the blob tables and everything published; a rejected command changes nothing; only COMMIT of a complete upload adds an object |
| BlobInvariant.CommitExact | crates/cofferwire-relay/src/durable_blob.rs:338-417 | COMMIT in a reachable state: it never meets the grant's primary key or the digest conflict, refuses as incomplete exactly when a chunk is missing, and refuses a complete upload only when the identity already names another manifest |
| BlobInvariant.CountIsCompleteness | crates/cofferwire-relay/src/durable_blob.rs:374-381 | The row count equals the chunk count exactly when every chunk is staged (pigeonhole) |
| BlobInvariant.PublishesSound | crates/cofferwire-relay/src/durable_blob.rs:390-416 | A publication keeps the invariant and changes no object, chunk or grant already there |
| BlobService.ReachableSound | crates/cofferwire-relay/src/durable_blob.rs:199-613 | Over every run with interleavings, crashes and storage faults: each published object has the identity of its manifest and every chunk with its digest; each grant points to such an object; an upload is marked committed exactly when a grant with its id exists; staged chunks are in range with their digests |
| BlobService.PublishedIsImmutable | crates/cofferwire-relay/src/durable_blob.rs:338-417 | Over every continuation of every run: objects and their chunks never change, uploads and grants are only added to, a deleted grant stays deleted |
| BlobTrace.ReachableTraced | crates/cofferwire-relay/src/durable_blob.rs:338-417 | Over every run: the chunks of a published object are, byte for byte, those staged by the upload whose grant is the first of that object |
| BlobTrace.ExecuteTraced | crates/cofferwire-relay/src/durable_blob.rs:199-613 | Every command keeps that origin of published chunks |
| BlobGrants.UnpublishedIsUnreadable | crates/cofferwire-relay/src/durable_blob.rs:693-730 | In a reachable state an identity that was never published answers NotFound to every capability: partial uploads are never readable |
| BlobGrants.ManifestIsServed | crates/cofferwire-relay/src/durable_blob.rs:443-460 | In a reachable state an authorized reader gets the manifest the identity names; no later refusal can occur |
| BlobGrants.ChunkIsServed | crates/cofferwire-relay/src/durable_blob.rs:487-517 | In a reachable state an authorized reader gets every chunk with its length and digest, and an index out of range is the only refusal |
| BlobGrants.LiveGrantAuthorizes | crates/cofferwire-relay/src/durable_blob.rs:693-730 | A live grant whose capability no earlier grant of the blob shares authorizes until it expires |
| BlobGrants.RenewedGrants | crates/cofferwire-relay/src/durable_blob.rs:548-571 | A successful renewal: the first match is live, and the expiry reported is at least its expiry and at least now + ttl, and is one of the two |
| BlobGrants.NeverShortensExactly | crates/cofferwire-relay/src/durable_blob.rs:548-571 | Extending and never shortening holds for all times and ttls exactly when the first match is out of reach or no live match outlives it |
| BlobGrants.DistinctNeverShortens | crates/cofferwire-relay/src/durable_blob.rs:562-563 | With distinct renewal capabilities per blob no renewal shortens a grant |
| BlobGrants.DeletesOneExactly | crates/cofferwire-relay/src/durable_blob.rs:601-613 | A successful deletion withdraws the first match and no grant that does not match; exactly one grant goes if and only if no other live grant shares blob and capability |
| BlobGrants.DistinctDeletesOne | crates/cofferwire-relay/src/durable_blob.rs:608-609 | With distinct deletion capabilities per blob exactly one grant goes |
| BlobGrants.DeletedIsGone | crates/cofferwire-relay/src/durable_blob.rs:693-730 | After a deletion, a capability of the blob in any column is answered NotFound in every later state at every time, exactly if the first grant that answers to it is withdrawn by that deletion or was deleted before |
| BlobGrants.DeletionCapabilityIsGone | crates/cofferwire-relay/src/durable_blob.rs:601-613 | The deletion capability used is answered NotFound in every later state at every time |
| BlobGrants.WithdrawnForGood | crates/cofferwire-relay/src/durable_blob.rs:693-730 | A capability with a match is answered NotFound in every later state at every time, exactly when its first match is deleted |
| BlobAnswers.AuthorizedExactly | crates/cofferwire-relay/src/durable_blob.rs:693-730 | The decision on a capability in the grants' fields: success, not found, unauthorized and expired, each exactly |
| BlobAnswers.ManifestReadExactly | crates/cofferwire-relay/src/durable_blob.rs:443-460 | In a reachable state GET_MANIFEST succeeds exactly for a live grant that first names the reader's download capability, with the object's manifest and the grant's expiry; the exact condition of each refusal |
| BlobAnswers.ChunkReadExactly | crates/cofferwire-relay/src/durable_blob.rs:487-517 | GET_CHUNK likewise, with the index out of range as the one other refusal |
| BlobAnswers.RenewExactly | crates/cofferwire-relay/src/durable_blob.rs:548-571 | When RENEW succeeds and refuses, the expiry it reports, and exactly which grants it changes |
| BlobAnswers.DeleteExactly | crates/cofferwire-relay/src/durable_blob.rs:601-613 | When DELETE succeeds and refuses, and exactly which grants it marks |
| BlobAnswers.WritableExactly | crates/cofferwire-relay/src/durable_blob.rs:263-279 | Writing to an upload is allowed exactly for its own capability in its lifetime; the three refusals exactly |
| BlobAnswers.BeginExactly | crates/cofferwire-relay/src/durable_blob.rs:199-230 | BEGIN_UPLOAD: bad lifetime, new row, duplicate and conflict, each exactly on the row |
| BlobAnswers.PutExactly | crates/cofferwire-relay/src/durable_blob.rs:263-307 | PUT_CHUNK in a reachable state: every answer exactly on the rows, and the one cell written |
| BlobAnswers.CommitExactly | crates/cofferwire-relay/src/durable_blob.rs:338-417 | COMMIT in a reachable state: every answer exactly on the rows |
| BlobAnswers.CommitWrites | crates/cofferwire-relay/src/durable_blob.rs:390-416 | What a first COMMIT writes to the five tables, and that any other changes nothing |
| BlobOrigins.EveryChangeIsAuthorized | crates/cofferwire-relay/src/durable_blob.rs:199-613 | Over every run of any connections: each upload row, staged chunk, grant, renewal and deletion goes back to a committed request under the capability that may make it, authenticated by that capability |
| BlobOrigins.StepAuthorized | crates/cofferwire-relay/src/durable_blob.rs:199-613 | Every committed command keeps that so |
| BlobOrigins.OkReadWasGranted | crates/cofferwire-relay/src/durable_blob.rs:443-517 | Over every run: an OK response to a read, fresh or replayed, went to a capability that a grant of the object names for download |
| BlobPublish.UploadPublishes | crates/cofferwire-relay/src/durable_blob.rs:199-417 | A whole upload by a fresh identifier succeeds at every command and publishes its manifest under one new grant, unless the identity already names another manifest |
| BlobPublish.SharedCapabilitiesInterfere | crates/cofferwire-relay/src/durable_blob.rs:562-609 | The reachable state that shows the two exceptions: two uploads with one set of capabilities, after which a renewal shortens the second grant and a deletion takes both |
| BlobService.BlobRelayService.ExchangeBlobAt | apps/cofferwired/src/lib.rs:221-272 | Decode, authenticate, limit, look up, execute: new windows, new store and response for every byte string |
| BlobService.PerformAnswers | apps/cofferwired/src/lib.rs:311-332 | In a reachable state no command meets a storage fault, success is committed, and the response decodes to the answer |
| BlobService.ServedEchoes | apps/cofferwired/src/lib.rs:221-272 | Whatever the bytes, the response decodes and echoes the identifier in their preamble |
| BlobService.UnauthenticatedIsIgnored | apps/cofferwired/src/lib.rs:221-243 | Bytes that do not decode, or whose proof fails, change neither limiter nor store |
| BlobService.RetryIsAnsweredAlike | apps/cofferwired/src/lib.rs:246-271 | An answered frame sent again gets the same response and leaves the store alone, unless the limiter turns it away |
| BlobService.StatusTellsError | apps/cofferwired/src/lib.rs:353-364 | Distinct blob errors have distinct statuses |
| ServiceRuns.BlobRunEchoes | apps/cofferwired/src/lib.rs:221-272 | Over every sequence of arriving byte strings from the empty store: the tables stay sound and every response decodes and echoes the identifier of its bytes |
| BlobIdeal.RunFollows | apps/cofferwired/src/lib.rs:221-272 | Over every sequence of arriving byte strings under a clock that does not go back, the blob daemon replies, byte for byte, as an ideal one with the full admission list, the commands executed one after the other and the first response given for each key |
| BlobIdeal.OverloadedExactly | apps/cofferwired/src/lib.rs:243-245 | Over every sequence of arrivals: Overloaded exactly for a frame that decodes and verifies and that counting its capability's earlier admissions refuses |
| BlobIdeal.AnswersWithinBudget | apps/cofferwired/src/lib.rs:243-245 | Over every sequence of arrivals: in no window are more frames of one capability executed or replayed than its budget |
| BlobIdeal.SuccessIsSigned | apps/cofferwired/src/lib.rs:228-242 | Over every sequence of arrivals: an OK response goes only to bytes that carry the proof of the capability they name |
| BlobIdeal.DecodeStatusExactly | apps/cofferwired/src/lib.rs:379-395 | The status of bytes that do not decode, read off their length, first byte and command number |
| Sealing.LayoutExact | crates/cofferwire-crypto/src/blob.rs:169-190 | Sealing succeeds exactly for an allowed chunk size and a stream that fits the object limit and 32,768 chunks; then every manifest equation holds and the size is the least sufficient power of two |
| Sealing.PaddedIsLeast | crates/cofferwire-crypto/src/blob.rs:182-183 | The padded size is a power of two, a multiple of the chunk size, and the least that is large enough |
| Sealing.NextPower | crates/cofferwire-crypto/src/blob.rs:182 | A power of two that reaches the argument |
| Sealing.NoncesDiffer | crates/cofferwire-crypto/src/blob.rs:314-319 | Chunks of one object have different nonces |
| FieldLayouts.NonceFields | crates/cofferwire-crypto/src/blob.rs:314-319 | Four zero bytes and the big-endian index |
| FieldLayouts.AssociatedDataFields | crates/cofferwire-crypto/src/blob.rs:320-331 | Domain, versions, salt, sizes, count and index, each at its place |
| FieldLayouts.AssociatedDataBinds | crates/cofferwire-crypto/src/blob.rs:320-331 | Associated data are equal exactly for equal salt, sizes, count and index |
| FieldLayouts.DomainsAreText | crates/cofferwire-crypto/src/blob.rs:14-17 | The domain strings and magics as text |
| FieldLayouts.StreamFields | crates/cofferwire-crypto/src/blob.rs:194-197 | The padded stream is the length, the plaintext and noise to the end |
| Sealing.Seal | crates/cofferwire-crypto/src/blob.rs:164-233 | The loop produces the ciphertexts and digests, chunk by chunk, of the padded stream, and stops with an authentication failure at the first chunk the cipher refuses |
| Sealing.SealReportsExactly | crates/cofferwire-crypto/src/blob.rs:164-233 | Sealing fails for its size or chunk size first, and otherwise exactly when the cipher refuses a chunk |
| Sealing.MakeManifest | crates/cofferwire-crypto/src/blob.rs:332-351 | The bytes laid out for any digests parse back to the manifest exactly when its limits hold, and are an invalid object otherwise |
| Sealing.Open | crates/cofferwire-crypto/src/blob.rs:240-296 | The loop checks and decrypts chunk by chunk and stops at the first failure |
| Sealing.OpenOfSeal | crates/cofferwire-crypto/src/blob.rs:164-296 | For every plaintext, chunk size, key, salt and padding: opening the sealed object returns the plaintext, and sealing fails only for its size, its chunk size or the cipher |
| Sealing.SealedIsUploadable | crates/cofferwire-crypto/src/blob.rs:164-233 | A sealed object's manifest is accepted from its bytes, its identifier is the manifest's, and every chunk has the length and digest the relay asks for |
| Sealing.OpenFailsClosed | crates/cofferwire-crypto/src/blob.rs:240-296 | Plaintext is returned only for the expected identity and chunks with the manifest's digests in order |
| Sealing.OpenReportsExactly | crates/cofferwire-crypto/src/blob.rs:240-296 | An authentication failure exactly when identity and count are right and the first chunk that does not open is refused by the cipher; any other failure is an invalid object |
| Snapshot.StateExact | crates/cofferwire-client/src/blob.rs:377-463 | A byte string is a snapshot exactly when the state is valid and the bytes are its canonical form |
| Snapshot.ZeroTtlIsMalformed | crates/cofferwire-client/src/blob.rs:443-447 | A snapshot with a zero ttl is written and never read back |
| FieldLayouts.SnapshotFields | crates/cofferwire-client/src/blob.rs:377-419 | Where magic, version, keys, lifetime, stage and manifest length lie in a snapshot |
| FieldLayouts.StageFields | crates/cofferwire-client/src/blob.rs:397-408 | The numbers a stage is persisted as |
| Snapshot.StateCursor.TakeBytes | crates/cofferwire-client/src/blob.rs:586-593 | The cursor takes exactly the announced bytes or refuses |
| Snapshot.StateCursor.TakeSized | crates/cofferwire-client/src/blob.rs:605-611 | A length-prefixed field within its bound |
| Snapshot.StateCursor.TakeChunks | crates/cofferwire-client/src/blob.rs:455-461 | The loop reads the announced number of chunks in order |
| Uploader.DecodeExact | crates/cofferwire-client/src/blob.rs:377-510 | A byte string restores to an uploader exactly when the uploader is valid, including that its pending frame passes validation for its stage, its ttl is positive, and the bytes are its snapshot |
| Uploader.RestoreExact | crates/cofferwire-client/src/blob.rs:256-262 | And only under the identity it was prepared with |
| Uploader.MatchesExact | crates/cofferwire-client/src/blob.rs:527-568 | Comparing the pending request field by field is comparing it with the one request of the stage |
| Uploader.PendingPasses | crates/cofferwire-client/src/blob.rs:512-581 | A frame made for a stage passes that stage's validation |
| Uploader.PendingExactly | crates/cofferwire-client/src/blob.rs:512-581 | A pending frame passes exactly if it is a canonical frame of the stage's own request with a proof that verifies under the upload capability |
| Uploader.SealedIsPrepared | crates/cofferwire-client/src/blob.rs:148-164 | A freshly sealed object satisfies what restoring insists on |
| Uploader.EncodeUploadState | crates/cofferwire-client/src/blob.rs:377-419 | The pushes and the chunk loop produce the snapshot |
| Uploader.PushSized | crates/cofferwire-client/src/blob.rs:421-428 | The output grows by one length-prefixed field |
| Uploader.DecodeUploadState | crates/cofferwire-client/src/blob.rs:430-510 | The cursor-driven decoder is the decoder that the exactness results are about |
| Uploader.BlobUploader.Advance | crates/cofferwire-client/src/blob.rs:276-374 | Record, transmit, check, record, and roll back in memory when the second record fails: uploader, store and transmissions for every store outcome and every reply |
| Uploader.AdvanceReportsExactly | crates/cofferwire-client/src/blob.rs:276-374 | The result of an advance, exactly: progress, store failure, lost reply, and refusal with its status |
| Uploader.AcceptExactly | crates/cofferwire-client/src/blob.rs:340-366 | A response is accepted exactly if it is the canonical OK response to the pending frame with the body its stage waits for, and reported as that stage's progress; refusals exactly on the canonical refusal |
| UploadRun.OneFramePerStage | crates/cofferwire-client/src/blob.rs:276-374 | Over every run with store failures, lost responses, crashes and restores: transmissions go begin, chunks in order, commit, none skipped, with one distinct signed frame per stage |
| UploadRun.TransmittedIsStored | crates/cofferwire-client/src/blob.rs:330-338 | Over every run: while a frame is out the store holds a snapshot that restores to the uploader with exactly that frame pending |
| UploadRun.CompleteMeansPublished | crates/cofferwire-client/src/blob.rs:276-374 | Over every run with the replay-checked relay: an uploader at its end has its object published with its manifest, all chunks and a grant with its capabilities, and successes plus salvaged stages are exactly n + 2 |
| UploadRun.SuccessesAreExact | crates/cofferwire-client/src/blob.rs:276-374 | Over every run: a finished upload took exactly n + 2 successful advances if and only if no crash came while the store was a stage ahead of the uploader in memory |
| UploadRun.RunUnreported | crates/cofferwire-client/src/blob.rs:340-374 | Over every run: stages are missing from the successes exactly if such a crash happened |
| UploadRun.RestartSalvagesAtMostOne | crates/cofferwire-client/src/blob.rs:256-262 | Over every run: a restart under the expected identity resumes the stored uploader, loses no stage, and finds at most one unreported one |
| UploadRun.RestoresItself | crates/cofferwire-client/src/blob.rs:377-510 | A snapshot of any reachable uploader restores to that uploader if the ttl is positive and does not restore if it is zero |
| UploadRun.AdvanceIsTwoActs | crates/cofferwire-client/src/blob.rs:276-374 | The two halves of a run's acts are one advance |
| UploadRun.BehaviourSound | crates/cofferwire-client/src/blob.rs:276-374 | The invariant over memory, store, transmissions and relay in every world of every run |
| UploadRun.RunKeeps | crates/cofferwire-relay/src/durable_blob.rs:199-613 | Between any two worlds of a run: objects, their chunks, staged chunks and uploads are kept, and deleted grants stay deleted |
| UploadFacts.OkMeansTook | crates/cofferwire-relay/src/replay.rs:74-119 | An OK response in any run: the request succeeded once in a sound state, what it left is still there, and the response says what it answered |
| UploadFacts.OkIsEffective | crates/cofferwire-relay/src/durable_blob.rs:199-417 | An OK response in any run means that what the request set out to do is so now, however long ago it was answered |
| UploadFacts.CommittedIsPublished | crates/cofferwire-relay/src/durable_blob.rs:338-417 | In a reachable state a committed upload has its manifest under the identity, every chunk, and a grant with its capabilities |
| UploadLive.UploadCanFinish | crates/cofferwire-client/src/blob.rs:276-374 | From every world of every run in which the upload has not begun, whatever the relay holds and whenever it is: there is a continuation, constructed stage by stage, that uploads the object to the end |
| UploadLive.UploadCanSalvage | crates/cofferwire-client/src/blob.rs:340-374 | And for every stage k one that loses the report of that stage in a crash and still finishes, with n + 1 successes |
| UploadLive.SealedIsSendable | crates/cofferwire-client/src/blob.rs:148-164 | Every freshly sealed object with a positive ttl can be uploaded so |
| UploadLive.StartHasNotBegun | crates/cofferwire-client/src/blob.rs:192-199 | The start of every run is such a world, at every time the lifetime allows |
| Download.DownloadBlob | crates/cofferwire-client/src/blob.rs:627-691 | Signed request, response decoded, correlated and judged by its status; manifest, chunks in a loop, then open: the result for every identifier drawn and every reply in each exchange |
| Download.CheckedExactly | crates/cofferwire-client/src/blob.rs:670-691 | A response counts exactly if it is canonical and to this request: its body, its status as a refusal, or invalid |
| Download.AskFirstExactly | crates/cofferwire-client/src/blob.rs:643-660 | The chunks are those of the exchanges in order, or the error is that of the first exchange to fail |
| Download.DownloadExactly | crates/cofferwire-client/src/blob.rs:627-668 | The result of a download, exactly: the error of the manifest's exchange, else of the first chunk exchange to fail, else what opening the chunks gives |
| Download.FramesVerify | crates/cofferwire-client/src/blob.rs:693-701 | Every frame of a download carries its request and a proof under the download capability |
| Download.DownloadFailsClosed | crates/cofferwire-client/src/blob.rs:627-668 | Whatever the relay answers, plaintext comes only of chunks with the digests of a manifest with the expected identity |
| Download.FaithfulDownload | crates/cofferwire-client/src/blob.rs:627-668 | If every OK response carries what was prepared, the plaintext comes back exactly when all are OK |
| Download.DownloadOpens | crates/cofferwire-client/src/blob.rs:627-668 | Each exchange answered at a moment of its own in which the relay holds the object and the download capability is live: the download gives what was sealed |
| Download.UploadThenDownload | crates/cofferwire-client/src/blob.rs:148-691 | Sealed, uploaded over any run to its end, and downloaded from that run's relay with each response given in some world of it: the plaintext comes back exactly when every response is OK, and otherwise the error is not the cipher's |
| Download.RelayedIsRight | crates/cofferwire-relay/src/replay.rs:74-119 | An OK response of the relay to a download frame, fresh or replayed, carries the manifest or chunk that the object holds in every later state |
| Download.OwnIsUncollided | crates/cofferwire-relay/src/durable_blob.rs:390-416 | An object whose first grant is this upload's holds this upload's chunks, with no assumption on the hash |
| OfflineBundle.FieldsExact | crates/cofferwire-client/src/offline.rs:108-189 | A plaintext decodes to fields exactly when the peer key is valid, the hints are within bounds and the plaintext is their encoding, for invitations and recoveries |
| OfflineBundle.EncodeFields | crates/cofferwire-client/src/offline.rs:108-141 | Encoding succeeds exactly within the hint bounds |
| OfflineBundle.DecodeFields | crates/cofferwire-client/src/offline.rs:143-189 | The cursor-driven decoder is the decoder that the exactness result is about |
| OfflineBundle.TakeHints | crates/cofferwire-client/src/offline.rs:172-179 | The loop reads the announced number of bounded hints |
| OfflineBundle.EnvelopeExact | crates/cofferwire-client/src/offline.rs:258-264 | An envelope is its magic, version, identifiers and payload, and nothing else |
| FieldLayouts.BundleFieldsAt | crates/cofferwire-client/src/offline.rs:108-141 | Type, role, peer, key, time, own seeds and number of hints, each at its place with its code |
| FieldLayouts.EnvelopeFields | crates/cofferwire-client/src/offline.rs:258-264 | Magic, version, identifiers and payload, each at its place |
| OfflineBundle.OpenExact | crates/cofferwire-client/src/offline.rs:276-308 | A bundle opens to fields exactly when it is the envelope of a payload that opens, under the expected exporter, to their encoding |
| OfflineBundle.OpenReportsExactly | crates/cofferwire-client/src/offline.rs:276-308 | Another version, a payload that does not open, and malformed, each exactly |
| OfflineBundle.OpenOfSeal | crates/cofferwire-client/src/offline.rs:241-308 | What one device exports, the importer who expects that exporter opens; sealing refuses hints out of bounds |

## Left out

- Cryptographic primitives: Ed25519, authenticated HPKE, HKDF, ChaCha20-Poly1305 and SHA-256 are function parameters with the laws named where they are used.
- SQLite itself: pragmas, migration, busy timeout, error classification, and row lookups by query plan beyond the rowid order named above.
- HTTP, WebSocket, TLS, semaphores, timeouts and process entry points.
- The independent Python implementation: it prunes on rejections, so it is a third semantics.
- Receipts, and the import record of offline bundles, whose rules are an interface without code here.
- Decoding errors keep their kind but not the offset and field label that are only displayed.
- Machine widths: u64, u32 and u16 are modelled where they are read, written or added; `usize` is taken to be 64 bits and rowids are unbounded.
- Poisoned locks and allocation failure.
- RateLimiter.RateLimiter.Admit: the sum of a stored time and the window is unbounded here; RateLimiter.SumsFitExactly says exactly while it fits 64 bits, and what an overflowing addition does (a panic or a wrap, by build profile) is not modelled.
- Delivery.NoMessageIsLost: the relay is honest, one plaintext belongs to one message identifier, only signed frames authenticate, and a payload queued by a principal other than the sender does not open; safety and one delivering run are proved, not that every fair run delivers.
- UploadRun.CompleteMeansPublished: an OK response is one the honest relay gave to those bytes; published chunks match our digests, and are our bytes if this upload published the object (Download.OwnIsUncollided).
- Download.DownloadOpens: the relay holds the very chunks prepared; a relay that published equal digests of other bytes first would keep those.
- Download.UploadThenDownload: if another upload published the object first, needs that none of its stored chunks is a different byte string with the digest of ours; what the cipher makes of such a chunk is not stated.
- UploadLive.UploadCanFinish: constructs a continuation; that every fair run finishes is not stated.
- BlobService.PublishedIsImmutable: tables are only ever changed by the seven commands; there is no garbage collection in the source either.
- QueueIdeal.RunFollows: arrivals are served one after the other, without storage faults, under a clock that does not go back; interleavings and faults are in Replay.RunExactlyOnce.
- BlobIdeal.RunFollows: the same, with BlobService.ReachableSound and BlobOrigins.EveryChangeIsAuthorized over interleavings and faults.
