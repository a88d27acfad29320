/** Offline bootstrap and recovery bundles: the inner fields and the sealed envelope. */
module OfflineBundle {
  import opened Base
  import opened Snapshot
  import QC = QueueCodec

  const MAX_RELAY_HINTS: nat := 8
  const MAX_RELAY_HINT_BYTES: nat := 256
  const BUNDLE_MAGIC: Bytes := [67, 87, 79, 66]
  const BUNDLE_VERSION: Byte := 1
  const ENVELOPE_HEADER_BYTES: nat := 69
  const INVITATION: Byte := 1
  const RECOVERY: Byte := 2

  datatype Role = Sender | Recipient

  datatype OwnIdentity = OwnIdentity(signingSeed: Id, encryptionSeed: Id)

  datatype BundleFields = BundleFields(role: Role, peer: Id, peerKey: Id, createdAt: U64, own: Option<OwnIdentity>,
                                       hints: seq<Bytes>) {
    predicate InBounds() {
      |hints| <= MAX_RELAY_HINTS && ChunksFit(hints, MAX_RELAY_HINT_BYTES)
    }
  }

  datatype BundleError = RelayHints | BadPlaintext | UnsupportedVersion | CryptoFailed

  /** Which byte strings are encryption public keys. */
  type KeyCheck = Id -> bool

  // ----- relay hints -----

  function PutHint(x: Bytes, tail: Bytes): Bytes
    requires |x| <= MAX_RELAY_HINT_BYTES
  {
    assert Pow256(2) == U16_LIMIT;
    Be(|x|, 2) + (x + tail)
  }

  function PutHints(hints: seq<Bytes>, tail: Bytes): Bytes
    requires ChunksFit(hints, MAX_RELAY_HINT_BYTES)
  {
    if hints == [] then tail else PutHint(hints[0], PutHints(hints[1..], tail))
  }

  function ParseHint(b: Bytes): (c: Cut<Bytes>)
    ensures c.Got? ==> |c.value| <= MAX_RELAY_HINT_BYTES && b == PutHint(c.value, c.rest)
  {
    var (n, rest) :- Take(b, 2);
    BeOfFromBe(n);
    if FromBe(n) > MAX_RELAY_HINT_BYTES then Bad else Take(rest, FromBe(n))
  }

  function ParseHints(b: Bytes, n: nat): (c: Cut<seq<Bytes>>)
    ensures c.Got? ==> |c.value| == n && ChunksFit(c.value, MAX_RELAY_HINT_BYTES) && b == PutHints(c.value, c.rest)
  {
    if n == 0 then Got([], b)
    else
      var (x, rest) :- ParseHint(b);
      var (xs, left) :- ParseHints(rest, n - 1);
      assert ([x] + xs)[1..] == xs;
      Got([x] + xs, left)
  }

  lemma ParseOfPutHint(x: Bytes, tail: Bytes)
    requires |x| <= MAX_RELAY_HINT_BYTES
    ensures ParseHint(PutHint(x, tail)) == Got(x, tail)
  {
    assert Pow256(2) == U16_LIMIT;
    FromBeOfBe(|x|, 2);
    TakeOfPut(Be(|x|, 2), x + tail);
    TakeOfPut(x, tail);
  }

  lemma {:induction false} ParseOfPutHints(hints: seq<Bytes>, tail: Bytes)
    requires ChunksFit(hints, MAX_RELAY_HINT_BYTES)
    ensures ParseHints(PutHints(hints, tail), |hints|) == Got(hints, tail)
  {
    hide PutHint, ParseHint;
    if hints != [] {
      ParseOfPutHint(hints[0], PutHints(hints[1..], tail));
      ParseOfPutHints(hints[1..], tail);
      assert [hints[0]] + hints[1..] == hints;
    }
  }

  // ----- fields -----

  function TypeOf(own: Option<OwnIdentity>): Byte {
    if own.Some? then RECOVERY else INVITATION
  }

  function RoleByte(r: Role): Byte {
    if r.Sender? then 0 else 1
  }

  function PutOwn(own: Option<OwnIdentity>, tail: Bytes): Bytes {
    match own case None => tail case Some(k) => k.signingSeed + (k.encryptionSeed + tail)
  }

  function PutPeer(f: BundleFields, tail: Bytes): Bytes {
    f.peer + (f.peerKey + PutU64(f.createdAt, tail))
  }

  function FieldsBytes(f: BundleFields): Bytes
    requires f.InBounds()
  {
    [TypeOf(f.own)] + ([RoleByte(f.role)] + PutPeer(f, PutOwn(f.own, [|f.hints|] + PutHints(f.hints, []))))
  }

  /** Encoding refuses exactly the fields outside the hint bounds. */
  function EncodedFields(f: BundleFields): Result<Bytes, BundleError> {
    if f.InBounds() then Success(FieldsBytes(f)) else Failure(RelayHints)
  }

  function ParseOwn(b: Bytes, kind: Byte): (c: Cut<Option<OwnIdentity>>)
    ensures c.Got? ==> b == PutOwn(c.value, c.rest) && (c.value.Some? <==> kind == RECOVERY)
  {
    if kind != RECOVERY then Got(None, b)
    else
      var (s, b1) :- ParseId(b);
      var (e, b2) :- ParseId(b1);
      Got(Some(OwnIdentity(s, e)), b2)
  }

  function ParseHintList(b: Bytes): (c: Cut<seq<Bytes>>)
    ensures c.Got? ==>
              |c.value| <= MAX_RELAY_HINTS && ChunksFit(c.value, MAX_RELAY_HINT_BYTES)
              && b == [|c.value|] + PutHints(c.value, c.rest)
  {
    var (n, rest) :- ParseByte(b);
    if n > MAX_RELAY_HINTS then Bad else ParseHints(rest, n)
  }

  datatype Peer = Peer(principal: Id, key: Id, createdAt: U64)

  function ParsePeer(ok: KeyCheck, b: Bytes): (c: Cut<Peer>)
    ensures c.Got? ==> ok(c.value.key) && b == c.value.principal + (c.value.key + PutU64(c.value.createdAt, c.rest))
  {
    var (p, b1) :- ParseId(b);
    var (k, b2) :- ParseId(b1);
    if !ok(k) then Bad else
      var (t, b3) :- ParseU64(b2);
      Got(Peer(p, k, t), b3)
  }

  function ParseRole(b: Bytes): (c: Cut<Role>)
    ensures c.Got? ==> b == [RoleByte(c.value)] + c.rest
  {
    var (role, rest) :- ParseByte(b);
    if role > 1 then Bad else Got(if role == 0 then Sender else Recipient, rest)
  }

  /** The fields after type and role. */
  function ParseInner(ok: KeyCheck, b: Bytes, kind: Byte, role: Role): (c: Cut<BundleFields>)
    ensures c.Got? ==>
              && c.value.InBounds() && ok(c.value.peerKey) && c.value.role == role
                && (c.value.own.Some? <==> kind == RECOVERY)
              && b == PutPeer(c.value, PutOwn(c.value.own, [|c.value.hints|] + PutHints(c.value.hints, c.rest)))
  {
    var (peer, b1) :- ParsePeer(ok, b);
    var (own, b2) :- ParseOwn(b1, kind);
    var (hints, b3) :- ParseHintList(b2);
    Got(BundleFields(role, peer.principal, peer.key, peer.createdAt, own, hints), b3)
  }

  function ParseFields(ok: KeyCheck, b: Bytes): (c: Cut<BundleFields>)
    ensures c.Got? ==> c.value.InBounds() && ok(c.value.peerKey) && c.rest == [] && b == FieldsBytes(c.value)
  {
    var (kind, b1) :- ParseByte(b);
    if kind != INVITATION && kind != RECOVERY then Bad else
      var (role, b2) :- ParseRole(b1);
      var (f, rest) :- ParseInner(ok, b2, kind, role);
      if rest != [] then Bad else Got(f, rest)
  }

  function DecodedFields(ok: KeyCheck, b: Bytes): Result<BundleFields, BundleError> {
    match ParseFields(ok, b) case Bad => Failure(BadPlaintext) case Got(f, _) => Success(f)
  }

  lemma ParseOfPutTail(f: BundleFields)
    requires f.InBounds()
    ensures ParseOwn(PutOwn(f.own, [|f.hints|] + PutHints(f.hints, [])), TypeOf(f.own)) ==
              Got(f.own, [|f.hints|] + PutHints(f.hints, []))
    ensures ParseHintList([|f.hints|] + PutHints(f.hints, [])) == Got(f.hints, [])
  {
    hide PutHints, ParseHints, Take;
    var t := [|f.hints|] + PutHints(f.hints, []);
    if f.own.Some? {
      TakeOfPut(f.own.value.signingSeed, f.own.value.encryptionSeed + t);
      TakeOfPut(f.own.value.encryptionSeed, t);
    }
    TakeOfPut([|f.hints|], PutHints(f.hints, []));
    ParseOfPutHints(f.hints, []);
  }

  lemma ParseOfPutPeer(ok: KeyCheck, f: BundleFields, tail: Bytes)
    requires ok(f.peerKey)
    ensures ParsePeer(ok, PutPeer(f, tail)) == Got(Peer(f.peer, f.peerKey, f.createdAt), tail)
  {
    hide PutU64, ParseU64, Take;
    TakeOfPut(f.peer, f.peerKey + PutU64(f.createdAt, tail));
    TakeOfPut(f.peerKey, PutU64(f.createdAt, tail));
    ParseOfPutU64(f.createdAt, tail);
  }

  /** A plaintext decodes to fields exactly when it is their encoding, for invitations and recoveries. */
  lemma FieldsExact(ok: KeyCheck, b: Bytes, f: BundleFields)
    ensures DecodedFields(ok, b) == Success(f) <==> ok(f.peerKey) && EncodedFields(f) == Success(b)
  {
    hide PutPeer, ParsePeer, PutOwn, ParseOwn, ParseHintList, PutHints, Take;
    if ok(f.peerKey) && f.InBounds() && b == FieldsBytes(f) {
      var t1 := [|f.hints|] + PutHints(f.hints, []);
      var t2 := PutOwn(f.own, t1);
      var t3 := PutPeer(f, t2);
      TakeOfPut([TypeOf(f.own)], [RoleByte(f.role)] + t3);
      TakeOfPut([RoleByte(f.role)], t3);
      ParseOfPutPeer(ok, f, t2);
      ParseOfPutTail(f);
    }
  }

  // ----- fields as written and read -----

  method EncodeFields(f: BundleFields) returns (r: Result<Bytes, BundleError>)
    ensures r == EncodedFields(f)
  {
    if |f.hints| > MAX_RELAY_HINTS {
      return Failure(RelayHints);
    }
    var i := 0;
    while i < |f.hints|
      invariant 0 <= i <= |f.hints|
      invariant ChunksFit(f.hints[..i], MAX_RELAY_HINT_BYTES)
    {
      if |f.hints[i]| > MAX_RELAY_HINT_BYTES {
        return Failure(RelayHints);
      }
      i := i + 1;
    }
    assert f.hints[..i] == f.hints;
    hide PutHints, PutU64, Be;
    assert Pow256(8) == U64_LIMIT;
    var out: Bytes := [TypeOf(f.own)];
    out := out + [RoleByte(f.role)];
    out := out + f.peer + f.peerKey + PutU64(f.createdAt, []);
    if f.own.Some? {
      out := out + f.own.value.signingSeed + f.own.value.encryptionSeed;
    }
    out := out + [|f.hints|];
    FieldsFromParts(f, out);
    out := PushHints(out, f.hints);
    assert out == out + [];
    return Success(out);
  }

  /** Everything before the hints, laid end to end. */
  lemma FieldsFromParts(f: BundleFields, out: Bytes)
    requires f.InBounds()
    requires out == [TypeOf(f.own)] + [RoleByte(f.role)] + (f.peer + f.peerKey + PutU64(f.createdAt, []))
                    + (match f.own case None => [] case Some(k) => k.signingSeed + k.encryptionSeed) + [|f.hints|]
    ensures out + PutHints(f.hints, []) == FieldsBytes(f)
  {
    hide PutHints, Be;
    var t1 := [|f.hints|] + PutHints(f.hints, []);
    var t2 := PutOwn(f.own, t1);
    assert PutU64(f.createdAt, t2) == PutU64(f.createdAt, []) + t2;
  }

  method PushHints(output: Bytes, hints: seq<Bytes>) returns (r: Bytes)
    requires ChunksFit(hints, MAX_RELAY_HINT_BYTES)
    ensures forall t :: r + t == output + PutHints(hints, t)
  {
    r := output;
    var i := 0;
    while i < |hints|
      invariant 0 <= i <= |hints|
      invariant forall t :: r + PutHints(hints[i..], t) == output + PutHints(hints, t)
    {
      ghost var before := r;
      assert Pow256(2) == U16_LIMIT;
      r := r + Be(|hints[i]|, 2);
      r := r + hints[i];
      forall t ensures r + PutHints(hints[i + 1..], t) == output + PutHints(hints, t) {
        assert hints[i..][1..] == hints[i + 1..];
        var u := PutHints(hints[i + 1..], t);
        assert PutHint(hints[i], u) == Be(|hints[i]|, 2) + (hints[i] + u);
        assert before + PutHint(hints[i], u) == output + PutHints(hints, t);
      }
      i := i + 1;
    }
    assert hints[i..] == [];
  }

  method TakeHints(cursor: StateCursor, count: nat) returns (r: Result<seq<Bytes>, Malformed>)
    modifies cursor
    ensures cursor.Reads(ParseHints(old(cursor.rest), count), r)
  {
    hide ParseHints, PutHints, ChunksFit, Take;
    ghost var whole := ParseHints(cursor.rest, count);
    var hints: seq<Bytes> := [];
    assert whole.Got? ==> hints + whole.value == whole.value;
    var i := 0;
    while i < count
      invariant 0 <= i <= count
      invariant Continues(whole, hints, ParseHints(cursor.rest, count - i))
    {
      HintsFromFirst(cursor.rest, count - i);
      var length :- cursor.TakeBytes(2);
      if FromBe(length) > MAX_RELAY_HINT_BYTES {
        return Failure(Malformed);
      }
      var hint :- cursor.TakeBytes(FromBe(length));
      ContinuesBy(whole, hints, hint, ParseHints(cursor.rest, count - i - 1));
      hints := hints + [hint];
      i := i + 1;
    }
    HintsFromFirst(cursor.rest, 0);
    assert hints + [] == hints;
    return Success(hints);
  }

  lemma HintsFromFirst(b: Bytes, n: nat)
    ensures ParseHints(b, n)
            == if n == 0 then Got([], b)
               else match ParseHint(b)
                    case Bad => Bad
                    case Got(x, rest) =>
                      match ParseHints(rest, n - 1) case Bad => Bad case Got(xs, left) => Got([x] + xs, left)
  {
  }

  method DecodeFields(ok: KeyCheck, plaintext: Bytes) returns (r: Result<BundleFields, BundleError>)
    ensures r == DecodedFields(ok, plaintext)
  {
    var read := ReadFields(ok, plaintext);
    match read
    case Failure(_) => return Failure(BadPlaintext);
    case Success(f) => return Success(f);
  }

  method ReadFields(ok: KeyCheck, plaintext: Bytes) returns (r: Result<BundleFields, Malformed>)
    ensures match ParseFields(ok, plaintext) case Got(f, _) => r == Success(f) case Bad => r.Failure?
  {
    hide Take, ParseByte, ParseId, ParseU64, ParseHints, PutHints, PutU64, PutOwn, PutPeer, FieldsBytes, ChunksFit,
      RoleByte;
    var cursor := new StateCursor(plaintext);
    var kind :- cursor.TakeByte();
    if kind != INVITATION && kind != RECOVERY {
      return Failure(Malformed);
    }
    var role :- cursor.TakeByte();
    if role > 1 {
      return Failure(Malformed);
    }
    var peer :- cursor.TakeId();
    var key :- cursor.TakeId();
    if !ok(key) {
      return Failure(Malformed);
    }
    var createdAt :- cursor.TakeU64();
    var own: Option<OwnIdentity> := None;
    if kind == RECOVERY {
      var signingSeed :- cursor.TakeId();
      var encryptionSeed :- cursor.TakeId();
      own := Some(OwnIdentity(signingSeed, encryptionSeed));
    }
    var count :- cursor.TakeByte();
    if count > MAX_RELAY_HINTS {
      return Failure(Malformed);
    }
    var hints :- TakeHints(cursor, count);
    if cursor.rest != [] {
      return Failure(Malformed);
    }
    return Success(BundleFields(if role == 0 then Sender else Recipient, peer, key, createdAt, own, hints));
  }

  // ----- the envelope -----

  /** What a seal is bound to: queue, exporter, importer and bundle identifier. */
  datatype Context = Context(queue: Id, sender: Id, recipient: Id, message: Id)

  type Sealed = s: Bytes | |s| <= QC.MAX_MESSAGE_BYTES witness []

  function Envelope(queue: Id, bundle: Id, sealed: Bytes): Bytes {
    BUNDLE_MAGIC + ([BUNDLE_VERSION] + (queue + (bundle + sealed)))
  }

  function SealBundle(seal: (Context, Bytes) -> Option<Sealed>, context: Context, f: BundleFields)
    : Result<Bytes, BundleError>
  {
    var plaintext :- EncodedFields(f);
    match seal(context, plaintext)
    case None => Failure(CryptoFailed)
    case Some(s) => Success(Envelope(context.queue, context.message, s))
  }

  /** The exporter is the one the caller expects, never one read from the envelope. */
  function OpenBundle(open: (Context, Bytes) -> Option<Bytes>, ok: KeyCheck, importer: Id, exporter: Id,
                      envelope: Bytes)
    : Result<(Id, Id, BundleFields), BundleError>
  {
    if |envelope| < ENVELOPE_HEADER_BYTES || envelope[..4] != BUNDLE_MAGIC then Failure(BadPlaintext)
    else if envelope[4] != BUNDLE_VERSION then Failure(UnsupportedVersion)
    else
      var queue: Id, bundle: Id, sealed := envelope[5..37], envelope[37..69], envelope[69..];
      if |sealed| > QC.MAX_MESSAGE_BYTES then Failure(BadPlaintext)
      else
        match open(Context(queue, exporter, importer, bundle), sealed)
        case None => Failure(CryptoFailed)
        case Some(plaintext) =>
          match DecodedFields(ok, plaintext)
          case Failure(e) => Failure(e)
          case Success(f) => Success((queue, bundle, f))
  }

  /** An envelope is its parts. */
  lemma EnvelopeExact(envelope: Bytes, queue: Id, bundle: Id, sealed: Bytes)
    ensures envelope == Envelope(queue, bundle, sealed) <==>
              && |envelope| >= ENVELOPE_HEADER_BYTES && envelope[..4] == BUNDLE_MAGIC && envelope[4] == BUNDLE_VERSION
              && envelope[5..37] == queue && envelope[37..69] == bundle && envelope[69..] == sealed
  {
    if |envelope| >= ENVELOPE_HEADER_BYTES {
      assert envelope == envelope[..4] + ([envelope[4]] + (envelope[5..37] + (envelope[37..69] + envelope[69..])));
    }
  }

  /** A bundle opens to fields exactly when it is the envelope of a payload that opens, under the expected
      exporter, to the encoding of those fields. */
  lemma OpenExact(open: (Context, Bytes) -> Option<Bytes>, ok: KeyCheck, importer: Id, exporter: Id, envelope: Bytes,
                  queue: Id, bundle: Id, f: BundleFields)
    ensures OpenBundle(open, ok, importer, exporter, envelope) == Success((queue, bundle, f)) <==>
              exists sealed: Sealed ::
                && envelope == Envelope(queue, bundle, sealed)
                && f.InBounds() && ok(f.peerKey)
                && open(Context(queue, exporter, importer, bundle), sealed) == Some(FieldsBytes(f))
  {
    hide DecodedFields, FieldsBytes, Envelope;
    if |envelope| >= ENVELOPE_HEADER_BYTES {
      var sealed := envelope[69..];
      EnvelopeExact(envelope, queue, bundle, sealed);
      match open(Context(queue, exporter, importer, bundle), sealed) {
        case Some(plaintext) => FieldsExact(ok, plaintext, f);
        case None =>
      }
    }
    forall sealed: Sealed | envelope == Envelope(queue, bundle, sealed)
      ensures |envelope| >= 69 && envelope[69..] == sealed
    {
      EnvelopeExact(envelope, queue, bundle, sealed);
    }
  }

  /** The envelope holds a payload that does not open under the expected exporter. */
  ghost predicate Unopened(open: (Context, Bytes) -> Option<Bytes>, importer: Id, exporter: Id, envelope: Bytes,
                           queue: Id, bundle: Id, sealed: Sealed)
  {
    envelope == Envelope(queue, bundle, sealed) && open(Context(queue, exporter, importer, bundle), sealed) == None
  }

  /** Why a bundle does not open: another version after the magic, a payload that does not open, or anything
      else as malformed. */
  lemma OpenReportsExactly(open: (Context, Bytes) -> Option<Bytes>, ok: KeyCheck, importer: Id, exporter: Id,
                           envelope: Bytes)
    ensures var r := OpenBundle(open, ok, importer, exporter, envelope);
            && (r == Failure(UnsupportedVersion) <==>
                  |envelope| >= 69 && envelope[..4] == [67, 87, 79, 66] && envelope[4] != 1)
            && (r == Failure(CryptoFailed) <==>
                  exists queue: Id, bundle: Id, sealed: Sealed ::
                    Unopened(open, importer, exporter, envelope, queue, bundle, sealed))
            && (r.Failure? ==> r.error in {UnsupportedVersion, CryptoFailed, BadPlaintext})
  {
    hide ParseFields, Envelope;
    if OpenBundle(open, ok, importer, exporter, envelope) == Failure(CryptoFailed) {
      var queue: Id, bundle: Id, sealed: Sealed := envelope[5..37], envelope[37..69], envelope[69..];
      EnvelopeExact(envelope, queue, bundle, sealed);
      assert Unopened(open, importer, exporter, envelope, queue, bundle, sealed);
    }
    forall queue: Id, bundle: Id, sealed: Sealed | Unopened(open, importer, exporter, envelope, queue, bundle, sealed)
      ensures OpenBundle(open, ok, importer, exporter, envelope) == Failure(CryptoFailed)
    {
      EnvelopeExact(envelope, queue, bundle, sealed);
    }
  }

  /** What one device exports, the intended importer who expects that exporter opens. */
  lemma OpenOfSeal(seal: (Context, Bytes) -> Option<Sealed>, open: (Context, Bytes) -> Option<Bytes>, ok: KeyCheck,
                   c: Context, f: BundleFields)
    requires forall p :: seal(c, p).Some? ==> open(c, seal(c, p).value) == Some(p)
    requires ok(f.peerKey)
    ensures match SealBundle(seal, c, f)
            case Failure(e) => (e == RelayHints <==> !f.InBounds())
            case Success(envelope) =>
              OpenBundle(open, ok, c.recipient, c.sender, envelope)
              == Success((c.queue, c.message, f))
  {
    hide DecodedFields, FieldsBytes, OpenBundle, Envelope;
    var sealed := SealBundle(seal, c, f);
    if sealed.Success? {
      var s: Sealed := seal(c, FieldsBytes(f)).value;
      OpenExact(open, ok, c.recipient, c.sender, sealed.value, c.queue, c.message, f);
      assert sealed.value == Envelope(c.queue, c.message, s);
    }
  }
}
