/** The formats byte by byte, as the published vectors write them, for every identifier in them. */
module Layouts {
  import opened Base
  import opened Cbor
  import opened Manifest
  import QC = QueueCodec
  import BC = BlobCodec
  import S = Sealing

  lemma SmallArguments()
    ensures Be(32, 1) == [0x20] && Be(60, 1) == [0x3c] && Be(68, 1) == [0x44]
  {
    assert Be(32 / 256, 0) == [] && Be(60 / 256, 0) == [] && Be(68 / 256, 0) == [];
  }

  /** An argument as section 3 of RFC 8949 lays it out: in the initial byte below 24, else after the codes 24,
      25, 26 and 27 in one, two, four and eight bytes, each only from where the narrower form ends. */
  lemma ArgumentLayout(major: nat, v: nat, tail: Bytes)
    requires major < 8 && v < U64_LIMIT
    ensures var b := PutArgument(major, v, tail);
            && b != [] && b[0] == 32 * major + (if v < 24 then v
                                                else if v < 0x100 then 24
                                                else if v < 0x1_0000 then 25
                                                else if v < 0x1_0000_0000 then 26 else 27)
            && var w := if v < 24 then 0 else if v < 0x100 then 1 else if v < 0x1_0000 then 2
                        else if v < 0x1_0000_0000 then 4 else 8;
               && |b| == 1 + w + |tail| && b[1 + w..] == tail && (w > 0 ==> FromBe(b[1..1 + w]) == v)
  {
    var w := Width(v);
    var b := PutArgument(major, v, tail);
    hide Be, FromBe;
    if w > 0 {
      WideArgument(32 * major + Code(w), v, w, tail);
    } else {
      assert b[1..] == tail;
    }
  }

  lemma IdItem(x: Id, tail: Bytes)
    ensures PutBytes(x, tail) == [0x58, 0x20] + (x + tail)
  {
    SmallArguments();
  }

  /** The four bytes that open a request: payload array, direction, command, body array. */
  lemma RequestHead(command: nat, arity: nat, tail: Bytes)
    requires command < 24 && arity < 24
    ensures PutArray(3, PutUnsigned(0, PutUnsigned(command, PutArray(arity, tail)))) ==
              [0x83, 0x00, command, 0x80 + arity] + tail
  {
    var t := PutArray(arity, tail);
    assert t == [0x80 + arity] + tail;
    assert PutUnsigned(command, t) == [command] + t;
  }

  /** The normative SEND request: payload "hi", 60 seconds, empty proof. */
  lemma SendRequestLayout(id: RequestId, q: Id, s: Id, m: Id)
    ensures QC.RequestBytes(QC.RequestFrame(id, QC.Send(q, s, m, [0x68, 0x69], 60), []))
            == [0x01] + (id + ([0x83, 0x00, 0x02, 0x85] + ([0x58, 0x20] + (q + ([0x58, 0x20] + (s + ([0x58, 0x20] + (m
               + [0x42, 0x68, 0x69, 0x18, 0x3c, 0x40]))))))))
  {
    var t := PutBytes([0x68, 0x69], PutUnsigned(60, PutBytes([], [])));
    assert t == [0x42, 0x68, 0x69, 0x18, 0x3c, 0x40] by {
      SmallArguments();
    }
    hide PutBytes, PutUnsigned, PutArray;
    IdItem(m, t);
    IdItem(s, PutBytes(m, t));
    IdItem(q, PutBytes(s, PutBytes(m, t)));
    RequestHead(2, 5, PutBytes(q, PutBytes(s, PutBytes(m, t))));
  }

  /** The normative SEND response. */
  lemma SendResponseLayout(id: RequestId)
    ensures QC.ResponseBytes(QC.ResponseFrame(id, QC.Completed(QC.Sent(false))))
            == [0x01] + id + [0x84, 0x01, 0x02, 0x00, 0x81, 0x00]
  {
  }

  /** The published non-canonical items: an identifier and an array with longer lengths than they need,
      and an array of indefinite length. */
  lemma NoncanonicalItemsAreRefused(x: Id)
    ensures ParseBytes([0x59] + ([0x00, 0x20] + x), 32) == Fail(NonCanonicalArgument)
    ensures ParseArray([0x98] + ([0x05] + []), 5) == Fail(NonCanonicalArgument)
    ensures ParseArray([0x9f] + [0xff], 5) == Fail(UnexpectedType)
  {
    assert Be(32, 2) == [0x00, 0x20] by {
      assert Be(0, 1) == Be(0, 0) + [0];
    }
    assert Be(5, 1) == [0x05] by {
      assert Be(0, 0) == [];
    }
    hide Be, FromBe, ParseArgument;
    WiderFormIsRefused(BYTE_STRING, 32, 2, x);
    WiderFormIsRefused(ARRAY, 5, 1, []);
    ReservedCodeIsRefused(ARRAY, 31, [0xff]);
  }

  lemma ManifestNumbers()
    ensures Be(64, 8) == [0, 0, 0, 0, 0, 0, 0, 0x40] && Be(32, 4) == [0, 0, 0, 0x20] && Be(2, 4) == [0, 0, 0, 2]
  {
    var z := [0, 0, 0, 0, 0, 0, 0, 0x40];
    FromZeros(z[..7]);
    BeOfFromBe(z);
    assert FromBe(z) == 64;
    var y := [0, 0, 0, 0x20];
    FromZeros(y[..3]);
    BeOfFromBe(y);
    var x := [0, 0, 0, 2];
    FromZeros(x[..3]);
    BeOfFromBe(x);
  }

  lemma {:induction false} FromZeros(s: Bytes)
    requires forall i :: 0 <= i < |s| ==> s[i] == 0
    ensures FromBe(s) == 0
  {
    if s != [] {
      FromZeros(s[..|s| - 1]);
    }
  }

  lemma TwoDigests(d0: Id, d1: Id)
    ensures Join([d0, d1]) == d0 + d1
  {
    assert [d0, d1][1..] == [d1] && [d1][1..] == [];
    assert Join([d1]) == d1 + [] == d1;
  }

  /** The published two-chunk manifest, for every salt and every pair of digests. */
  lemma ManifestLayout(salt: Salt, d0: Id, d1: Id)
    ensures var m := Manifest(salt, 64, 32, [d0, d1]);
            && m.Valid()
            && ManifestBytes(m) == [0x43, 0x57, 0x42, 0x31] + [0, 1] + [0, 1] + salt
                                   + [0, 0, 0, 0, 0, 0, 0, 0x40] + [0, 0, 0, 0x20] + [0, 0, 0, 2] + (d0 + d1)
  {
    ManifestNumbers();
    TwoDigests(d0, d1);
    hide Be, Join;
    var m := Manifest(salt, 64, 32, [d0, d1]);
    assert m.Valid() by {
      S.LimitsArePowers(32);
      S.OneIsPower();
      S.FiveDoublings(1);
    }
  }

  /** COMMIT, with its 68-byte proof. */
  lemma CommitLayout(id: RequestId, u: Id, cap: Id, b: Id, auth: Bytes)
    requires |auth| == 68
    ensures BC.BlobRequestBytes(BC.BlobFrame(id, BC.Commit(u, cap, b), auth))
            == [0x01] + (id + ([0x83, 0x00, 0x03, 0x83] + ([0x58, 0x20] + (u + ([0x58, 0x20] + (cap + ([0x58, 0x20] + (b
               + ([0x58, 0x44] + auth)))))))))
  {
    var t := PutBytes(auth, []);
    assert t == [0x58, 0x44] + auth by {
      SmallArguments();
    }
    hide PutBytes, PutUnsigned, PutArray;
    IdItem(b, t);
    IdItem(cap, PutBytes(b, t));
    IdItem(u, PutBytes(cap, PutBytes(b, t)));
    RequestHead(3, 3, PutBytes(u, PutBytes(cap, PutBytes(b, t))));
  }

  /** A 22-byte plaintext in 32-byte chunks is padded to 64 bytes. */
  lemma SealedSizeOfVector()
    ensures S.Layout(22, 32) == Success(64)
  {
    S.LimitsArePowers(32);
    S.LayoutExact(22, 32);
    assert IsPowerOfTwo(64) && IsPowerOfTwo(32);
    var p := S.Layout(22, 32).value;
    assert p <= 64;
  }
}
