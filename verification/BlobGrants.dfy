/** What grants let their holders read, and when renewal and deletion touch one grant only. */
module BlobGrants {
  import opened Base
  import opened Manifest
  import opened DurableBlob
  import opened BlobInvariant
  import DQ = DurableQueue

  // ----- reading -----

  /** Nothing can be read, renewed or deleted under an identity that was never published. */
  lemma UnpublishedIsUnreadable(sha: Hash, db: BlobDb, b: Id, column: Column, cap: Id, now: U64)
    requires Sound(sha, db) && b !in db.objects
    ensures AuthorizeGrant(db, b, column, cap, now) == Failure(NotFound)
  {
    hide StagedSound, ObjectsIdentified, ObjectsComplete, ChunksSound, Parses;
    assert forall i :: 0 <= i < |db.grants| ==> GrantSound(db.uploads, db.objects, db.grants[i]);
  }

  lemma AuthorizedIsPublished(sha: Hash, db: BlobDb, b: Id, column: Column, cap: Id, now: U64)
    requires Sound(sha, db) && AuthorizeGrant(db, b, column, cap, now).Success?
    ensures b in db.objects && Identified(sha, db.objects[b], b)
  {
    hide Sound, Identified, AuthorizeGrant;
    if b !in db.objects {
      UnpublishedIsUnreadable(sha, db, b, column, cap, now);
    }
    PublishedIsIdentified(sha, db, b);
  }

  lemma PublishedIsIdentified(sha: Hash, db: BlobDb, b: Id)
    requires Sound(sha, db)
    ensures b in db.objects ==> Identified(sha, db.objects[b], b)
  {
  }

  /** In a reachable state an authorized reader gets the manifest the identity names. */
  lemma ManifestIsServed(sha: Hash, db: BlobDb, b: Id, cap: Id, now: U64)
    requires Sound(sha, db) && AuthorizeGrant(db, b, Download, cap, now).Success?
    ensures var a := GetManifestTx(sha, db, b, cap, now);
            && a.Success? && a.value.ManifestGot?
            && a.value.manifest.Valid() && Identify(sha, a.value.manifest) == b
            && b in db.objects && ManifestBytes(a.value.manifest) == db.objects[b]
            && a.value.expiresAt == AuthorizeGrant(db, b, Download, cap, now).value
  {
    hide Sound, AuthorizeGrant, Parse, ManifestBytes, Identify;
    AuthorizedIsPublished(sha, db, b, Download, cap, now);
  }

  /** In a reachable state an authorized reader gets every chunk of the manifest, with its digest, and
      the index limit is the only refusal. */
  lemma ChunkIsServed(sha: Hash, db: BlobDb, b: Id, cap: Id, i: U32, now: U64)
    requires Sound(sha, db) && AuthorizeGrant(db, b, Download, cap, now).Success?
    ensures b in db.objects && Parses(db.objects[b])
    ensures var m, a := Decoded(db.objects[b]), GetChunkTx(sha, db, b, cap, i, now);
            if i < |m.digests|
            then a.Success? && a.value.ChunkGot? && ChunkFits(sha, m, i, a.value.chunk)
              && a.value.chunk == db.chunks[(b, i)]
            else a == Failure(BlobError.LimitOutOfRange)
  {
    hide Sound, AuthorizeGrant, Parse, ManifestBytes, Identify;
    AuthorizedIsPublished(sha, db, b, Download, cap, now);
    CellOfObject(sha, db, b, i);
  }

  lemma CellOfObject(sha: Hash, db: BlobDb, b: Id, i: nat)
    requires Sound(sha, db)
    ensures b in db.objects && InRange(db.objects[b], i) ==>
              (b, i) in db.chunks && Fits(sha, db.objects[b], i, db.chunks[(b, i)])
  {
    hide Parses, Identified, Fits, InRange, GrantSound, Granted;
  }

  /** A grant whose capability no earlier grant of the blob shares opens it until it expires. */
  lemma LiveGrantAuthorizes(db: BlobDb, i: nat, column: Column, now: U64)
    requires i < |db.grants| && !db.grants[i].deleted && now < DQ.Value(db.grants[i].expiresAt)
    requires forall j :: 0 <= j < i ==>
               !db.grants[j].Matches(db.grants[i].blob, column, db.grants[i].Capability(column))
    ensures var g := db.grants[i];
            AuthorizeGrant(db, g.blob, column, g.Capability(column), now) == Success(DQ.Value(g.expiresAt))
  {
  }

  // ----- renewal and deletion -----

  /** No two grants of one blob share a capability of this kind. */
  ghost predicate Distinct(grants: seq<Grant>, column: Column) {
    forall i, j :: 0 <= i < j < |grants| && grants[i].blob == grants[j].blob ==>
      grants[i].Capability(column) != grants[j].Capability(column)
  }

  predicate ExpiresNoLater(g: Grant, h: Grant) {
    DQ.Value(g.expiresAt) <= DQ.Value(h.expiresAt)
  }

  /** No grant loses time. */
  ghost predicate NeverShortens(before: seq<Grant>, after: seq<Grant>) {
    |before| == |after| && forall i :: 0 <= i < |before| ==> ExpiresNoLater(before[i], after[i])
  }

  /** No live grant with this blob and renewal capability outlives the first one. */
  ghost predicate FirstIsLatest(grants: seq<Grant>, b: Id, cap: Id, first: nat)
    requires first < |grants|
  {
    forall i :: 0 <= i < |grants| && grants[i].Matches(b, Renewal, cap) && !grants[i].deleted ==>
      ExpiresNoLater(grants[i], grants[first])
  }

  /** What a successful renewal does: every live match gets the later of the first match's expiry and
      now + ttl, and no other grant changes. */
  lemma RenewedGrants(db: BlobDb, b: Id, cap: Id, now: U64, ttl: U64)
    requires RenewTx(db, b, cap, now, ttl).1.Success?
    ensures var (db', a) := RenewTx(db, b, cap, now, ttl);
            var first := FirstMatch(db.grants, b, Renewal, cap);
            && first.Some? && !db.grants[first.value].deleted && now < DQ.Value(db.grants[first.value].expiresAt)
            && a.value.Renewed? && a.value.expiresAt >= now + ttl
              && a.value.expiresAt >= DQ.Value(db.grants[first.value].expiresAt)
            && (a.value.expiresAt == now + ttl || a.value.expiresAt == DQ.Value(db.grants[first.value].expiresAt))
            && db'.grants == Extended(db.grants, b, cap, a.value.expiresAt)
  {
    hide Extended;
  }

  lemma ExtendedAt(grants: seq<Grant>, b: Id, cap: Id, expiry: U64, i: nat)
    requires i < |grants|
    ensures var g := Extended(grants, b, cap, expiry)[i];
            if grants[i].Matches(b, Renewal, cap) && !grants[i].deleted
            then g == grants[i].(expiresAt := g.expiresAt) && DQ.Value(g.expiresAt) == expiry
            else g == grants[i]
  {
  }

  lemma RenewKeepsLatest(db: BlobDb, b: Id, cap: Id, now: U64, ttl: U64)
    requires var first := FirstMatch(db.grants, b, Renewal, cap);
             first.Some? ==> db.grants[first.value].deleted || FirstIsLatest(db.grants, b, cap, first.value)
    ensures NeverShortens(db.grants, RenewTx(db, b, cap, now, ttl).0.grants)
  {
    hide RenewTx, FirstMatch, Extended;
    if RenewTx(db, b, cap, now, ttl).1.Success? {
      RenewedGrants(db, b, cap, now, ttl);
      var (db', a) := RenewTx(db, b, cap, now, ttl);
      forall i | 0 <= i < |db.grants| ensures ExpiresNoLater(db.grants[i], db'.grants[i]) {
        ExtendedAt(db.grants, b, cap, a.value.expiresAt, i);
      }
    } else {
      RefusedRenewal(db, b, cap, now, ttl);
    }
  }

  lemma RefusedRenewal(db: BlobDb, b: Id, cap: Id, now: U64, ttl: U64)
    ensures RenewTx(db, b, cap, now, ttl).1.Failure? ==> RenewTx(db, b, cap, now, ttl).0 == db
  {
  }

  /** The renewal that shortens: at the last second of the first match, by one second. */
  lemma RenewShortens(db: BlobDb, b: Id, cap: Id, first: nat, i: nat)
    requires FirstMatch(db.grants, b, Renewal, cap) == Some(first) && !db.grants[first].deleted
    requires i < |db.grants| && db.grants[i].Matches(b, Renewal, cap) && !db.grants[i].deleted
    requires 0 < DQ.Value(db.grants[first].expiresAt) < DQ.Value(db.grants[i].expiresAt)
    ensures !NeverShortens(db.grants, RenewTx(db, b, cap, DQ.Value(db.grants[first].expiresAt) - 1, 1).0.grants)
  {
    hide FirstMatch, Extended;
    var expiry := DQ.Value(db.grants[first].expiresAt);
    var db' := RenewTx(db, b, cap, expiry - 1, 1).0;
    ExtendedAt(db.grants, b, cap, expiry, i);
    assert !ExpiresNoLater(db.grants[i], db'.grants[i]);
  }

  /** "Extends but never shortens", for one blob and capability and every time and ttl: it holds exactly
      when the first match is out of reach or no live match outlives it. */
  lemma NeverShortensExactly(db: BlobDb, b: Id, cap: Id)
    ensures (forall now: U64, ttl: U64 :: NeverShortens(db.grants, RenewTx(db, b, cap, now, ttl).0.grants))
            <==> match FirstMatch(db.grants, b, Renewal, cap)
                 case None => true
                 case Some(first) =>
                   || db.grants[first].deleted || DQ.Value(db.grants[first].expiresAt) == 0
                   || FirstIsLatest(db.grants, b, cap, first)
  {
    hide RenewTx, FirstMatch, NeverShortens;
    var match1 := FirstMatch(db.grants, b, Renewal, cap);
    if match1.Some? && !db.grants[match1.value].deleted && DQ.Value(db.grants[match1.value].expiresAt) > 0
       && !FirstIsLatest(db.grants, b, cap, match1.value) {
      var i :| 0 <= i < |db.grants| && db.grants[i].Matches(b, Renewal, cap) && !db.grants[i].deleted
               && !ExpiresNoLater(db.grants[i], db.grants[match1.value]);
      RenewShortens(db, b, cap, match1.value, i);
    } else {
      forall now: U64, ttl: U64 ensures NeverShortens(db.grants, RenewTx(db, b, cap, now, ttl).0.grants) {
        if match1.Some? && DQ.Value(db.grants[match1.value].expiresAt) == 0 {
          ExpiredRenewal(db, b, cap, now, ttl);
        } else {
          RenewKeepsLatest(db, b, cap, now, ttl);
        }
      }
    }
  }

  lemma ExpiredRenewal(db: BlobDb, b: Id, cap: Id, now: U64, ttl: U64)
    requires FirstMatch(db.grants, b, Renewal, cap).Some?
    requires DQ.Value(db.grants[FirstMatch(db.grants, b, Renewal, cap).value].expiresAt) == 0
    ensures NeverShortens(db.grants, RenewTx(db, b, cap, now, ttl).0.grants)
  {
    hide FirstMatch;
  }

  /** With distinct renewal capabilities per blob, no renewal ever shortens a grant. */
  lemma DistinctNeverShortens(db: BlobDb, b: Id, cap: Id, now: U64, ttl: U64)
    requires Distinct(db.grants, Renewal)
    ensures NeverShortens(db.grants, RenewTx(db, b, cap, now, ttl).0.grants)
  {
    RenewKeepsLatest(db, b, cap, now, ttl);
  }

  /** Positions of the grants a deletion takes away. */
  ghost function Taken(before: seq<Grant>, after: seq<Grant>): set<nat>
    requires |before| == |after|
  {
    set i: nat | i < |before| && !before[i].deleted && after[i].deleted
  }

  /** "Exactly one grant": a successful deletion withdraws the first match, and nothing else exactly
      when no other live grant shares the blob and the deletion capability. */
  lemma DeletesOneExactly(db: BlobDb, b: Id, cap: Id, now: U64)
    requires DeleteTx(db, b, cap, now).1.Success?
    ensures var db' := DeleteTx(db, b, cap, now).0;
            var first := FirstMatch(db.grants, b, Deletion, cap);
            && first.Some? && |db'.grants| == |db.grants|
            && first.value in Taken(db.grants, db'.grants)
            && (forall i :: 0 <= i < |db.grants| && !db.grants[i].Matches(b, Deletion, cap) ==>
                db'.grants[i] == db.grants[i])
            && (|Taken(db.grants, db'.grants)| == 1 <==>
                  forall i :: 0 <= i < |db.grants| && i != first.value && db.grants[i].Matches(b, Deletion, cap) ==>
                    db.grants[i].deleted)
  {
    hide FirstMatch;
    var db' := DeleteTx(db, b, cap, now).0;
    var first := FirstMatch(db.grants, b, Deletion, cap).value;
    var taken := Taken(db.grants, db'.grants);
    assert {first} <= taken;
    SameSize({first}, taken);
    if i: nat :| i < |db.grants| && i != first && db.grants[i].Matches(b, Deletion, cap) && !db.grants[i].deleted {
      assert i in taken;
    } else {
      assert taken == {first};
    }
  }

  lemma DistinctDeletesOne(db: BlobDb, b: Id, cap: Id, now: U64)
    requires Distinct(db.grants, Deletion) && DeleteTx(db, b, cap, now).1.Success?
    ensures |Taken(db.grants, DeleteTx(db, b, cap, now).0.grants)| == 1
  {
    hide DeleteTx;
    DeletesOneExactly(db, b, cap, now);
  }

  /** The first match never changes: grants are only added behind it. */
  lemma FirstMatchStays(grants: seq<Grant>, grants': seq<Grant>, b: Id, column: Column, cap: Id)
    requires GrantsKept(grants, grants') && FirstMatch(grants, b, column, cap).Some?
    ensures FirstMatch(grants', b, column, cap) == FirstMatch(grants, b, column, cap)
  {
    hide FirstMatch;
    var f, f' := FirstMatch(grants, b, column, cap), FirstMatch(grants', b, column, cap);
    forall i | 0 <= i < |grants| ensures grants[i].Matches(b, column, cap) <==> grants'[i].Matches(b, column, cap) {
      assert GrantKept(grants[i], grants'[i]);
    }
  }

  /** A capability is refused as not found, whatever comes later, exactly when it has a first match and
      that is deleted. */
  lemma WithdrawnForGood(db: BlobDb, b: Id, column: Column, cap: Id)
    requires FirstMatch(db.grants, b, column, cap).Some?
    ensures db.grants[FirstMatch(db.grants, b, column, cap).value].deleted <==>
              forall db': BlobDb, later: U64 :: Keeps(db, db') ==>
                AuthorizeGrant(db', b, column, cap, later) == Failure(NotFound)
  {
    hide FirstMatch, UploadsKept, Extends, ChunksClosed;
    var first := FirstMatch(db.grants, b, column, cap).value;
    if db.grants[first].deleted {
      forall db': BlobDb, later: U64 | Keeps(db, db')
        ensures AuthorizeGrant(db', b, column, cap, later) == Failure(NotFound)
      {
        FirstMatchStays(db.grants, db'.grants, b, column, cap);
        assert GrantKept(db.grants[first], db'.grants[first]);
      }
    } else {
      KeepsItself(db);
      assert AuthorizeGrant(db, b, column, cap, 0) != Failure(NotFound);
    }
  }

  /** After a deletion, the deletion capability is refused as not found in every later state; and any
      capability of a withdrawn grant is, exactly when the first grant that answers to it is withdrawn
      by the same deletion or was deleted before. */
  lemma DeletedIsGone(db: BlobDb, b: Id, cap: Id, now: U64, column: Column, other: Id)
    requires DeleteTx(db, b, cap, now).1.Success? && FirstMatch(db.grants, b, column, other).Some?
    ensures var first, db1 := db.grants[FirstMatch(db.grants, b, column, other).value], DeleteTx(db, b, cap, now).0;
            (first.deleted || first.Matches(b, Deletion, cap)) <==>
              forall db': BlobDb, later: U64 :: Keeps(db1, db') ==>
                AuthorizeGrant(db', b, column, other, later) == Failure(NotFound)
  {
    hide FirstMatch, AuthorizeGrant, Keeps;
    var db1 := DeleteTx(db, b, cap, now).0;
    DeleteKind(db, b, cap, now);
    FirstMatchStays(db.grants, db1.grants, b, column, other);
    WithdrawnForGood(db1, b, column, other);
  }

  lemma DeletionCapabilityIsGone(db: BlobDb, b: Id, cap: Id, now: U64, db': BlobDb, later: U64)
    requires DeleteTx(db, b, cap, now).1.Success? && Keeps(DeleteTx(db, b, cap, now).0, db')
    ensures AuthorizeGrant(db', b, Deletion, cap, later) == Failure(NotFound)
  {
    hide FirstMatch, Keeps;
    DeletedIsGone(db, b, cap, now, Deletion, cap);
  }
}
