/** What an OK response of the blob relay says about its tables, then and ever after. */
module UploadFacts {
  import opened Base
  import opened Manifest
  import opened BlobCodec
  import opened DurableBlob
  import opened BlobInvariant
  import opened BlobService
  import R = Replay

  /** The relay decodes what it is sent: a call is the one its bytes make. */
  ghost predicate Decodes(c: R.Call<BlobJob>) {
    CallOf(c.request) == Some(c)
  }

  /** Every call in the history and in flight is one that was decoded. */
  ghost predicate Honest(s: R.System<BlobDb, BlobJob>) {
    R.AllCalls(s, Decodes)
  }

  lemma StepHonest(sha: Hash, s: R.System<BlobDb, BlobJob>, ev: R.Event<BlobJob>)
    requires Honest(s) && (ev.Start? ==> Decodes(ev.call))
    ensures Honest(R.Step(BlobEngine(sha), s, ev))
  {
    hide Decodes, BlobEngine, R.Step, R.AllCalls;
    R.StepAllCalls(BlobEngine(sha), s, ev, Decodes);
  }

  /** A call's bytes fix its job, and the request in it is within the limits. */
  lemma DecodedCall(c: R.Call<BlobJob>)
    requires Decodes(c)
    ensures c.job.request.Valid()
    ensures ParseBlobRequest(c.request).Success? && ParseBlobRequest(c.request).value.frame.request == c.job.request
  {
    hide ParseBlobRequest, BlobRequestBytes, BlobAuthenticatedBytes;
    BlobRequestExact(c.request, ParseBlobRequest(c.request).value);
  }

  predicate IsOk(response: Bytes) {
    ParseBlobResponse(response).Success? && ParseBlobResponse(response).value.response.status == BLOB_OK
  }

  /** A refusal is never rendered as OK. */
  lemma RefusalIsNotOk(sha: Hash, db: BlobDb, job: BlobJob, now: U64, response: Bytes)
    requires Sound(sha, db) && job.request.Valid() && Perform(sha, db, job, now) == R.Rejected(response)
    ensures !IsOk(response)
  {
    hide Sound, ExecuteTx, Perform, ParseBlobResponse;
    PerformAnswers(sha, db, job, now);
  }

  /** The job succeeded in a sound state, what it left behind is still there, and the response says what
      it answered. */
  ghost predicate Took(sha: Hash, s: R.System<BlobDb, BlobJob>, job: BlobJob, response: Bytes, before: BlobDb,
                       now: U64) {
    && Sound(sha, before)
    && ExecuteTx(sha, before, job.request, now).1.Success?
    && Keeps(ExecuteTx(sha, before, job.request, now).0, s.store.db)
    && ParseBlobResponse(response) == Success(Rendered(job, ExecuteTx(sha, before, job.request, now).1))
  }

  lemma {:induction false} AfterKeeps(sha: Hash, effects: seq<R.Effect<BlobJob>>, n: nat)
    requires n <= |effects|
    ensures Keeps(R.After(BlobEngine(sha), EMPTY, effects[..n]), R.After(BlobEngine(sha), EMPTY, effects))
    decreases |effects|
  {
    hide Keeps, Sound, BlobEngine;
    if n == |effects| {
      assert effects[..n] == effects;
      KeepsItself(R.After(BlobEngine(sha), EMPTY, effects));
    } else {
      var m := |effects| - 1;
      assert effects[..m][..n] == effects[..n];
      AfterKeeps(sha, effects[..m], n);
      AfterSound(sha, effects[..m]);
      var before := R.After(BlobEngine(sha), EMPTY, effects[..m]);
      EffectKeeps(sha, before, effects[m].call.job, effects[m].now);
      KeepsItself(before);
      KeepsTransitive(R.After(BlobEngine(sha), EMPTY, effects[..n]), before, R.After(BlobEngine(sha), EMPTY, effects));
    }
  }

  lemma DoneIsExecuted(sha: Hash, db: BlobDb, job: BlobJob, now: U64)
    requires Sound(sha, db) && job.request.Valid() && BlobEngine(sha)(db, job, now).Done?
    ensures var v := BlobEngine(sha)(db, job, now);
            && ExecuteTx(sha, db, job.request, now).1.Success? && v.db == ExecuteTx(sha, db, job.request, now).0
            && ParseBlobResponse(v.response) == Success(Rendered(job, ExecuteTx(sha, db, job.request, now).1))
  {
    hide ExecuteTx, BlobResponseBytes, ParseBlobResponse, Sound, Perform;
    PerformAnswers(sha, db, job, now);
  }

  /** What the n-th effect did is still there. */
  lemma EffectRemains(sha: Hash, s: R.System<BlobDb, BlobJob>, n: nat, response: Bytes)
    requires R.StoreExact(BlobEngine(sha), EMPTY, s) && n < |s.effects| && s.effects[n].call.job.request.Valid()
    requires var v := BlobEngine(sha)(R.After(BlobEngine(sha), EMPTY, s.effects[..n]), s.effects[n].call.job,
                                      s.effects[n].now);
             v.Done? && v.response == response
    ensures Took(sha, s, s.effects[n].call.job, response, R.After(BlobEngine(sha), EMPTY, s.effects[..n]),
                 s.effects[n].now)
  {
    hide Keeps, Sound, ExecuteTx, BlobEngine, R.Justified, ParseBlobResponse;
    var before := R.After(BlobEngine(sha), EMPTY, s.effects[..n]);
    AfterSound(sha, s.effects[..n]);
    DoneIsExecuted(sha, before, s.effects[n].call.job, s.effects[n].now);
    assert s.effects[..n + 1][..n] == s.effects[..n];
    AfterKeeps(sha, s.effects, n + 1);
  }

  lemma EffectDecodes(s: R.System<BlobDb, BlobJob>, n: nat)
    requires Honest(s) && n < |s.effects|
    ensures Decodes(s.effects[n].call)
  {
  }

  lemma RefusalDecodes(s: R.System<BlobDb, BlobJob>, key: R.Key)
    requires Honest(s) && key in s.origins && s.origins[key].OfRefusal?
    ensures Decodes(s.origins[key].call)
  {
  }

  lemma ReplyDecodes(s: R.System<BlobDb, BlobJob>, r: R.Reply<BlobJob>)
    requires Honest(s) && r in s.replies
    ensures Decodes(r.call)
  {
  }

  lemma ReplyIsJustified(sha: Hash, s: R.System<BlobDb, BlobJob>, r: R.Reply<BlobJob>, response: Bytes)
    requires R.ExactlyOnce(BlobEngine(sha), EMPTY, s) && r in s.replies && r.outcome == R.Respond(response)
    ensures R.StoreExact(BlobEngine(sha), EMPTY, s) && r.call.key in s.origins
    ensures R.Justified(BlobEngine(sha), EMPTY, s.effects, r.call.key, s.origins[r.call.key],
                        R.Record(r.call.request, response))
  {
    hide R.Justified, BlobEngine;
    assert R.ReplySound(s.store.records, r);
  }

  /** An OK answer to some bytes means their request took effect and answered so, and nothing of it was
      lost since. */
  lemma OkMeansTook(sha: Hash, s: R.System<BlobDb, BlobJob>, r: R.Reply<BlobJob>, response: Bytes)
    requires R.ExactlyOnce(BlobEngine(sha), EMPTY, s) && Honest(s)
    requires r in s.replies && r.outcome == R.Respond(response) && IsOk(response)
    ensures exists before, now: U64 :: Took(sha, s, r.call.job, response, before, now)
  {
    hide BlobEngine, CallOf, Took, R.After, IsOk, R.ExactlyOnce, R.StoreExact, Honest, Sound;
    ReplyIsJustified(sha, s, r, response);
    ReplyDecodes(s, r);
    match s.origins[r.call.key] {
      case OfEffect(n) =>
        EffectDecodes(s, n);
        DecodedCall(s.effects[n].call);
        EffectRemains(sha, s, n, response);
      case OfRefusal(c, now, seen) =>
        RefusalDecodes(s, r.call.key);
        AfterSound(sha, s.effects[..seen]);
        DecodedCall(c);
        RefusedNotOk(sha, R.After(BlobEngine(sha), EMPTY, s.effects[..seen]), c.job, now, response);
    }
  }

  lemma RefusedNotOk(sha: Hash, db: BlobDb, job: BlobJob, now: U64, response: Bytes)
    requires Sound(sha, db) && job.request.Valid() && BlobEngine(sha)(db, job, now) == R.Rejected(response)
    ensures !IsOk(response)
  {
    RefusalIsNotOk(sha, db, job, now, response);
  }

  // ----- what each command leaves behind -----

  ghost predicate HasUpload(db: BlobDb, u: Id, caps: Capabilities, m: Manifest)
    requires m.Valid()
  {
    u in db.uploads && db.uploads[u].capabilities == caps && db.uploads[u].manifest == ManifestBytes(m)
  }

  ghost predicate HasStaged(db: BlobDb, u: Id, i: nat, x: Bytes) {
    (u, i) in db.staged && db.staged[(u, i)] == x
  }

  ghost predicate MarkedCommitted(db: BlobDb, u: Id, b: Id) {
    u in db.uploads && db.uploads[u].committed == Some(b)
  }

  /** What the request set out to do is so. */
  ghost predicate Effective(db: BlobDb, r: BlobRequest)
    requires r.Encodable()
  {
    match r
    case BeginUpload(u, caps, m, _) => HasUpload(db, u, caps, m)
    case PutChunk(u, _, i, x) => HasStaged(db, u, i, x)
    case Commit(u, _, b) => MarkedCommitted(db, u, b)
    case _ => true
  }

  lemma SuccessIsEffective(sha: Hash, db: BlobDb, r: BlobRequest, now: U64)
    requires r.Encodable() && ExecuteTx(sha, db, r, now).1.Success?
    ensures Effective(ExecuteTx(sha, db, r, now).0, r)
  {
    hide ManifestBytes, Parse, Identify, StagedKeys, FirstFlaw, Copied, Granted;
  }

  lemma EffectiveStays(db: BlobDb, db': BlobDb, r: BlobRequest)
    requires r.Encodable() && Effective(db, r) && Keeps(db, db')
    ensures Effective(db', r)
  {
    hide ManifestBytes;
  }

  /** An OK answer: what the request set out to do is so, now. */
  lemma OkIsEffective(sha: Hash, s: R.System<BlobDb, BlobJob>, r: R.Reply<BlobJob>, response: Bytes)
    requires R.ExactlyOnce(BlobEngine(sha), EMPTY, s) && Honest(s)
    requires r in s.replies && r.outcome == R.Respond(response) && IsOk(response)
    ensures Effective(s.store.db, r.call.job.request)
  {
    hide ExecuteTx, Sound, Keeps, Effective, BlobEngine, IsOk, Honest, R.ExactlyOnce;
    OkMeansTook(sha, s, r, response);
    var before, now: U64 :| Took(sha, s, r.call.job, response, before, now);
    SuccessIsEffective(sha, before, r.call.job.request, now);
    EffectiveStays(ExecuteTx(sha, before, r.call.job.request, now).0, s.store.db, r.call.job.request);
  }

  /** A committed upload of a reachable state is published: its object holds its manifest and every chunk
      of it, and a grant carries its capabilities. */
  lemma CommittedIsPublished(sha: Hash, db: BlobDb, u: Id, caps: Capabilities, m: Manifest, b: Id)
    requires Sound(sha, db) && m.Valid() && HasUpload(db, u, caps, m) && MarkedCommitted(db, u, b)
    ensures b in db.objects && db.objects[b] == ManifestBytes(m)
    ensures forall i: nat :: i < |m.digests| ==> (b, i) in db.chunks && ChunkFits(sha, m, i, db.chunks[(b, i)])
    ensures exists i ::
              0 <= i < |db.grants| && db.grants[i].id == u && db.grants[i].blob == b
              && db.grants[i].capabilities == caps
  {
    hide ManifestBytes, Parse, Identified;
    assert Granted(db.grants, u);
    var g :| 0 <= g < |db.grants| && db.grants[g].id == u;
    assert GrantSound(db.uploads, db.objects, db.grants[g]);
    ParseExact(ManifestBytes(m), m);
    forall i: nat | i < |m.digests| ensures (b, i) in db.chunks && ChunkFits(sha, m, i, db.chunks[(b, i)]) {
      assert InRange(db.objects[b], i);
      assert Fits(sha, db.objects[b], i, db.chunks[(b, i)]);
    }
  }
}
