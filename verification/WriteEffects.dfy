// What one write does to the key-value store, read off its inputs: when it succeeds, what it
// stores, and which records it leaves alone (write_path.py).
module WriteEffects {
  import opened Arbiter
  import opened MemoryRecords
  import opened WriteGuarantees
  import opened WritePath
  import opened Wrappers

  // The write is turned away before it touches the store.
  predicate TurnedAway(cfg: Config, req: Request, env: Env)
    requires FetchOk(env)
  {
    env.conversational || !env.grounded || (!env.replayed && Blocks(VerdictOf(cfg, req, env)))
  }

  // The first thing that goes wrong decides the outcome.
  lemma OutcomeExactly(cfg: Config, kv: Store, req: Request, env: Env)
    requires FetchOk(env)
    ensures WriteStep(cfg, kv, req, env).outcome ==
      if TurnedAway(cfg, req, env) then Rejected
      else if env.replayed then NoOp
      else if !env.setOk then KvFailed
      else if env.hasVectorStore && req.hasVector && !env.insertOk then VectorFailed
      else if !env.graphOk then GraphFailed
      else Written
  {
    hide VerdictOf, AfterRevision, NewRec, UndoAfterVector, UndoAfterGraph;
  }

  lemma RejectedChangesNothing(cfg: Config, kv: Store, req: Request, env: Env)
    requires FetchOk(env) && WriteStep(cfg, kv, req, env).outcome == Rejected
    ensures WriteStep(cfg, kv, req, env).kv == kv
  {
    hide VerdictOf, AfterRevision, NewRec, UndoAfterVector, UndoAfterGraph;
  }

  // A replay of a known passage stores value, confidence and metadata as they came, or nothing.
  lemma ReplayStoresRequest(cfg: Config, kv: Store, req: Request, env: Env)
    requires FetchOk(env) && WriteStep(cfg, kv, req, env).outcome == NoOp
    ensures var next := WriteStep(cfg, kv, req, env).kv;
      && (!env.touchOk ==> next == kv)
      && (env.touchOk ==> next.Keys == kv.Keys + {req.key})
      && (env.touchOk ==> forall k :: k in kv && k != req.key ==> next[k] == kv[k])
      && (env.touchOk ==> next[req.key] == Rec(req.value, req.confidence, req.meta))
  {
    hide VerdictOf, AfterRevision, NewRec, UndoAfterVector, UndoAfterGraph;
  }

  lemma WrittenIs(cfg: Config, kv: Store, req: Request, env: Env)
    requires FetchOk(env) && WriteStep(cfg, kv, req, env).outcome == Written
    ensures WriteStep(cfg, kv, req, env).kv == AfterRevision(cfg, kv, req, env)[req.key := NewRec(cfg, req, env)]
  {
    hide VerdictOf, AfterRevision, NewRec, UndoAfterVector, UndoAfterGraph;
  }

  // A write that reports success holds the requested value and confidence.
  lemma WrittenHoldsValue(cfg: Config, kv: Store, req: Request, env: Env)
    requires FetchOk(env) && WriteStep(cfg, kv, req, env).outcome == Written
    ensures var next := WriteStep(cfg, kv, req, env).kv;
      req.key in next && next[req.key].value == req.value && next[req.key].confidence == req.confidence
  {
    hide WriteStep, AfterRevision, FinalMeta;
    WrittenIs(cfg, kv, req, env);
  }

  // The prior value is recorded, and the revision counted, exactly when the fetched record of
  // the key held another value.
  lemma WrittenRecordsPrior(cfg: Config, kv: Store, req: Request, env: Env)
    requires FetchOk(env) && WriteStep(cfg, kv, req, env).outcome == Written
    ensures var m := WriteStep(cfg, kv, req, env).kv[req.key].meta;
      if req.key in env.fetched && env.fetched[req.key].value != req.value then
        && m.priorValue == Some(env.fetched[req.key].value)
        && m.revisionCount == env.fetched[req.key].meta.revisionCount + 1
      else
        m.priorValue == req.meta.priorValue && m.revisionCount == req.meta.revisionCount
  {
    hide WriteStep, AfterRevision, VerdictOf, OldKey, PurgeFails, SourceOf;
    WrittenIs(cfg, kv, req, env);
  }

  // The rest of the stored metadata: the verdict's revision and warning, a purge that failed,
  // the source that a claim without one gets; all else is the request's.
  lemma WrittenMeta(cfg: Config, kv: Store, req: Request, env: Env)
    requires FetchOk(env) && WriteStep(cfg, kv, req, env).outcome == Written
    ensures var m, v := WriteStep(cfg, kv, req, env).kv[req.key].meta, VerdictOf(cfg, req, env);
      && (m.isBeliefRevision <==> req.meta.isBeliefRevision || v.isRevision)
      && m.supersededKey == (if v.isRevision then v.supersededKey else req.meta.supersededKey)
      && (m.conflictWarning <==> req.meta.conflictWarning || v.isConflict)
      && (m.tombstonePending <==> req.meta.tombstonePending || PurgeFails(cfg, req, env))
      && m.sourceType == (if req.meta.sourceType == "" then "user_explicit" else req.meta.sourceType)
      && m.isSuperseded == req.meta.isSuperseded && m.superseded == req.meta.superseded
      && m.supersededBy == req.meta.supersededBy && m.supersededAt == req.meta.supersededAt
      && m.supersedes == req.meta.supersedes && m.action == req.meta.action
      && m.ruleMelted == req.meta.ruleMelted && m.conflictTest == req.meta.conflictTest && m.other == req.meta.other
  {
    WrittenIs(cfg, kv, req, env);
    RevisionNamesKey(cfg, req, env);
    ComposedFields(Stamped(req.meta), VerdictOf(cfg, req, env), OldKey(cfg, req, env), PurgeFails(cfg, req, env),
                   req.value, Prior(req, env));
    hide WriteStep, AfterRevision, VerdictOf, PurgeFails, ComposedMeta, Prior;
  }

  // The fields that a write takes over from the request.
  predicate Untouched(a: Meta, b: Meta) {
    && a.isSuperseded == b.isSuperseded && a.superseded == b.superseded
    && a.supersededBy == b.supersededBy && a.supersededAt == b.supersededAt
    && a.supersedes == b.supersedes && a.action == b.action && a.sourceType == b.sourceType
    && a.ruleMelted == b.ruleMelted && a.conflictTest == b.conflictTest && a.other == b.other
  }

  lemma WarningFields(b: Meta, v: Verdict)
    ensures var m := WithWarning(b, v);
      && Untouched(m, b) && (m.conflictWarning <==> b.conflictWarning || (v.isConflict && !v.isRevision))
      && m.isBeliefRevision == b.isBeliefRevision && m.supersededKey == b.supersededKey
      && m.tombstonePending == b.tombstonePending
  {
    if v.isConflict && !v.isRevision { assert WithWarning(b, v) == b.(conflictWarning := true); }
  }

  lemma RevisionFields(b: Meta, v: Verdict, oldKey: Key)
    ensures var m := WithRevision(b, v, oldKey);
      && Untouched(m, b) && (m.isBeliefRevision <==> b.isBeliefRevision || v.isRevision)
      && m.supersededKey == (if v.isRevision then Some(oldKey) else b.supersededKey)
      && m.conflictWarning == b.conflictWarning && m.tombstonePending == b.tombstonePending
  {
    if v.isRevision {
      assert WithRevision(b, v, oldKey) == b.(isBeliefRevision := true, supersededKey := Some(oldKey));
    }
  }

  lemma TombstoneFields(b: Meta, purgeFailed: bool)
    ensures var m := WithTombstone(b, purgeFailed);
      && Untouched(m, b) && (m.tombstonePending <==> b.tombstonePending || purgeFailed)
      && m.isBeliefRevision == b.isBeliefRevision && m.supersededKey == b.supersededKey
      && m.conflictWarning == b.conflictWarning
  {
    if purgeFailed { assert WithTombstone(b, purgeFailed) == b.(tombstonePending := true); }
  }

  function Recording(b: Meta, value: Option<string>, count: nat): Meta {
    b.(priorValue := value, revisionCount := count)
  }

  lemma RecordingFields(b: Meta, value: Option<string>, count: nat)
    ensures var m := Recording(b, value, count);
      && Untouched(m, b) && m.tombstonePending == b.tombstonePending
      && m.isBeliefRevision == b.isBeliefRevision && m.supersededKey == b.supersededKey
      && m.conflictWarning == b.conflictWarning
  {}

  lemma PriorIsRecording(b: Meta, value: string, prior: Option<Rec>)
    ensures WithPrior(b, value, prior) ==
      if prior.Some? && prior.value.value != value then
        Recording(b, Some(prior.value.value), prior.value.meta.revisionCount + 1)
      else b
  {}

  lemma PriorFields(b: Meta, value: string, prior: Option<Rec>)
    ensures var m := WithPrior(b, value, prior);
      && Untouched(m, b) && m.tombstonePending == b.tombstonePending
      && m.isBeliefRevision == b.isBeliefRevision && m.supersededKey == b.supersededKey
      && m.conflictWarning == b.conflictWarning
  {
    PriorIsRecording(b, value, prior);
    hide WithPrior, Recording;
    if prior.Some? && prior.value.value != value {
      RecordingFields(b, Some(prior.value.value), prior.value.meta.revisionCount + 1);
    }
  }

  lemma ComposedFields(b: Meta, v: Verdict, oldKey: Key, purgeFailed: bool, value: string, prior: Option<Rec>)
    ensures var m := ComposedMeta(b, v, oldKey, purgeFailed, value, prior);
      && Untouched(m, b)
      && (m.isBeliefRevision <==> b.isBeliefRevision || v.isRevision)
      && m.supersededKey == (if v.isRevision then Some(oldKey) else b.supersededKey)
      && (m.conflictWarning <==> b.conflictWarning || (v.isConflict && !v.isRevision))
      && (m.tombstonePending <==> b.tombstonePending || purgeFailed)
  {
    hide WithWarning, WithRevision, WithTombstone, WithPrior;
    var m1 := WithWarning(b, v);
    var m2 := WithRevision(m1, v, oldKey);
    var m3 := WithTombstone(m2, purgeFailed);
    WarningFields(b, v);
    RevisionFields(m1, v, oldKey);
    TombstoneFields(m2, purgeFailed);
    PriorFields(m3, value, prior);
  }

  lemma RevisionNamesKey(cfg: Config, req: Request, env: Env)
    requires FetchOk(env)
    ensures var v := VerdictOf(cfg, req, env); v.isRevision ==> v.supersededKey.Some? && !v.isConflict
  {
    hide Arbitrate;
    SupersedeRespectsBoundary(cfg, ClaimOf(req), env.order, env.fetched);
  }

  // Only the written key and the superseded one change.
  lemma WrittenLeavesOthers(cfg: Config, kv: Store, req: Request, env: Env, k: Key)
    requires FetchOk(env) && WriteStep(cfg, kv, req, env).outcome == Written
    requires k != req.key && !(Revises(cfg, req, env) && k == OldKey(cfg, req, env))
    ensures var next := WriteStep(cfg, kv, req, env).kv;
      (k in next <==> k in kv) && (k in kv ==> next[k] == kv[k])
  {
    hide WriteStep, VerdictOf, NewRec;
    WrittenIs(cfg, kv, req, env);
  }

  // What happens to the record that a revision supersedes under another key: marked with its
  // heir where the mark is written, tombstoned where its vectors stay, and never anything but
  // metadata that it did not hold when it was fetched.
  lemma SupersededRecord(cfg: Config, kv: Store, req: Request, env: Env)
    requires FetchOk(env) && WriteStep(cfg, kv, req, env).outcome == Written
    requires Revises(cfg, req, env) && OldKey(cfg, req, env) != req.key
    ensures var next, k := WriteStep(cfg, kv, req, env).kv, OldKey(cfg, req, env);
      && k in env.fetched
      && (env.markOk ==>
            && k in next && next[k].value == env.fetched[k].value && next[k].confidence == env.fetched[k].confidence
            && next[k].meta.isSuperseded && next[k].meta.supersededBy == Some(req.key)
            && next[k].meta.supersededAt == Some(env.now))
      && (!env.markOk ==>
            && (k in next <==> k in kv)
            && (k in kv ==>
                  && next[k].value == kv[k].value && next[k].confidence == kv[k].confidence
                  && next[k].meta.supersededBy == kv[k].meta.supersededBy))
      && (PurgeFails(cfg, req, env) && env.tombstoneOk && k in next ==>
            next[k].meta.tombstonePending && next[k].meta.isSuperseded)
  {
    hide WriteStep, VerdictOf, NewRec;
    WrittenIs(cfg, kv, req, env);
    OldWasFetched(cfg, req, env);
  }

  // A superseded record that was fetched as stored keeps its value and its confidence.
  lemma SupersededKeepsValue(cfg: Config, kv: Store, req: Request, env: Env)
    requires FetchOk(env) && WriteStep(cfg, kv, req, env).outcome == Written
    requires Revises(cfg, req, env) && OldKey(cfg, req, env) != req.key && Agrees(kv, env, OldKey(cfg, req, env))
    ensures var next, k := WriteStep(cfg, kv, req, env).kv, OldKey(cfg, req, env);
      k in kv && k in next && next[k].value == kv[k].value && next[k].confidence == kv[k].confidence
  {
    hide WriteStep, VerdictOf, OldKey;
    SupersededRecord(cfg, kv, req, env);
  }
}
