// The epistemic write path (write_path.py): gates, arbitration, belief revision,
// persistence and compensation, restricted to what they do to the key-value store.
module WritePath {
  import opened Arbiter
  import opened MemoryRecords
  import opened Reals
  import opened Wrappers

  type Store = map<Key, Rec>

  datatype Request = Request(key: Key, value: string, confidence: Unit, meta: Meta, hasVector: bool)

  // Everything a write learns from its surroundings: what the gates say, which records it
  // fetched (with the order of the dictionary), and which external calls succeed.
  datatype Env = Env(
    conversational: bool, grounded: bool, replayed: bool, touchOk: bool,
    order: seq<Key>, fetched: Store, now: nat,
    markOk: bool, hasVectorStore: bool, purgeOk: bool, tombstoneOk: bool,
    hasSavepoint: bool, setOk: bool, insertOk: bool, graphOk: bool,
    rollbackOk: bool, restoreKeyOk: bool, restoreOldOk: bool)

  datatype Outcome = Rejected | NoOp | Written | KvFailed | VectorFailed | GraphFailed

  predicate Succeeded(o: Outcome) { o in {Rejected, NoOp, Written} }

  // The dictionary order lists exactly the fetched keys.
  predicate FetchOk(env: Env) {
    (set k | k in env.order) == env.fetched.Keys
  }

  // ------------------------------------------------------ what a write decides

  function ClaimOf(req: Request): Claim {
    Claim(req.key, req.value, req.confidence, Stamped(req.meta))
  }

  // The source type is filled in before arbitration.
  function Stamped(m: Meta): Meta { m.(sourceType := SourceOf(m)) }

  function VerdictOf(cfg: Config, req: Request, env: Env): Verdict
    requires FetchOk(env)
  {
    Arbitrate(cfg, ClaimOf(req), env.order, env.fetched)
  }

  predicate Blocks(v: Verdict) { v.isConflict && v.reason == Some(ConfidenceInversion) }

  predicate Revises(cfg: Config, req: Request, env: Env)
    requires FetchOk(env)
  {
    VerdictOf(cfg, req, env).isRevision
  }

  // The key whose record a revision supersedes.
  function OldKey(cfg: Config, req: Request, env: Env): Key
    requires FetchOk(env)
  {
    VerdictOf(cfg, req, env).supersededKey.GetOr(req.meta.supersedes.GetOr(req.key))
  }

  function Marked(r: Rec, heir: Key, now: nat): Rec {
    r.(meta := r.meta.(isSuperseded := true, supersededBy := Some(heir), supersededAt := Some(now)))
  }

  function Tombstoned(r: Rec): Rec {
    r.(meta := r.meta.(tombstonePending := true, isSuperseded := true))
  }

  predicate PurgeFails(cfg: Config, req: Request, env: Env)
    requires FetchOk(env)
  {
    Revises(cfg, req, env) && OldKey(cfg, req, env) != req.key && env.hasVectorStore && !env.purgeOk
  }

  // The store once a revision has marked, and perhaps tombstoned, the old record.
  function AfterRevision(cfg: Config, kv: Store, req: Request, env: Env): Store
    requires FetchOk(env)
  {
    if !Revises(cfg, req, env) then kv
    else
      var k := OldKey(cfg, req, env);
      var marked := if k in env.fetched && env.markOk then kv[k := Marked(env.fetched[k], req.key, env.now)] else kv;
      if PurgeFails(cfg, req, env) && env.tombstoneOk && k in marked then marked[k := Tombstoned(marked[k])] else marked
  }

  // The same supersession fields: what a write adds to its metadata never sets them.
  predicate SameLinks(a: Meta, b: Meta) {
    a.isSuperseded == b.isSuperseded && a.superseded == b.superseded && a.supersededBy == b.supersededBy
  }

  function WithWarning(m: Meta, v: Verdict): (r: Meta)
    ensures SameLinks(r, m)
  {
    if v.isConflict && !v.isRevision then m.(conflictWarning := true) else m
  }

  function WithRevision(m: Meta, v: Verdict, oldKey: Key): (r: Meta)
    ensures SameLinks(r, m)
  {
    if v.isRevision then m.(isBeliefRevision := true, supersededKey := Some(oldKey)) else m
  }

  function WithTombstone(m: Meta, purgeFailed: bool): (r: Meta)
    ensures SameLinks(r, m)
  {
    if purgeFailed then m.(tombstonePending := true) else m
  }

  function WithPrior(m: Meta, value: string, prior: Option<Rec>): (r: Meta)
    ensures SameLinks(r, m)
  {
    if prior.Some? && prior.value.value != value then
      m.(priorValue := Some(prior.value.value), revisionCount := prior.value.meta.revisionCount + 1)
    else m
  }

  // The metadata that is stored with the new value.
  function ComposedMeta(m: Meta, v: Verdict, oldKey: Key, purgeFailed: bool, value: string,
                        prior: Option<Rec>): (r: Meta)
    ensures SameLinks(r, m)
  {
    WithPrior(WithTombstone(WithRevision(WithWarning(m, v), v, oldKey), purgeFailed), value, prior)
  }

  function Prior(req: Request, env: Env): Option<Rec> {
    if req.key in env.fetched then Some(env.fetched[req.key]) else None
  }

  function FinalMeta(cfg: Config, req: Request, env: Env): Meta
    requires FetchOk(env)
  {
    ComposedMeta(Stamped(req.meta), VerdictOf(cfg, req, env), OldKey(cfg, req, env), PurgeFails(cfg, req, env),
                 req.value, Prior(req, env))
  }

  function NewRec(cfg: Config, req: Request, env: Env): Rec
    requires FetchOk(env)
  {
    Rec(req.value, req.confidence, FinalMeta(cfg, req, env))
  }

  // ------------------------------------------------------------- compensation

  function RestoreOld(cfg: Config, kv: Store, req: Request, env: Env): Store
    requires FetchOk(env)
  {
    var k := OldKey(cfg, req, env);
    if Revises(cfg, req, env) && k in env.fetched && env.restoreOldOk then kv[k := env.fetched[k]] else kv
  }

  // Without a savepoint the written key gets its fetched record back, or is deleted.
  function RestoreKey(kv: Store, req: Request, env: Env): Store {
    if !env.restoreKeyOk then kv
    else if req.key in env.fetched then kv[req.key := env.fetched[req.key]]
    else kv - {req.key}
  }

  // `saved` is the store at the savepoint, `kv` the store with the new record.
  function UndoAfterVector(cfg: Config, saved: Store, kv: Store, req: Request, env: Env): Store
    requires FetchOk(env)
  {
    if env.hasSavepoint then
      if env.rollbackOk then RestoreOld(cfg, saved, req, env) else kv
    else RestoreOld(cfg, RestoreKey(kv, req, env), req, env)
  }

  // The graph handler skips the old record when it is the written one.
  function UndoAfterGraph(cfg: Config, saved: Store, kv: Store, req: Request, env: Env): Store
    requires FetchOk(env)
  {
    var undone :=
      if env.hasSavepoint then (if env.rollbackOk then saved else kv) else RestoreKey(kv, req, env);
    if OldKey(cfg, req, env) != req.key then RestoreOld(cfg, undone, req, env) else undone
  }

  datatype Step = Step(kv: Store, outcome: Outcome)

  function WriteStep(cfg: Config, kv: Store, req: Request, env: Env): Step
    requires FetchOk(env)
  {
    if env.conversational || !env.grounded then Step(kv, Rejected)
    else if env.replayed then
      Step(if env.touchOk then kv[req.key := Rec(req.value, req.confidence, req.meta)] else kv, NoOp)
    else if Blocks(VerdictOf(cfg, req, env)) then Step(kv, Rejected)
    else CommitStep(cfg, AfterRevision(cfg, kv, req, env), req, env)
  }

  // From the persistence of the new record to the end; `saved` is the store just before.
  function CommitStep(cfg: Config, saved: Store, req: Request, env: Env): Step
    requires FetchOk(env)
  {
    if !env.setOk then Step(saved, KvFailed)
    else
      var stored := saved[req.key := NewRec(cfg, req, env)];
      if env.hasVectorStore && req.hasVector && !env.insertOk then
        Step(UndoAfterVector(cfg, saved, stored, req, env), VectorFailed)
      else if !env.graphOk then Step(UndoAfterGraph(cfg, saved, stored, req, env), GraphFailed)
      else Step(stored, Written)
  }

  // ---------------------------------------------------------------- the writer

  class Writer {
    var kv: Store
    var savepoint: Option<Store>

    constructor ()
      ensures kv == map[] && savepoint == None
    {
      kv, savepoint := map[], None;
    }

    method SetSync(key: Key, r: Rec, succeeds: bool) returns (ok: bool)
      modifies this`kv
      ensures ok == succeeds && kv == if ok then old(kv)[key := r] else old(kv)
    {
      ok := succeeds;
      if ok { kv := kv[key := r]; }
    }

    method RollbackSavepoint(succeeds: bool) returns (ok: bool)
      requires savepoint.Some?
      modifies this
      ensures ok == succeeds
      ensures ok ==> kv == old(savepoint).value && savepoint == None
      ensures !ok ==> kv == old(kv) && savepoint == old(savepoint)
    {
      ok := succeeds;
      if ok { kv, savepoint := savepoint.value, None; }
    }

    // Marks the old record and, when its vectors cannot be purged, tombstones it.
    method ReviseBelief(cfg: Config, req: Request, env: Env) returns (oldItem: Option<Rec>, purgeFailed: bool)
      requires FetchOk(env) && Revises(cfg, req, env)
      modifies this`kv
      ensures kv == AfterRevision(cfg, old(kv), req, env)
      ensures purgeFailed == PurgeFails(cfg, req, env)
      ensures var k := OldKey(cfg, req, env);
        oldItem == if k in env.fetched then Some(env.fetched[k]) else None
    {
      hide OldKey, VerdictOf;
      var oldKey := OldKey(cfg, req, env);
      oldItem, purgeFailed := None, false;
      if oldKey in env.fetched {
        oldItem := Some(env.fetched[oldKey]);
        var _ := SetSync(oldKey, Marked(env.fetched[oldKey], req.key, env.now), env.markOk);
      }
      if oldKey != req.key && env.hasVectorStore && !env.purgeOk {
        purgeFailed := true;
        if oldKey in kv {
          var _ := SetSync(oldKey, Tombstoned(kv[oldKey]), env.tombstoneOk);
        }
      }
    }

    method RestoreFetched(req: Request, env: Env)
      modifies this`kv
      ensures kv == RestoreKey(old(kv), req, env)
    {
      if req.key in env.fetched {
        var _ := SetSync(req.key, env.fetched[req.key], env.restoreKeyOk);
      } else if env.restoreKeyOk {
        kv := kv - {req.key};
      }
    }

    method UndoVector(cfg: Config, req: Request, env: Env, revised: bool, oldKey: Key, oldItem: Option<Rec>,
                      ghost saved: Store)
      requires FetchOk(env) && revised == Revises(cfg, req, env) && (revised ==> oldKey == OldKey(cfg, req, env))
      requires savepoint == if env.hasSavepoint then Some(saved) else None
      requires revised ==> oldItem == if oldKey in env.fetched then Some(env.fetched[oldKey]) else None
      modifies this
      ensures kv == UndoAfterVector(cfg, saved, old(kv), req, env)
    {
      hide OldKey, Revises;
      var active := savepoint.Some?;
      if active {
        var ok := RollbackSavepoint(env.rollbackOk);
        if ok { active := false; }
      } else {
        RestoreFetched(req, env);
      }
      if !active && revised && oldItem.Some? {
        var _ := SetSync(oldKey, oldItem.value, env.restoreOldOk);
      }
    }

    method UndoGraph(cfg: Config, req: Request, env: Env, revised: bool, oldKey: Key, oldItem: Option<Rec>,
                     ghost saved: Store)
      requires FetchOk(env) && revised == Revises(cfg, req, env) && (revised ==> oldKey == OldKey(cfg, req, env))
      requires savepoint == if env.hasSavepoint then Some(saved) else None
      requires revised ==> oldItem == if oldKey in env.fetched then Some(env.fetched[oldKey]) else None
      modifies this
      ensures kv == UndoAfterGraph(cfg, saved, old(kv), req, env)
    {
      hide OldKey, Revises;
      if savepoint.Some? {
        var _ := RollbackSavepoint(env.rollbackOk);
      } else {
        RestoreFetched(req, env);
      }
      if revised && oldItem.Some? && oldKey != req.key {
        var _ := SetSync(oldKey, oldItem.value, env.restoreOldOk);
      }
    }

    method Commit(cfg: Config, req: Request, env: Env, meta: Meta, revised: bool, oldKey: Key, oldItem: Option<Rec>)
      returns (outcome: Outcome)
      requires FetchOk(env) && meta == FinalMeta(cfg, req, env)
      requires revised == Revises(cfg, req, env) && (revised ==> oldKey == OldKey(cfg, req, env))
      requires revised ==> oldItem == if oldKey in env.fetched then Some(env.fetched[oldKey]) else None
      modifies this
      ensures Step(kv, outcome) == CommitStep(cfg, old(kv), req, env)
    {
      hide FinalMeta, Revises, OldKey, UndoAfterVector, UndoAfterGraph;
      ghost var saved := kv;
      savepoint := if env.hasSavepoint then Some(kv) else None;
      var ok := SetSync(req.key, Rec(req.value, req.confidence, meta), env.setOk);
      if !ok { return KvFailed; }
      if env.hasVectorStore && req.hasVector && !env.insertOk {
        UndoVector(cfg, req, env, revised, oldKey, oldItem, saved);
        return VectorFailed;
      }
      if !env.graphOk {
        UndoGraph(cfg, req, env, revised, oldKey, oldItem, saved);
        return GraphFailed;
      }
      savepoint := None;
      outcome := Written;
    }

    method Compose(m: Meta, verdict: Verdict, oldKey: Key, purgeFailed: bool, value: string, prior: Option<Rec>)
      returns (meta: Meta)
      ensures meta == ComposedMeta(m, verdict, oldKey, purgeFailed, value, prior)
    {
      meta := m;
      if verdict.isConflict && !verdict.isRevision { meta := meta.(conflictWarning := true); }
      if verdict.isRevision { meta := meta.(isBeliefRevision := true, supersededKey := Some(oldKey)); }
      if purgeFailed { meta := meta.(tombstonePending := true); }
      if prior.Some? && prior.value.value != value {
        meta := meta.(priorValue := Some(prior.value.value), revisionCount := prior.value.meta.revisionCount + 1);
      }
    }

    method Write(cfg: Config, req: Request, env: Env) returns (outcome: Outcome)
      requires FetchOk(env)
      modifies this
      ensures Step(kv, outcome) == WriteStep(cfg, old(kv), req, env)
    {
      hide AfterRevision, CommitStep, Arbitrate, PurgeFails, ComposedMeta;
      if env.conversational { return Rejected; }
      if !env.grounded { return Rejected; }
      if env.replayed {
        var _ := SetSync(req.key, Rec(req.value, req.confidence, req.meta), env.touchOk);
        return NoOp;
      }
      var verdict := Arbitrate(cfg, ClaimOf(req), env.order, env.fetched);
      if verdict.isConflict && verdict.reason == Some(ConfidenceInversion) { return Rejected; }
      var oldKey := verdict.supersededKey.GetOr(req.meta.supersedes.GetOr(req.key));
      var oldItem: Option<Rec>, purgeFailed := None, false;
      if verdict.isRevision {
        oldItem, purgeFailed := ReviseBelief(cfg, req, env);
      } else {
        NoRevision(cfg, kv, req, env);
      }
      var meta := Compose(Stamped(req.meta), verdict, oldKey, purgeFailed, req.value, Prior(req, env));
      outcome := Commit(cfg, req, env, meta, verdict.isRevision, oldKey, oldItem);
    }
  }

  lemma NoRevision(cfg: Config, kv: Store, req: Request, env: Env)
    requires FetchOk(env) && !Revises(cfg, req, env)
    ensures AfterRevision(cfg, kv, req, env) == kv && !PurgeFails(cfg, req, env)
  {}
}
