// What the write path keeps: supersession chains over runs of writes, and the key-value
// store across aborted writes.
module WriteGuarantees {
  import opened Arbiter
  import opened MemoryRecords
  import opened WritePath
  import opened Wrappers

  // --------------------------------------------------------- supersession chains

  // Following at most n links from k ends at a stored record that arbitration does not ignore.
  ghost predicate LeadsToLive(kv: Store, k: Key, n: nat)
    decreases n
  {
    k in kv &&
    (IsRetired(kv[k]) ==>
       n > 0 && kv[k].meta.supersededBy.Some? && LeadsToLive(kv, kv[k].meta.supersededBy.value, n - 1))
  }

  // Every chain ends at a live record, and live records hold no link.
  ghost predicate LinksOk(kv: Store) {
    && (forall k :: k in kv ==> exists n: nat :: LeadsToLive(kv, k, n))
    && (forall k :: k in kv && !IsRetired(kv[k]) ==> kv[k].meta.supersededBy == None)
  }

  // A walk along the links of retired records.
  ghost predicate IsLinkWalk(kv: Store, p: seq<Key>) {
    forall i :: 0 <= i < |p| - 1 ==>
      p[i] in kv && IsRetired(kv[p[i]]) && kv[p[i]].meta.supersededBy == Some(p[i+1])
  }

  lemma {:induction false} WalkIsShort(kv: Store, p: seq<Key>, n: nat)
    requires p != [] && LeadsToLive(kv, p[0], n) && IsLinkWalk(kv, p)
    ensures |p| <= n + 1
    decreases n
  {
    if |p| > 1 {
      assert kv[p[0]].meta.supersededBy == Some(p[0+1]);
      var q := p[1..];
      forall i | 0 <= i < |q| - 1
        ensures q[i] in kv && IsRetired(kv[q[i]]) && kv[q[i]].meta.supersededBy == Some(q[i+1])
      {
        var j := i + 1;
        assert q[i] == p[j] && q[i+1] == p[j+1];
      }
      WalkIsShort(kv, p[1..], n - 1);
    }
  }

  ghost function Cycle(p: seq<Key>, times: nat): seq<Key>
    requires |p| > 1
  {
    if times == 0 then [p[0]] else Cycle(p, times - 1) + p[1..]
  }

  lemma {:induction false} CycleWalks(kv: Store, p: seq<Key>, times: nat)
    requires |p| > 1 && p[0] == p[|p|-1] && IsLinkWalk(kv, p)
    ensures var c := Cycle(p, times);
      IsLinkWalk(kv, c) && |c| >= times + 1 && c[0] == p[0] && c[|c|-1] == p[0]
  {
    if times > 0 {
      CycleWalks(kv, p, times - 1);
      var front := Cycle(p, times - 1);
      var c := front + p[1..];
      forall i | 0 <= i < |c| - 1
        ensures c[i] in kv && IsRetired(kv[c[i]]) && kv[c[i]].meta.supersededBy == Some(c[i+1])
      {
        if i + 1 < |front| {
          assert c[i] == front[i] && c[i+1] == front[i+1];
        } else {
          var j := i + 1 - |front|;
          assert c[i] == p[j] && c[i+1] == p[j+1];
        }
      }
    }
  }

  // The links form no cycle.
  lemma LinksAcyclic(kv: Store, p: seq<Key>)
    requires LinksOk(kv) && |p| > 1 && IsLinkWalk(kv, p) && p[0] in kv
    ensures p[0] != p[|p|-1]
  {
    if p[0] == p[|p|-1] {
      var n: nat :| LeadsToLive(kv, p[0], n);
      CycleWalks(kv, p, n + 1);
      WalkIsShort(kv, Cycle(p, n + 1), n);
    }
  }

  ghost predicate CleanRequest(req: Request) {
    !req.meta.isSuperseded && !req.meta.superseded && req.meta.supersededBy == None
  }

  // The one way a successful write breaks the chains: the old record could not be marked,
  // its vectors could not be purged, and yet the tombstone was written on a live record.
  ghost predicate TombstoneGap(cfg: Config, kv: Store, req: Request, env: Env)
    requires FetchOk(env)
  {
    && PurgeFails(cfg, req, env) && !env.markOk && env.tombstoneOk
    && OldKey(cfg, req, env) in kv && !IsRetired(kv[OldKey(cfg, req, env)])
  }

  // Outside the written key, the new store keeps every link or points it at the written key.
  ghost predicate Redirected(kv: Store, next: Store, key: Key) {
    && key in next && !IsRetired(next[key]) && next[key].meta.supersededBy == None
    && kv.Keys <= next.Keys
    && forall k :: k in next && k != key ==>
         || (k in kv && IsRetired(next[k]) == IsRetired(kv[k]) && next[k].meta.supersededBy == kv[k].meta.supersededBy)
         || (IsRetired(next[k]) && next[k].meta.supersededBy == Some(key))
  }

  lemma {:induction false} RedirectedLeads(kv: Store, next: Store, key: Key, k: Key, n: nat)
    requires Redirected(kv, next, key) && LeadsToLive(kv, k, n)
    ensures LeadsToLive(next, k, n + 1)
    decreases n
  {
    if k != key {
      if IsRetired(next[k]) && next[k].meta.supersededBy == Some(key) {
        assert LeadsToLive(next, key, n);
      } else if IsRetired(kv[k]) {
        RedirectedLeads(kv, next, key, kv[k].meta.supersededBy.value, n - 1);
      }
    }
  }

  lemma RedirectedOk(kv: Store, next: Store, key: Key)
    requires Redirected(kv, next, key) && LinksOk(kv)
    ensures LinksOk(next)
  {
    forall k | k in next ensures exists n: nat :: LeadsToLive(next, k, n) {
      if k in kv {
        var n: nat :| LeadsToLive(kv, k, n);
        RedirectedLeads(kv, next, key, k, n);
      } else if k == key {
        assert LeadsToLive(next, key, 0);
      } else {
        assert LeadsToLive(next, key, 0);
        assert LeadsToLive(next, k, 1);
      }
    }
  }

  // An old record other than the written one was fetched, and was live when fetched.
  lemma OldWasFetched(cfg: Config, req: Request, env: Env)
    requires FetchOk(env) && Revises(cfg, req, env) && OldKey(cfg, req, env) != req.key
    ensures OldKey(cfg, req, env) in env.fetched && !IsRetired(env.fetched[OldKey(cfg, req, env)])
  {
    hide Arbitrate;
    SupersedeRespectsBoundary(cfg, ClaimOf(req), env.order, env.fetched);
    assert OldKey(cfg, req, env) in env.order;
  }

  lemma FinalMetaClean(cfg: Config, req: Request, env: Env)
    requires FetchOk(env) && CleanRequest(req)
    ensures !IsRetired(NewRec(cfg, req, env)) && NewRec(cfg, req, env).meta.supersededBy == None
  {
    hide VerdictOf, OldKey, PurgeFails, SourceOf, Prior, ComposedMeta;
  }

  // A write that stored its value keeps the chains exactly when it does not fall into the
  // tombstone gap.
  lemma WrittenKeepsLinks(cfg: Config, kv: Store, req: Request, env: Env)
    requires FetchOk(env) && LinksOk(kv) && CleanRequest(req)
    requires WriteStep(cfg, kv, req, env).outcome == Written
    ensures LinksOk(WriteStep(cfg, kv, req, env).kv) <==> !TombstoneGap(cfg, kv, req, env)
  {
    hide VerdictOf, FinalMeta, LinksOk;
    var next := WriteStep(cfg, kv, req, env).kv;
    FinalMetaClean(cfg, req, env);
    if Revises(cfg, req, env) && OldKey(cfg, req, env) != req.key { OldWasFetched(cfg, req, env); }
    if TombstoneGap(cfg, kv, req, env) {
      GapBreaks(kv, next, OldKey(cfg, req, env));
    } else {
      assert Redirected(kv, next, req.key);
      RedirectedOk(kv, next, req.key);
    }
  }

  lemma GapBreaks(kv: Store, next: Store, k: Key)
    requires LinksOk(kv) && k in kv && !IsRetired(kv[k])
    requires k in next && next[k] == Tombstoned(kv[k])
    ensures !LinksOk(next)
  {
    assert forall n :: !LeadsToLive(next, k, n);
  }

  // Rejected writes and replays of known passages keep the chains too.
  lemma OtherSuccessKeepsLinks(cfg: Config, kv: Store, req: Request, env: Env)
    requires FetchOk(env) && LinksOk(kv) && CleanRequest(req)
    requires WriteStep(cfg, kv, req, env).outcome in {Rejected, NoOp}
    ensures LinksOk(WriteStep(cfg, kv, req, env).kv)
  {
    hide VerdictOf, LinksOk, AfterRevision, NewRec, UndoAfterVector, UndoAfterGraph;
    var next := WriteStep(cfg, kv, req, env).kv;
    if next != kv {
      assert Redirected(kv, next, req.key);
      RedirectedOk(kv, next, req.key);
    }
  }

  // ------------------------------------------------------------- whole runs

  datatype Call = Call(req: Request, env: Env)

  ghost predicate CallsOk(calls: seq<Call>) {
    forall c :: c in calls ==> FetchOk(c.env) && CleanRequest(c.req)
  }

  // The store after the first n calls.
  ghost function After(cfg: Config, kv: Store, calls: seq<Call>, n: nat): Store
    requires n <= |calls| && CallsOk(calls)
  {
    if n == 0 then kv
    else WriteStep(cfg, After(cfg, kv, calls, n-1), calls[n-1].req, calls[n-1].env).kv
  }

  ghost predicate AllSucceed(cfg: Config, kv: Store, calls: seq<Call>)
    requires CallsOk(calls)
  {
    forall i :: 0 <= i < |calls| ==>
      Succeeded(WriteStep(cfg, After(cfg, kv, calls, i), calls[i].req, calls[i].env).outcome)
  }

  ghost predicate FallsInGap(cfg: Config, kv: Store, calls: seq<Call>, i: nat)
    requires i < |calls| && CallsOk(calls)
  {
    && WriteStep(cfg, After(cfg, kv, calls, i), calls[i].req, calls[i].env).outcome == Written
    && TombstoneGap(cfg, After(cfg, kv, calls, i), calls[i].req, calls[i].env)
  }

  lemma StepKeepsLinks(cfg: Config, kv: Store, calls: seq<Call>, i: nat)
    requires CallsOk(calls) && i < |calls| && AllSucceed(cfg, kv, calls) && LinksOk(After(cfg, kv, calls, i))
    ensures LinksOk(After(cfg, kv, calls, i+1)) <==> !FallsInGap(cfg, kv, calls, i)
  {
    hide WriteStep, LinksOk, TombstoneGap;
    var st := After(cfg, kv, calls, i);
    var c := calls[i];
    assert c in calls;
    if WriteStep(cfg, st, c.req, c.env).outcome == Written {
      WrittenKeepsLinks(cfg, st, c.req, c.env);
    } else {
      OtherSuccessKeepsLinks(cfg, st, c.req, c.env);
    }
  }

  lemma {:induction false} NoGapKeepsLinks(cfg: Config, kv: Store, calls: seq<Call>, n: nat)
    requires CallsOk(calls) && AllSucceed(cfg, kv, calls) && LinksOk(kv) && n <= |calls|
    requires forall i :: 0 <= i < n ==> !FallsInGap(cfg, kv, calls, i)
    ensures LinksOk(After(cfg, kv, calls, n))
  {
    hide WriteStep, LinksOk, FallsInGap, AllSucceed, CallsOk, After;
    if n > 0 {
      NoGapKeepsLinks(cfg, kv, calls, n-1);
      StepKeepsLinks(cfg, kv, calls, n-1);
    } else {
      AfterNone(cfg, kv, calls);
    }
  }

  lemma AfterNone(cfg: Config, kv: Store, calls: seq<Call>)
    requires CallsOk(calls)
    ensures After(cfg, kv, calls, 0) == kv
  {}

  lemma GapBreaksRun(cfg: Config, kv: Store, calls: seq<Call>, i: nat) returns (n: nat)
    requires CallsOk(calls) && AllSucceed(cfg, kv, calls) && i < |calls| && FallsInGap(cfg, kv, calls, i)
    ensures n <= |calls| && !LinksOk(After(cfg, kv, calls, n))
  {
    hide WriteStep, LinksOk, FallsInGap, After, AllSucceed, CallsOk;
    if LinksOk(After(cfg, kv, calls, i)) {
      StepKeepsLinks(cfg, kv, calls, i);
      n := i + 1;
    } else {
      n := i;
    }
  }

  ghost predicate LinksAlways(cfg: Config, kv: Store, calls: seq<Call>)
    requires CallsOk(calls)
  {
    forall n: nat :: n <= |calls| ==> LinksOk(After(cfg, kv, calls, n))
  }

  ghost predicate NeverInGap(cfg: Config, kv: Store, calls: seq<Call>)
    requires CallsOk(calls)
  {
    forall i: nat :: i < |calls| ==> !FallsInGap(cfg, kv, calls, i)
  }

  // Over a run of successful writes whose metadata carries no supersession flag, every
  // state keeps the chains exactly when no write falls into the tombstone gap.
  lemma RunKeepsLinks(cfg: Config, kv: Store, calls: seq<Call>)
    requires CallsOk(calls) && AllSucceed(cfg, kv, calls) && LinksOk(kv)
    ensures LinksAlways(cfg, kv, calls) <==> NeverInGap(cfg, kv, calls)
  {
    hide WriteStep, LinksOk, FallsInGap, After, AllSucceed, CallsOk;
    if NeverInGap(cfg, kv, calls) {
      forall n: nat | n <= |calls| ensures LinksOk(After(cfg, kv, calls, n)) {
        NoGapKeepsLinks(cfg, kv, calls, n);
      }
    } else {
      var i: nat :| i < |calls| && FallsInGap(cfg, kv, calls, i);
      var n := GapBreaksRun(cfg, kv, calls, i);
    }
  }

  // ------------------------------------------------------------ aborted writes

  // The record fetched for k is the one in the store.
  ghost predicate Agrees(kv: Store, env: Env, k: Key) {
    (k in env.fetched <==> k in kv) && (k in kv ==> env.fetched[k] == kv[k])
  }

  // A fetched record that a revision supersedes is the one in the store.
  ghost predicate OldAgrees(cfg: Config, kv: Store, req: Request, env: Env)
    requires FetchOk(env)
  {
    Revises(cfg, req, env) && OldKey(cfg, req, env) in env.fetched ==> Agrees(kv, env, OldKey(cfg, req, env))
  }

  predicate RollbackSucceeds(env: Env) { env.rollbackOk && env.restoreKeyOk && env.restoreOldOk }

  // A revision touches no record but the old one.
  lemma RevisionTouches(cfg: Config, kv: Store, req: Request, env: Env)
    requires FetchOk(env)
    ensures var next, k := AfterRevision(cfg, kv, req, env), OldKey(cfg, req, env);
      && kv.Keys <= next.Keys <= kv.Keys + {k}
      && (forall x :: x in kv && x != k ==> next[x] == kv[x])
      && (!(Revises(cfg, req, env) && k in env.fetched) ==> next == kv)
  {
    hide VerdictOf;
    if Revises(cfg, req, env) && OldKey(cfg, req, env) != req.key { OldWasFetched(cfg, req, env); }
  }

  // A write that fails on vector insertion leaves the key-value store as it was exactly
  // when the records it restores by hand were fetched as they are stored: the old record
  // always, the written one only without a savepoint.
  lemma VectorAbortRestores(cfg: Config, kv: Store, req: Request, env: Env)
    requires FetchOk(env) && RollbackSucceeds(env)
    requires WriteStep(cfg, kv, req, env).outcome == VectorFailed
    ensures WriteStep(cfg, kv, req, env).kv == kv
      <==> (env.hasSavepoint || Agrees(kv, env, req.key)) && OldAgrees(cfg, kv, req, env)
  {
    hide VerdictOf, AfterRevision, NewRec, Revises, OldKey;
    var saved, k := AfterRevision(cfg, kv, req, env), OldKey(cfg, req, env);
    RevisionTouches(cfg, kv, req, env);
    var next := WriteStep(cfg, kv, req, env).kv;
    assert next == UndoAfterVector(cfg, saved, saved[req.key := NewRec(cfg, req, env)], req, env);
    if Revises(cfg, req, env) && k in env.fetched { assert k in next && next[k] == env.fetched[k]; }
    if (env.hasSavepoint || Agrees(kv, env, req.key)) && OldAgrees(cfg, kv, req, env) {
      assert next.Keys == kv.Keys;
      assert next == kv;
    }
  }

  // A same-key revision that was marked before the savepoint and differs from the store.
  ghost predicate SelfMarked(cfg: Config, kv: Store, req: Request, env: Env)
    requires FetchOk(env)
  {
    && env.hasSavepoint && Revises(cfg, req, env) && OldKey(cfg, req, env) == req.key
    && req.key in env.fetched && env.markOk
    && !(req.key in kv && kv[req.key] == Marked(env.fetched[req.key], req.key, env.now))
  }

  // A write that fails on graph insertion: the same, except that a savepoint taken after a
  // same-key revision brings back the marked record, and nothing repairs it.
  lemma GraphAbortRestores(cfg: Config, kv: Store, req: Request, env: Env)
    requires FetchOk(env) && RollbackSucceeds(env)
    requires WriteStep(cfg, kv, req, env).outcome == GraphFailed
    ensures WriteStep(cfg, kv, req, env).kv == kv
      <==> && (env.hasSavepoint || Agrees(kv, env, req.key))
           && (OldKey(cfg, req, env) != req.key ==> OldAgrees(cfg, kv, req, env))
           && !SelfMarked(cfg, kv, req, env)
  {
    hide VerdictOf, NewRec, Revises, OldKey, Marked, Tombstoned;
    var saved, k := AfterRevision(cfg, kv, req, env), OldKey(cfg, req, env);
    RevisionTouches(cfg, kv, req, env);
    var next := WriteStep(cfg, kv, req, env).kv;
    assert next == UndoAfterGraph(cfg, saved, saved[req.key := NewRec(cfg, req, env)], req, env);
    if k == req.key {
      assert env.hasSavepoint ==> next == saved;
      assert !env.hasSavepoint ==> next == RestoreKey(saved[req.key := NewRec(cfg, req, env)], req, env);
      if next.Keys == kv.Keys && (req.key in kv ==> next[req.key] == kv[req.key]) { assert next == kv; }
    } else {
      if Revises(cfg, req, env) && k in env.fetched { assert k in next && next[k] == env.fetched[k]; }
      if (env.hasSavepoint || Agrees(kv, env, req.key)) && OldAgrees(cfg, kv, req, env) {
        assert next.Keys == kv.Keys;
        assert next == kv;
      }
    }
  }

  // After such an abort the record is superseded by itself, and its chain never ends.
  lemma SelfMarkedLoops(cfg: Config, kv: Store, req: Request, env: Env)
    requires FetchOk(env) && RollbackSucceeds(env) && SelfMarked(cfg, kv, req, env)
    requires WriteStep(cfg, kv, req, env).outcome == GraphFailed
    ensures var next := WriteStep(cfg, kv, req, env).kv;
      && req.key in next && next[req.key].meta.supersededBy == Some(req.key)
      && !LinksOk(next)
  {
    hide VerdictOf, NewRec;
    var next := WriteStep(cfg, kv, req, env).kv;
    assert next[req.key] == Marked(env.fetched[req.key], req.key, env.now);
    forall n: nat ensures !LeadsToLive(next, req.key, n) {
      NeverLive(next, req.key, n);
    }
  }

  lemma {:induction false} NeverLive(kv: Store, k: Key, n: nat)
    requires k in kv && IsRetired(kv[k]) && kv[k].meta.supersededBy == Some(k)
    ensures !LeadsToLive(kv, k, n)
    decreases n
  {
    if n > 0 { NeverLive(kv, k, n-1); }
  }

  // What a revision leaves on the old record before the new value is stored: the mark, the
  // tombstone or both, unless the store held just that already.
  ghost predicate MarkRemains(cfg: Config, kv: Store, req: Request, env: Env)
    requires FetchOk(env)
  {
    && Revises(cfg, req, env)
    && var k, tombstone := OldKey(cfg, req, env), PurgeFails(cfg, req, env) && env.tombstoneOk;
       if k in env.fetched && env.markOk then
         var marked := Marked(env.fetched[k], req.key, env.now);
         !(k in kv && kv[k] == if tombstone then Tombstoned(marked) else marked)
       else tombstone && k in kv && !(kv[k].meta.tombstonePending && kv[k].meta.isSuperseded)
  }

  // If persisting the new value itself fails there is no compensation: what the revision
  // wrote over the old record stays.
  lemma KvFailureKeepsMark(cfg: Config, kv: Store, req: Request, env: Env)
    requires FetchOk(env) && WriteStep(cfg, kv, req, env).outcome == KvFailed
    ensures WriteStep(cfg, kv, req, env).kv == kv <==> !MarkRemains(cfg, kv, req, env)
  {
    hide VerdictOf, Marked;
    var k := OldKey(cfg, req, env);
    assert WriteStep(cfg, kv, req, env).kv == AfterRevision(cfg, kv, req, env);
    if k in kv && !MarkRemains(cfg, kv, req, env) {
      assert AfterRevision(cfg, kv, req, env) == kv;
    }
  }

  // -------------------------------------------------- the failures, on an input

  // A store with one live record, known under "b".
  const ONE_RECORD: Store := map["b" := Rec("known", 0.5, BLANK)]

  lemma OneRecordOk()
    ensures LinksOk(ONE_RECORD)
  {
    assert LeadsToLive(ONE_RECORD, "b", 0);
  }

  // A write to `key` that names "b" as the record to supersede.
  function Naming(key: Key): Request {
    Request(key, "new", 0.5, BLANK.(supersedes := Some("b")), false)
  }

  // The store is fetched as it is, and every call succeeds.
  const CALM := Env(
    false, true, false, true,
    ["b"], ONE_RECORD, 1,
    true, true, true, true,
    true, true, true, true,
    true, true, true)

  lemma NamingRevises(key: Key, env: Env)
    requires key in {"a", "b"} && env.order == ["b"] && env.fetched == ONE_RECORD
    ensures FetchOk(env) && CleanRequest(Naming(key))
    ensures var cfg, req := PlainConfig(None), Naming(key);
      VerdictOf(cfg, req, env) == Verdict(Supersede, false, true, Some("b"), Some("b"), Some(BeliefRevision))
  {
    hide Arbitrate;
    assert env.fetched.Keys == {"b"};
    NamedIsSuperseded(PlainConfig(None), ClaimOf(Naming(key)), "b", Rec("known", 0.5, BLANK));
  }

  // The mark and the purge fail, the tombstone is written, and the write reports success.
  lemma GapIsReached() returns (cfg: Config, kv: Store, req: Request, env: Env)
    ensures LinksOk(kv) && FetchOk(env) && CleanRequest(req)
    ensures WriteStep(cfg, kv, req, env).outcome == Written && TombstoneGap(cfg, kv, req, env)
    ensures !LinksOk(WriteStep(cfg, kv, req, env).kv)
  {
    cfg, kv, req, env := PlainConfig(None), ONE_RECORD, Naming("a"), CALM.(markOk := false, purgeOk := false);
    OneRecordOk();
    NamingRevises("a", env);
    hide LinksOk, VerdictOf, FinalMeta;
    WrittenKeepsLinks(cfg, kv, req, env);
  }

  // A same-key revision is marked, the savepoint is taken, and the graph insertion fails.
  lemma SelfMarkIsReached() returns (cfg: Config, kv: Store, req: Request, env: Env)
    ensures LinksOk(kv) && FetchOk(env) && CleanRequest(req) && RollbackSucceeds(env)
    ensures WriteStep(cfg, kv, req, env).outcome == GraphFailed && SelfMarked(cfg, kv, req, env)
    ensures !LinksOk(WriteStep(cfg, kv, req, env).kv)
  {
    cfg, kv, req, env := PlainConfig(None), ONE_RECORD, Naming("b"), CALM.(graphOk := false);
    OneRecordOk();
    NamingRevises("b", env);
    hide LinksOk, VerdictOf, FinalMeta;
    SelfMarkedLoops(cfg, kv, req, env);
  }

  // The old record is marked and the store refuses the new value.
  lemma MarkIsKept() returns (cfg: Config, kv: Store, req: Request, env: Env)
    ensures LinksOk(kv) && FetchOk(env) && CleanRequest(req)
    ensures WriteStep(cfg, kv, req, env).outcome == KvFailed && MarkRemains(cfg, kv, req, env)
    ensures WriteStep(cfg, kv, req, env).kv != kv
  {
    cfg, kv, req, env := PlainConfig(None), ONE_RECORD, Naming("a"), CALM.(setOk := false);
    OneRecordOk();
    NamingRevises("a", env);
    hide LinksOk, VerdictOf, FinalMeta;
    KvFailureKeepsMark(cfg, kv, req, env);
  }
}
