// When a weaker claim is kept from overwriting a record, and when a claim replaces one, read
// off the stored record and the claim (conflict_arbiter.py, write_path.py).
module ConfidenceGate {
  import opened Arbiter
  import opened MemoryRecords
  import opened Reals
  import opened WritePath
  import opened Wrappers
  import StableSort

  predicate SameValue(cfg: Config, c: Claim, r: Rec) { cfg.lex.lower(r.value) == cfg.lex.lower(c.value) }

  // Established by confidence or by the user.
  predicate Established(r: Rec) { r.confidence >= 0.90 || r.meta.sourceType == "user_explicit" }

  // Less confident than the record: by any margin for a new value, by over 0.20 for the same.
  predicate Undercuts(cfg: Config, c: Claim, r: Rec) {
    if SameValue(cfg, c, r) then r.confidence > c.confidence + 0.20 else r.confidence > c.confidence
  }

  // A live record under the claim's own key that the claim undercuts, unless the metadata
  // names it or a critical rule gives way.
  predicate Guarded(cfg: Config, c: Claim, r: Rec) {
    && !IsRetired(r) && Established(r) && Undercuts(cfg, c, r)
    && c.meta.supersedes != Some(c.key)
    && !(!SameValue(cfg, c, r) && IsMeltedRule(cfg, c.key) && c.confidence >= 0.70)
  }

  function OwnCandidate(c: Claim, r: Rec): Candidate {
    Candidate(c.key, 90.0, ConfidenceInversion, r.confidence, r.meta.ruleMelted)
  }

  // The scan warns of an inversion exactly for a guarded record of the claim's own key.
  lemma ScanGuards(cfg: Config, k: Key, r: Rec, c: Claim)
    ensures var x := Scan(cfg, k, r, c);
      && (x.Some? && x.value.reason == ConfidenceInversion <==> k == c.key && Guarded(cfg, c, r))
      && (k == c.key && Guarded(cfg, c, r) ==> x == Some(OwnCandidate(c, r)))
  {
    hide IsEpisodic, IsMultiValued, IsMeltedRule;
  }

  // The scan finds a revision of the claim's own key exactly where the metadata names it, or
  // where a new value comes from a user who is as confident, or on a rule that gives way.
  lemma ScanRevises(cfg: Config, r: Rec, c: Claim)
    requires !IsRetired(r)
    ensures var x := Scan(cfg, c.key, r, c);
      var source := if c.meta.sourceType == "" then "user_explicit" else c.meta.sourceType;
      x.Some? && x.value.reason == BeliefRevision <==>
      || c.meta.supersedes == Some(c.key)
      || (&& !SameValue(cfg, c, r)
          && (|| (source != "agent_inference" && c.confidence >= cfg.threshold && r.confidence <= c.confidence)
              || (IsMeltedRule(cfg, c.key) && c.confidence >= 0.70)))
  {
    hide IsEpisodic, IsMultiValued, IsMeltedRule;
  }

  // Under another key the scan finds the record that the metadata names, or what the
  // detectors report between two single-valued slots, and passes over the rest.
  lemma ScanForeign(cfg: Config, k: Key, r: Rec, c: Claim)
    requires k != c.key
    ensures var x := Scan(cfg, k, r, c);
      && (c.meta.supersedes == Some(k) && !IsRetired(r) ==>
            x == Some(Candidate(k, 100.0, BeliefRevision, r.confidence, r.meta.ruleMelted)))
      && (c.meta.supersedes != Some(k) ==>
            (x.Some? <==> && !IsRetired(r) && !IsEpisodic(k)
                          && !IsMultiValued(cfg.lex, c.key) && !IsMultiValued(cfg.lex, k)
                          && cfg.clash(c.key, c.value, k, r).Some?))
      && (c.meta.supersedes != Some(k) && x.Some? ==>
            && x.value.score == cfg.clash(c.key, c.value, k, r).value.score
            && IsRevisable(x.value.reason) && x.value.confidence == r.confidence)
  {
    hide IsEpisodic, IsMultiValued;
  }

  // ------------------------------------------------------- the gate, exactly

  lemma {:induction false} CollectedInversion(cfg: Config, c: Claim, order: seq<Key>, items: map<Key, Rec>, n: nat,
                                              x: Candidate)
    requires n <= |order| && forall k :: k in order ==> k in items
    requires x in Collect(cfg, c, order, items, n) && x.reason == ConfidenceInversion
    ensures c.key in order && Guarded(cfg, c, items[c.key]) && x == OwnCandidate(c, items[c.key])
  {
    hide Scan, Guarded;
    if n > 0 {
      ScanGuards(cfg, order[n-1], items[order[n-1]], c);
      if x in Collect(cfg, c, order, items, n-1) { CollectedInversion(cfg, c, order, items, n-1, x); }
    }
  }

  lemma FirstBestUnique(l: seq<Candidate>, x: Candidate, y: Candidate)
    requires StableSort.IsFirstBest(ScoreAtMost, l, x) && StableSort.IsFirstBest(ScoreAtMost, l, y)
    ensures x == y
  {}

  // The claim's own record gives the best candidate, the first of its score.
  ghost predicate OwnIsBest(cfg: Config, c: Claim, order: seq<Key>, items: map<Key, Rec>)
    requires forall k :: k in order ==> k in items
  {
    && c.key in order
    && StableSort.IsFirstBest(ScoreAtMost, Collect(cfg, c, order, items, |order|), OwnCandidate(c, items[c.key]))
  }

  // Neither the metadata nor a melted rule lets the claim through.
  predicate NoLeave(c: Claim, r: Rec) {
    !Asked(c.meta, c.key) && !((r.meta.ruleMelted || c.meta.ruleMelted) && c.confidence >= 0.70)
  }

  // The verdict is a confidence inversion exactly when the claim's own record is guarded,
  // its candidate is the best, and nothing lets the claim through.
  lemma InversionExactlyWhen(cfg: Config, c: Claim, order: seq<Key>, items: map<Key, Rec>)
    requires forall k :: k in order ==> k in items
    ensures var v := Arbitrate(cfg, c, order, items);
      && (v.reason == Some(ConfidenceInversion) <==>
            && OwnIsBest(cfg, c, order, items)
            && Guarded(cfg, c, items[c.key]) && NoLeave(c, items[c.key]))
      && (Blocks(v) <==> v.reason == Some(ConfidenceInversion))
  {
    hide Collect, SortByScore, IsMultiValued, RootOf, Guarded;
    var l := Collect(cfg, c, order, items, |order|);
    var sorted := SortByScore(l);
    SortedCandidates(l);
    if sorted != [] {
      BestIsCollected(cfg, c, order, items);
      var best := sorted[0];
      if best.reason == ConfidenceInversion {
        CollectedInversion(cfg, c, order, items, |order|, best);
        InversionVerdict(cfg, c, sorted, items[c.key]);
      }
      if OwnIsBest(cfg, c, order, items) {
        FirstBestUnique(l, best, OwnCandidate(c, items[c.key]));
      }
    }
  }

  lemma InversionVerdict(cfg: Config, c: Claim, sorted: seq<Candidate>, r: Rec)
    requires sorted != [] && sorted[0] == OwnCandidate(c, r) && Guarded(cfg, c, r)
    ensures Judge(cfg, c, sorted).reason == Some(ConfidenceInversion) <==> NoLeave(c, r)
    ensures Judge(cfg, c, sorted).reason == Some(ConfidenceInversion) ==> Judge(cfg, c, sorted).isConflict
  {
    hide IsMultiValued, RootOf, IsMeltedRule, IsUserExplicit;
  }

  // A guarded record with the best candidate is left exactly as it is by every write of a
  // passage that is not a replay.
  lemma GuardedIsLeft(cfg: Config, kv: Store, req: Request, env: Env)
    requires FetchOk(env) && !env.replayed
    requires var c := ClaimOf(req);
      && OwnIsBest(cfg, c, env.order, env.fetched)
      && Guarded(cfg, c, env.fetched[req.key]) && NoLeave(c, env.fetched[req.key])
    ensures WriteStep(cfg, kv, req, env) == Step(kv, Rejected)
  {
    hide Arbitrate, OwnIsBest, Guarded, NoLeave, AfterRevision, NewRec;
    InversionExactlyWhen(cfg, ClaimOf(req), env.order, env.fetched);
  }

  // Nothing else of 90 or more: then the guarded record's candidate is the best.
  lemma {:induction false} AllBelow(cfg: Config, c: Claim, order: seq<Key>, items: map<Key, Rec>, n: nat)
    requires n <= |order| && forall k :: k in order ==> k in items
    requires c.key in order && Guarded(cfg, c, items[c.key]) && !IsMarkedClaim(cfg, c)
    requires forall k :: k in order && k != c.key ==>
      Scan(cfg, k, items[k], c).None? || Scan(cfg, k, items[k], c).value.score < 90.0
    ensures forall x :: x in Collect(cfg, c, order, items, n) ==> x == OwnCandidate(c, items[c.key]) || x.score < 90.0
    ensures c.key in order[..n] ==> OwnCandidate(c, items[c.key]) in Collect(cfg, c, order, items, n)
  {
    hide Scan, Guarded, IsMarkedClaim;
    if n > 0 {
      assert order[..n] == order[..n-1] + [order[n-1]];
      AllBelow(cfg, c, order, items, n-1);
      ScanGuards(cfg, order[n-1], items[order[n-1]], c);
    }
  }

  lemma {:induction false} FirstPlace(l: seq<Candidate>, x: Candidate) returns (k: nat)
    requires x in l
    ensures k < |l| && l[k] == x && x !in l[..k]
  {
    if l[0] == x {
      k := 0;
    } else {
      var j := FirstPlace(l[1..], x);
      k := j + 1;
      assert l[..k] == [l[0]] + l[1..][..j];
    }
  }

  lemma FirstOf(l: seq<Candidate>, x: Candidate)
    requires x in l && forall y :: y in l ==> y == x || y.score < x.score
    ensures StableSort.IsFirstBest(ScoreAtMost, l, x)
  {
    var k := FirstPlace(l, x);
    forall j | 0 <= j < k ensures !ScoreAtMost(x, l[j]) { assert l[j] == l[..k][j]; }
  }

  lemma GuardedIsBest(cfg: Config, c: Claim, order: seq<Key>, items: map<Key, Rec>)
    requires forall k :: k in order ==> k in items
    requires c.key in order && Guarded(cfg, c, items[c.key]) && !IsMarkedClaim(cfg, c)
    requires forall k :: k in order && k != c.key ==>
      Scan(cfg, k, items[k], c).None? || Scan(cfg, k, items[k], c).value.score < 90.0
    ensures OwnIsBest(cfg, c, order, items)
  {
    hide Scan, Guarded, IsMarkedClaim, Collect, StableSort.IsFirstBest;
    assert order[..|order|] == order;
    AllBelow(cfg, c, order, items, |order|);
    FirstOf(Collect(cfg, c, order, items, |order|), OwnCandidate(c, items[c.key]));
  }

  // ------------------------------------------------- when a claim supersedes

  predicate FromUser(cfg: Config, c: Claim) {
    var source := if c.meta.sourceType == "" then "user_explicit" else c.meta.sourceType;
    source == "user_explicit" || (c.confidence >= cfg.threshold && source != "agent_inference")
  }

  // By the best candidate: a record of the claim's own key is superseded on request, by a
  // revision that the scan found, by a user who is confident enough, or under a melted rule;
  // a record of another key moreover only between single-valued slots, and without a request
  // only within the entity root, on a topic of score 35, and by a revisable clash or a rule.
  lemma SupersedesExactlyWhen(cfg: Config, c: Claim, order: seq<Key>, items: map<Key, Rec>)
    requires forall k :: k in order ==> k in items
    requires SortByScore(Collect(cfg, c, order, items, |order|)) != []
    ensures var best := SortByScore(Collect(cfg, c, order, items, |order|))[0];
      var confident := FromUser(cfg, c) && c.confidence >= cfg.threshold && best.confidence <= c.confidence;
      var melted := (best.ruleMelted || c.meta.ruleMelted) && c.confidence >= 0.70;
      Arbitrate(cfg, c, order, items).action == Supersede <==>
        if best.key == c.key then
          best.reason == BeliefRevision || Asked(c.meta, c.key) || confident || melted
        else
          && !IsMultiValued(cfg.lex, c.key) && !IsMultiValued(cfg.lex, best.key)
          && (|| Asked(c.meta, best.key)
              || (&& RootOf(cfg.lex, c.key) == RootOf(cfg.lex, best.key) && best.score >= 35.0
                  && ((confident && IsRevisable(best.reason)) || melted)))
  {
    hide Collect, SortByScore, IsMultiValued, RootOf;
    var best := SortByScore(Collect(cfg, c, order, items, |order|))[0];
    BestIsCollected(cfg, c, order, items);
    if best.key != c.key { CollectedFrom(cfg, c, order, items, |order|, best); }
  }

  // --------------------------------------------------------- on three claims

  // A record of confidence 0.95, and a claim to its key by an agent.
  const KNOWN := Rec("known", 0.95, BLANK)

  function ByAgent(confidence: Unit): Claim {
    Claim("a", "new", confidence, BLANK.(sourceType := "agent_inference"))
  }

  // A claim of 0.5 is blocked, one of 0.99 is not.
  lemma WeakerIsBlocked()
    ensures Arbitrate(PlainConfig(None), ByAgent(0.5), ["a"], map["a" := KNOWN]).reason == Some(ConfidenceInversion)
    ensures !Blocks(Arbitrate(PlainConfig(None), ByAgent(0.99), ["a"], map["a" := KNOWN]))
  {
    var items := map["a" := KNOWN];
    GuardedIsBest(PlainConfig(None), ByAgent(0.5), ["a"], items);
    InversionExactlyWhen(PlainConfig(None), ByAgent(0.5), ["a"], items);
    InversionExactlyWhen(PlainConfig(None), ByAgent(0.99), ["a"], items);
  }
}
