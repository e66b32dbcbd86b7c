// The epistemic decision kernel and the two-stage conflict arbiter
// (conflict_arbiter.py). Word lists, case folding, stripping, the lexical clash detectors
// and the active-sensing engine are parameters.
module Arbiter {
  import opened MemoryRecords
  import opened Reals
  import StableSort
  import opened Wrappers

  // ------------------------------------------------------------------ strings

  function SplitOn(s: string, c: char): (parts: seq<string>)
    ensures Join(parts, [c]) == s && forall p :: p in parts ==> c !in p
    ensures parts != [] && (c in s <==> |parts| >= 2)
  {
    if s == [] then [""]
    else
      var rest := SplitOn(s[1..], c);
      if s[0] == c then [""] + rest else [[s[0]] + rest[0]] + rest[1..]
  }

  function Join(parts: seq<string>, sep: string): string {
    if parts == [] then ""
    else if |parts| == 1 then parts[0]
    else parts[0] + sep + Join(parts[1..], sep)
  }

  function Replace(s: string, a: char, b: char): string {
    seq(|s|, i requires 0 <= i < |s| => if s[i] == a then b else s[i])
  }

  predicate StartsWith(s: string, p: string) { p <= s }

  // ------------------------------------------------------------- coordinates

  datatype Lexicon = Lexicon(
    strip: string -> string,
    lower: string -> string,
    namespaces: set<string>,
    functional: set<string>)

  datatype Coordinate = Coordinate(namespace: string, entityId: string, slot: string, isFunctional: bool,
      rawKey: string)

  function EntityRoot(lex: Lexicon, c: Coordinate): string {
    if ':' !in c.rawKey then c.rawKey
    else
      var parts := SplitOn(c.rawKey, ':');
      if parts[0] == "hermes" && |parts| >= 3 then Join(parts[..3], ":")
      else if (parts[0] in lex.namespaces || |parts| >= 3) && |parts| >= 2 then Join(parts[..2], ":")
      else parts[0]
  }

  function FromKey(lex: Lexicon, key: Key): Coordinate {
    var clean := lex.strip(key);
    if ':' !in clean then
      Coordinate("fact", clean, "value", lex.lower(clean) in lex.functional, clean)
    else
      var parts := SplitOn(clean, ':');
      var ns := lex.lower(parts[0]);
      if ns == "hermes" && |parts| >= 3 then
        Coordinate("hermes", parts[1], Join(parts[2..], ":"), true, clean)
      else if |parts| == 2 then
        var slot := if parts[1] in lex.functional then parts[1] else "value";
        Coordinate(ns, if slot == "value" then parts[1] else parts[0], slot, slot in lex.functional, clean)
      else
        var rest := if |parts| > 3 then Join(parts[3..], ":") else "";
        var p1, p2 := parts[1], parts[2];
        if p1 in lex.functional && p2 !in lex.functional then
          Coordinate(ns, if rest != "" then p2 + ":" + rest else p2, p1, true, clean)
        else
          var slot := if rest != "" then p2 + ":" + rest else p2;
          Coordinate(ns, p1, slot, p2 in lex.functional || slot in lex.functional, clean)
  }

  function RootOf(lex: Lexicon, key: Key): string { EntityRoot(lex, FromKey(lex, key)) }

  lemma {:induction false} SplitFirst(p: string, c: char, t: string)
    requires c !in p
    ensures SplitOn(p + [c] + t, c) == [p] + SplitOn(t, c)
  {
    hide Join;
    if p == [] {
      assert p + [c] + t == [c] + t;
      assert ([c] + t)[0] == c && ([c] + t)[1..] == t;
    } else {
      assert (p + [c] + t)[1..] == p[1..] + [c] + t;
      SplitFirst(p[1..], c, t);
      assert p[0] in p && (p + [c] + t)[0] == p[0];
      assert ([p[1..]] + SplitOn(t, c))[1..] == SplitOn(t, c) && [p[0]] + p[1..] == p;
    }
  }

  lemma {:induction false} SplitWhole(s: string, c: char)
    requires c !in s
    ensures SplitOn(s, c) == [s]
  {
    if s != [] { SplitWhole(s[1..], c); }
  }

  lemma {:induction false} SplitOfJoin(parts: seq<string>, c: char)
    requires parts != [] && forall p :: p in parts ==> c !in p
    ensures SplitOn(Join(parts, [c]), c) == parts
  {
    if |parts| == 1 {
      SplitWhole(parts[0], c);
    } else {
      SplitOfJoin(parts[1..], c);
      SplitFirst(parts[0], c, Join(parts[1..], [c]));
      assert parts == [parts[0]] + parts[1..];
    }
  }

  // How many parts of a key name its entity: three under hermes, two in a known namespace or
  // with a slot, and otherwise the first alone.
  function RootLength(lex: Lexicon, parts: seq<string>): (n: nat)
    requires parts != []
    ensures 1 <= n <= |parts|
  {
    if |parts| >= 3 && parts[0] == "hermes" then 3
    else if |parts| >= 3 || (|parts| == 2 && parts[0] in lex.namespaces) then 2
    else 1
  }

  // The entity root of a key is made of its first parts, so two keys share a root exactly
  // when these parts agree.
  lemma RootParts(lex: Lexicon, key: Key)
    ensures var parts := SplitOn(lex.strip(key), ':');
      SplitOn(RootOf(lex, key), ':') == parts[..RootLength(lex, parts)]
  {
    var clean := lex.strip(key);
    var parts := SplitOn(clean, ':');
    RawKeyIsStripped(lex, key);
    hide FromKey, SplitOn;
    if ':' !in clean {
      SplitWhole(clean, ':');
      assert parts[..1] == parts;
    } else {
      var front := parts[..RootLength(lex, parts)];
      SplitOfJoin(front, ':');
      assert front[0] == parts[0];
      assert |front| == 1 ==> Join(front, ":") == parts[0];
    }
  }

  lemma RawKeyIsStripped(lex: Lexicon, key: Key)
    ensures FromKey(lex, key).rawKey == lex.strip(key)
  {
    hide SplitOn, Join;
  }

  lemma RootsAgreeExactlyWhen(lex: Lexicon, a: Key, b: Key)
    ensures var p, q := SplitOn(lex.strip(a), ':'), SplitOn(lex.strip(b), ':');
      RootOf(lex, a) == RootOf(lex, b) <==> p[..RootLength(lex, p)] == q[..RootLength(lex, q)]
  {
    hide RootOf, SplitOn, RootLength;
    RootParts(lex, a);
    RootParts(lex, b);
    JoinsBack(RootOf(lex, a));
    JoinsBack(RootOf(lex, b));
  }

  lemma JoinsBack(s: string)
    ensures Join(SplitOn(s, ':'), ":") == s
  {}

  // A key of three or more parts loses none of them: after the namespace come entity and
  // slot, or slot and entity where the second part names a functional slot and the third does
  // not. Under hermes the slot always comes last. Only an empty fourth and last part is lost.
  lemma CoordinateKeepsParts(lex: Lexicon, key: Key)
    requires |SplitOn(lex.strip(key), ':')| >= 3
    ensures var c, parts := FromKey(lex, key), SplitOn(lex.strip(key), ':');
      var hermes := lex.lower(parts[0]) == "hermes";
      var turned := !hermes && parts[1] in lex.functional && parts[2] !in lex.functional;
      var kept := if turned then c.slot + ":" + c.entityId else c.entityId + ":" + c.slot;
      && c.namespace == lex.lower(parts[0])
      && Join(parts[1..], ":") == (if !hermes && |parts| == 4 && parts[3] == "" then kept + ":" else kept)
      && (turned ==> c.slot == parts[1]) && (!turned ==> c.entityId == parts[1])
  {
    hide SplitOn;
    var parts := SplitOn(lex.strip(key), ':');
    JoinTail(parts[1..]);
    JoinTail(parts[2..]);
    assert parts[1..][1..] == parts[2..] && parts[2..][1..] == parts[3..];
    assert ':' in lex.strip(key);
    if |parts| > 3 { JoinTail(parts[3..]); }
    if |parts| == 4 { assert parts[3..] == [parts[3]]; }
    hide Join;
    var tail := if |parts| > 3 then Join(parts[3..], ":") else "";
    assert tail == "" && |parts| > 3 ==> |parts| == 4 && parts[3] == "";
    assert parts[1] + ":" + (parts[2] + ":" + tail) == parts[1] + ":" + parts[2] + ":" + tail;
    assert parts[1] + ":" + (parts[2] + ":") == parts[1] + ":" + parts[2] + ":";
    assert parts[2] + ":" + "" == parts[2] + ":";
  }

  lemma JoinTail(parts: seq<string>)
    requires parts != []
    ensures Join(parts, ":") == if |parts| == 1 then parts[0] else parts[0] + ":" + Join(parts[1..], ":")
  {}

  const MULTI_VALUED := {
    "tags", "tag", "allowed_users", "users", "members", "roles", "items",
    "dependencies", "plugins", "features", "scopes", "permissions"}

  predicate IsMultiValued(lex: Lexicon, key: Key) {
    var c := FromKey(lex, key);
    var slot := lex.lower(c.slot);
    || slot in MULTI_VALUED || lex.lower(c.entityId) in MULTI_VALUED
    || exists t :: t in SplitOn(Replace(slot, ':', '_'), '_') && t in MULTI_VALUED
  }

  // -------------------------------------------------------- the decision kernel

  datatype Reason =
    | ExplicitMarker | BeliefRevision | ConfidenceInversion
    | ExclusivityCollision | SemanticContradiction | ExclusivityViolation

  datatype Action = Accept | Warn | Supersede

  predicate CanSupersede(lex: Lexicon, incoming: Key, existing: Key, isExplicit: bool) {
    || isExplicit
    || incoming == existing
    || (&& RootOf(lex, incoming) == RootOf(lex, existing)
        && !IsMultiValued(lex, incoming) && !IsMultiValued(lex, existing))
  }

  predicate IsRevisable(r: Reason) {
    r in {ExclusivityCollision, ExclusivityViolation, SemanticContradiction}
  }

  function Decide(lex: Lexicon, incoming: Key, existing: Key, userExplicit: bool, inConf: real, exConf: real,
                  threshold: real, score: real, reason: Reason, isExplicit: bool, melted: bool): Action {
    if incoming != existing && (IsMultiValued(lex, incoming) || IsMultiValued(lex, existing)) then Accept
    else
      var canAuto := CanSupersede(lex, incoming, existing, isExplicit);
      var topic := score >= 35.0 || incoming == existing;
      var meltedSupersede := melted && canAuto && inConf >= 0.70 && topic;
      if || isExplicit
         || meltedSupersede
         || (&& userExplicit && inConf >= threshold && exConf <= inConf && canAuto
             && (incoming == existing || (topic && IsRevisable(reason))))
      then Supersede
      else if reason == ConfidenceInversion || score >= 35.0 then Warn
      else Accept
  }

  // ---------------------------------------------------------------- candidates

  datatype Candidate = Candidate(key: Key, score: real, reason: Reason, confidence: Unit, ruleMelted: bool)

  // What the lexical detectors find between an incoming claim and an existing record.
  datatype ClashKind = Collision | Contradiction | Violation

  datatype Clash = Clash(score: real, kind: ClashKind, ruleMelted: bool)

  datatype Config = Config(
    lex: Lexicon,
    marked: Key -> bool,
    critical: string -> bool,
    clash: (Key, string, Key, Rec) -> Option<Clash>,
    threshold: real,
    highScore: real)

  datatype Claim = Claim(key: Key, value: string, confidence: Unit, meta: Meta)

  function SourceOf(m: Meta): string { if m.sourceType == "" then "user_explicit" else m.sourceType }

  predicate IsUserExplicit(cfg: Config, c: Claim) {
    SourceOf(c.meta) == "user_explicit" || (c.confidence >= cfg.threshold && SourceOf(c.meta) != "agent_inference")
  }

  predicate IsRuleKey(k: Key) {
    || StartsWith(k, "rule:") || StartsWith(k, "user_rule:")
    || StartsWith(k, "preference:") || StartsWith(k, "constraint:")
  }

  predicate IsMeltedRule(cfg: Config, k: Key) {
    IsRuleKey(k) && (cfg.critical(FromKey(cfg.lex, k).entityId) || cfg.critical(k))
  }

  predicate IsEpisodic(k: Key) {
    || StartsWith(k, "mnemosyne:mnemosyne_working_memory:")
    || StartsWith(k, "mnemosyne:mnemosyne_episodic_memory:")
    || StartsWith(k, "conversation")
    || StartsWith(k, "fact:conversation")
    || (|k| >= |":episodic_event"| && k[|k| - |":episodic_event"|..] == ":episodic_event")
  }

  function Inversion(k: Key, r: Rec, confidence: Unit, minDrop: real): Option<Candidate> {
    if (r.confidence >= 0.90 || r.meta.sourceType == "user_explicit") && r.confidence - confidence > minDrop then
      Some(Candidate(k, 90.0, ConfidenceInversion, r.confidence, r.meta.ruleMelted))
    else None
  }

  // A clash on the incoming key itself: None means that the cross-key scan decides.
  function SameKey(cfg: Config, k: Key, r: Rec, c: Claim): Option<Option<Candidate>> {
    if cfg.lex.lower(r.value) == cfg.lex.lower(c.value) then
      Some(Inversion(k, r, c.confidence, 0.20))
    else
      var melted := IsMeltedRule(cfg, k);
      if (IsUserExplicit(cfg, c) && c.confidence >= cfg.threshold && r.confidence <= c.confidence)
         || (melted && c.confidence >= 0.70) then
        Some(Some(Candidate(k, 95.0, BeliefRevision, r.confidence, melted || r.meta.ruleMelted)))
      else
        var inv := Inversion(k, r, c.confidence, 0.0);
        if inv.Some? then Some(inv) else None
  }

  function ReasonOf(kind: ClashKind): Reason {
    match kind
    case Collision => ExclusivityCollision
    case Contradiction => SemanticContradiction
    case Violation => ExclusivityViolation
  }

  function CrossKey(cfg: Config, k: Key, r: Rec, c: Claim): Option<Candidate> {
    if IsEpisodic(k) then None
    else if k != c.key && (IsMultiValued(cfg.lex, c.key) || IsMultiValued(cfg.lex, k)) then None
    else
      match cfg.clash(c.key, c.value, k, r)
      case None => None
      case Some(x) => Some(Candidate(k, x.score, ReasonOf(x.kind), r.confidence, x.ruleMelted || r.meta.ruleMelted))
  }

  function Scan(cfg: Config, k: Key, r: Rec, c: Claim): Option<Candidate> {
    if IsRetired(r) then None
    else if c.meta.supersedes == Some(k) then
      Some(Candidate(k, 100.0, BeliefRevision, r.confidence, r.meta.ruleMelted))
    else if k == c.key then
      match SameKey(cfg, k, r, c)
      case Some(handled) => handled
      case None => CrossKey(cfg, k, r, c)
    else CrossKey(cfg, k, r, c)
  }

  predicate IsMarkedClaim(cfg: Config, c: Claim) { cfg.marked(c.key) || c.meta.conflictTest }

  // The candidates in scan order: the marker first, then the first n existing items.
  function Collect(cfg: Config, c: Claim, order: seq<Key>, items: map<Key, Rec>, n: nat): seq<Candidate>
    requires n <= |order| && forall k :: k in order ==> k in items
  {
    if n == 0 then
      if IsMarkedClaim(cfg, c) then [Candidate(c.key, 100.0, ExplicitMarker, c.confidence, false)] else []
    else
      Collect(cfg, c, order, items, n-1) +
      match Scan(cfg, order[n-1], items[order[n-1]], c)
      case None => []
      case Some(x) => [x]
  }

  predicate ScoreAtMost(a: Candidate, b: Candidate) { a.score <= b.score }

  function SortByScore(l: seq<Candidate>): seq<Candidate> { StableSort.Sort(ScoreAtMost, l) }

  method GenerateCandidates(cfg: Config, c: Claim, order: seq<Key>, items: map<Key, Rec>) returns (l: seq<Candidate>)
    requires forall k :: k in order ==> k in items
    ensures l == SortByScore(Collect(cfg, c, order, items, |order|))
  {
    hide Scan, IsMarkedClaim;
    var found: seq<Candidate> := [];
    if IsMarkedClaim(cfg, c) {
      found := [Candidate(c.key, 100.0, ExplicitMarker, c.confidence, false)];
    }
    for i := 0 to |order|
      invariant found == Collect(cfg, c, order, items, i)
    {
      var x := Scan(cfg, order[i], items[order[i]], c);
      if x.Some? { found := found + [x.value]; }
    }
    l := SortByScore(found);
  }

  // --------------------------------------------------------------- arbitration

  datatype Verdict = Verdict(action: Action, isConflict: bool, isRevision: bool, supersededKey: Option<Key>,
                             conflictingKey: Option<Key>, reason: Option<Reason>)

  predicate IsExplicit(c: Claim, best: Candidate) {
    || best.reason == BeliefRevision || c.meta.supersedes == Some(best.key)
    || c.meta.isBeliefRevision || c.meta.action == "supersede"
  }

  function Judge(cfg: Config, c: Claim, sorted: seq<Candidate>): Verdict {
    if sorted == [] then Verdict(Accept, false, false, None, None, None)
    else
      var best := sorted[0];
      var action := Decide(cfg.lex, c.key, best.key, IsUserExplicit(cfg, c), c.confidence, best.confidence,
                           cfg.threshold, best.score, best.reason, IsExplicit(c, best),
                           best.ruleMelted || c.meta.ruleMelted);
      if action == Supersede then Verdict(Supersede, false, true, Some(best.key), Some(best.key), Some(BeliefRevision))
      else if best.reason == ConfidenceInversion then
        Verdict(Warn, true, false, None, Some(best.key), Some(ConfidenceInversion))
      else if best.score >= cfg.highScore || best.reason in {ExplicitMarker, ExclusivityCollision} then
        Verdict(Warn, true, false, None, Some(best.key), Some(best.reason))
      else Verdict(Accept, false, false, None, None, Some(best.reason))
  }

  function Arbitrate(cfg: Config, c: Claim, order: seq<Key>, items: map<Key, Rec>): Verdict
    requires forall k :: k in order ==> k in items
  {
    Judge(cfg, c, SortByScore(Collect(cfg, c, order, items, |order|)))
  }

  // ------------------------------------------------------- the sorted candidates

  // Sorting keeps every candidate, orders them by score, and puts the earliest of the
  // best ones first: it never takes an entry for its place in the dictionary alone.
  lemma SortedCandidates(l: seq<Candidate>)
    ensures multiset(SortByScore(l)) == multiset(l)
    ensures StableSort.Descending(ScoreAtMost, SortByScore(l))
    ensures l != [] ==> SortByScore(l) != [] && StableSort.IsFirstBest(ScoreAtMost, l, SortByScore(l)[0])
  {
    StableSort.SortOk(ScoreAtMost, l);
  }

  // --------------------------------------------------------- entity boundaries

  // The metadata asks for a revision: of this very record, or of whatever is found.
  predicate Asked(m: Meta, k: Key) {
    m.supersedes == Some(k) || m.isBeliefRevision || m.action == "supersede"
  }

  lemma ScanKeepsKey(cfg: Config, k: Key, r: Rec, c: Claim)
    ensures Scan(cfg, k, r, c).Some? ==>
      && Scan(cfg, k, r, c).value.key == k && !IsRetired(r)
      && (k != c.key && Scan(cfg, k, r, c).value.reason == BeliefRevision ==> c.meta.supersedes == Some(k))
      && Scan(cfg, k, r, c).value.confidence == r.confidence
  {
    hide IsEpisodic, IsMultiValued, IsMeltedRule, IsUserExplicit;
  }

  // A candidate under another key stems from a live existing item.
  lemma {:induction false} CollectedFrom(cfg: Config, c: Claim, order: seq<Key>, items: map<Key, Rec>, n: nat,
                                         x: Candidate)
    requires n <= |order| && forall k :: k in order ==> k in items
    requires x in Collect(cfg, c, order, items, n) && x.key != c.key
    ensures x.key in order && !IsRetired(items[x.key])
    ensures x.reason == BeliefRevision ==> c.meta.supersedes == Some(x.key)
  {
    hide Scan;
    if n > 0 {
      ScanKeepsKey(cfg, order[n-1], items[order[n-1]], c);
      if x in Collect(cfg, c, order, items, n-1) {
        CollectedFrom(cfg, c, order, items, n-1, x);
      }
    }
  }

  // The best candidate is one of those collected.
  lemma BestIsCollected(cfg: Config, c: Claim, order: seq<Key>, items: map<Key, Rec>)
    requires forall k :: k in order ==> k in items
    requires SortByScore(Collect(cfg, c, order, items, |order|)) != []
    ensures SortByScore(Collect(cfg, c, order, items, |order|))[0] in Collect(cfg, c, order, items, |order|)
  {
    var l := Collect(cfg, c, order, items, |order|);
    var sorted := SortByScore(l);
    SortedCandidates(l);
    assert sorted[0] in multiset(sorted);
  }

  // A supersession of another key's record never crosses a multi-valued slot, stays within
  // the entity root unless the metadata asked for it, and always names a live record.
  lemma SupersedeRespectsBoundary(cfg: Config, c: Claim, order: seq<Key>, items: map<Key, Rec>)
    requires forall k :: k in order ==> k in items
    ensures var v := Arbitrate(cfg, c, order, items);
      && (v.action == Supersede <==> v.isRevision)
      && (v.action == Supersede ==> v.supersededKey.Some? && !v.isConflict)
      && (v.action == Supersede && v.supersededKey.value != c.key ==>
            var k := v.supersededKey.value;
            && k in order && !IsRetired(items[k])
            && !IsMultiValued(cfg.lex, c.key) && !IsMultiValued(cfg.lex, k)
            && (RootOf(cfg.lex, c.key) == RootOf(cfg.lex, k) || Asked(c.meta, k)))
  {
    hide Collect, SortByScore, IsMultiValued, RootOf, IsUserExplicit;
    var sorted := SortByScore(Collect(cfg, c, order, items, |order|));
    if sorted != [] {
      BestIsCollected(cfg, c, order, items);
      if sorted[0].key != c.key {
        CollectedFrom(cfg, c, order, items, |order|, sorted[0]);
      }
    }
  }

  // The boundary is not inviolable: for a best candidate with another entity root, the
  // arbiter supersedes exactly when both slots are single-valued and the metadata asked for
  // a revision, even if it did not name that record.
  lemma CrossesRootExactlyWhenAsked(cfg: Config, c: Claim, order: seq<Key>, items: map<Key, Rec>)
    requires forall k :: k in order ==> k in items
    requires SortByScore(Collect(cfg, c, order, items, |order|)) != []
    requires RootOf(cfg.lex, c.key) != RootOf(cfg.lex, SortByScore(Collect(cfg, c, order, items, |order|))[0].key)
    ensures var k := SortByScore(Collect(cfg, c, order, items, |order|))[0].key;
      Arbitrate(cfg, c, order, items).action == Supersede
      <==> Asked(c.meta, k) && !IsMultiValued(cfg.lex, c.key) && !IsMultiValued(cfg.lex, k)
  {
    hide Collect, SortByScore, IsMultiValued, RootOf, IsUserExplicit;
    var sorted := SortByScore(Collect(cfg, c, order, items, |order|));
    BestIsCollected(cfg, c, order, items);
    CollectedFrom(cfg, c, order, items, |order|, sorted[0]);
  }

  // ------------------------------------------------- a root that is crossed

  // A lexicon that changes no string and knows no word.
  const PLAIN := Lexicon((s: string) => s, (s: string) => s, {}, {})

  const BLANK := Meta(false, false, None, None, None, false, None, "", "", false, false, false, false, None, 0, map[])

  // The detectors report a clash between any two records, or none.
  function PlainConfig(clash: Option<Clash>): Config {
    Config(PLAIN, (k: Key) => false, (k: string) => false, (k: Key, v: string, e: Key, r: Rec) => clash, 0.95, 35.0)
  }

  lemma PlainWords(k: Key)
    requires |k| == 1
    ensures k !in MULTI_VALUED && "value" !in MULTI_VALUED
  {
    assert forall t :: t in MULTI_VALUED ==> |t| >= 3 && t[0] != 'v';
  }

  lemma PlainCoordinate(k: Key)
    requires ':' !in k
    ensures FromKey(PLAIN, k) == Coordinate("fact", k, "value", false, k) && RootOf(PLAIN, k) == k
  {}

  // A key of one letter is its own root, in a single-valued slot.
  lemma PlainKey(k: Key)
    requires |k| == 1 && k != ":"
    ensures RootOf(PLAIN, k) == k && !IsMultiValued(PLAIN, k)
  {
    PlainCoordinate(k);
    PlainWords(k);
    hide FromKey, RootOf, SplitOn, MULTI_VALUED;
    assert Replace("value", ':', '_') == "value";
    SplitWhole("value", '_');
  }

  lemma OnlyCandidate(cfg: Config, c: Claim, k: Key, r: Rec, x: Candidate)
    requires Scan(cfg, k, r, c) == Some(x) && !IsMarkedClaim(cfg, c)
    ensures SortByScore(Collect(cfg, c, [k], map[k := r], 1)) == [x]
  {
    hide Scan, IsMarkedClaim;
    var items := map[k := r];
    assert Collect(cfg, c, [k], items, 0) == [];
    assert Collect(cfg, c, [k], items, 1) == [x];
    assert [x][..0] == [] && SortByScore([]) == [];
  }

  // A claim on "a" that asks for some revision, without naming a record, supersedes "b".
  lemma UnnamedRootIsCrossed() returns (cfg: Config, c: Claim, order: seq<Key>, items: map<Key, Rec>)
    ensures forall k :: k in order ==> k in items
    ensures SortByScore(Collect(cfg, c, order, items, |order|)) != []
    ensures var k := SortByScore(Collect(cfg, c, order, items, |order|))[0].key;
      && RootOf(cfg.lex, c.key) != RootOf(cfg.lex, k) && c.meta.supersedes == None
      && Arbitrate(cfg, c, order, items).action == Supersede && Arbitrate(cfg, c, order, items).supersededKey == Some(k)
  {
    cfg := PlainConfig(Some(Clash(50.0, Contradiction, false)));
    c := Claim("a", "new", 0.5, BLANK.(isBeliefRevision := true));
    var r := Rec("known", 0.5, BLANK);
    order, items := ["b"], map["b" := r];
    PlainKey("a");
    PlainKey("b");
    hide IsMultiValued, RootOf, SortByScore, Collect;
    assert !IsEpisodic("b");
    OnlyCandidate(cfg, c, "b", r, Candidate("b", 50.0, SemanticContradiction, 0.5, false));
  }

  // A claim that names a live record supersedes it.
  lemma NamedIsSuperseded(cfg: Config, c: Claim, k: Key, r: Rec)
    requires cfg == PlainConfig(None) && |c.key| == |k| == 1 && c.key != ":" && k != ":"
    requires c.meta.supersedes == Some(k) && !c.meta.conflictTest && !IsRetired(r)
    ensures Arbitrate(cfg, c, [k], map[k := r])
         == Verdict(Supersede, false, true, Some(k), Some(k), Some(BeliefRevision))
  {
    PlainKey(c.key);
    PlainKey(k);
    hide IsMultiValued, RootOf, SortByScore, Collect, IsUserExplicit;
    OnlyCandidate(cfg, c, k, r, Candidate(k, 100.0, BeliefRevision, r.confidence, r.meta.ruleMelted));
  }

  // Without a request in the metadata, another record is superseded only for a best score of
  // 35 or more, and then either by a claim at the confidence threshold that is at least as
  // confident as the record, or because a rule has melted.
  lemma UnaskedSupersedeIsEarned(cfg: Config, c: Claim, order: seq<Key>, items: map<Key, Rec>)
    requires forall k :: k in order ==> k in items
    requires Arbitrate(cfg, c, order, items).supersededKey.Some?
    requires Arbitrate(cfg, c, order, items).supersededKey.value != c.key
    requires !Asked(c.meta, Arbitrate(cfg, c, order, items).supersededKey.value)
    ensures var sorted := SortByScore(Collect(cfg, c, order, items, |order|));
      && sorted != [] && sorted[0].score >= 35.0
      && ((c.confidence >= cfg.threshold && sorted[0].confidence <= c.confidence && IsRevisable(sorted[0].reason))
          || ((sorted[0].ruleMelted || c.meta.ruleMelted) && c.confidence >= 0.70))
  {
    hide Collect, SortByScore, IsMultiValued, RootOf, IsUserExplicit;
    BestIsCollected(cfg, c, order, items);
    CollectedFrom(cfg, c, order, items, |order|, SortByScore(Collect(cfg, c, order, items, |order|))[0]);
  }
}
