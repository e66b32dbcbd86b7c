// The background queue of shadow_worker.py: one worker loop and any number of flush calls
// compete for it. A step is what one of them does between two awaits, or a part of that.
module ShadowWorker {
  import opened Wrappers

  const CAPACITY := 1000
  const KEPT := 1000

  type Id = nat

  datatype Phase = Draining | Sleeping

  // A running flush call, and how many turns had been enqueued when it was made.
  datatype Flush = Flush(mark: nat, phase: Phase)

  // The queue, the counter and the buffer of results, with a log beside them: every turn
  // ever enqueued and started, which consumer holds which started turn, and which started
  // turns are over. A turn is named by its place in the log.
  datatype State<T> = State(
    queue: seq<T>,
    inFlight: int,
    completed: seq<nat>,
    enqueued: seq<T>,
    started: seq<T>,
    holding: map<Id, nat>,
    finished: set<nat>,
    results: seq<nat>,
    popped: nat,
    flushes: map<Id, Flush>)

  datatype Step<T> =
    | Enqueue(turn: T)
    | WorkerTake(who: Id)
    | Finish(who: Id, ok: bool)
    | PopCompleted
    | FlushBegin(who: Id)
    | FlushCheck(who: Id, expired: bool)
    | FlushWake(who: Id)

  function Initial<T>(): State<T> { State([], 0, [], [], [], map[], {}, [], 0, map[]) }

  // A full buffer drops its oldest result.
  function Bounded(s: seq<nat>): seq<nat> { if |s| <= KEPT then s else s[|s|-KEPT..] }

  // Taking a turn off the queue and counting it as in flight happen without an await between.
  function Take<T>(s: State<T>, who: Id): State<T>
    requires s.queue != []
  {
    s.(queue := s.queue[1..], inFlight := s.inFlight + 1,
       started := s.started + [s.queue[0]], holding := s.holding[who := |s.started|])
  }

  // Whether a flush call's check lets it return.
  predicate Returns<T>(s: State<T>, who: Id, expired: bool) {
    && who in s.flushes && s.flushes[who].phase == Draining && who !in s.holding
    && s.queue == [] && (expired || s.inFlight <= 0)
  }

  // A turn that fails leaves no result, and ends the flush call that was processing it.
  function End<T>(s: State<T>, who: Id, ok: bool): State<T>
    requires who in s.holding
  {
    var i := s.holding[who];
    var t := s.(inFlight := s.inFlight - 1, holding := s.holding - {who}, finished := s.finished + {i});
    if ok then t.(completed := Bounded(s.completed + [i]), results := s.results + [i])
    else t.(flushes := s.flushes - {who})
  }

  // None where the step is not possible.
  function Apply<T>(s: State<T>, step: Step<T>): Option<State<T>> {
    match step
    case Enqueue(t) =>
      if |s.queue| < CAPACITY then Some(s.(queue := s.queue + [t], enqueued := s.enqueued + [t])) else None
    case WorkerTake(w) =>
      if w !in s.flushes && w !in s.holding && s.queue != [] then Some(Take(s, w)) else None
    case Finish(w, ok) =>
      if w in s.holding then Some(End(s, w, ok)) else None
    case PopCompleted =>
      Some(s.(completed := [], popped := |s.results|))
    case FlushBegin(f) =>
      if f !in s.flushes && f !in s.holding then Some(s.(flushes := s.flushes[f := Flush(|s.enqueued|, Draining)]))
      else None
    case FlushCheck(f, expired) =>
      if f !in s.flushes || s.flushes[f].phase != Draining || f in s.holding then None
      else if s.queue != [] then Some(Take(s, f))
      else if Returns(s, f, expired) then Some(s.(flushes := s.flushes - {f}))
      else Some(s.(flushes := s.flushes[f := s.flushes[f].(phase := Sleeping)]))
    case FlushWake(f) =>
      if f in s.flushes && s.flushes[f].phase == Sleeping
      then Some(s.(flushes := s.flushes[f := s.flushes[f].(phase := Draining)]))
      else None
  }

  function Run<T>(s: State<T>, steps: seq<Step<T>>): Option<State<T>>
    decreases |steps|
  {
    if steps == [] then Some(s)
    else
      match Apply(s, steps[0])
      case None => None
      case Some(t) => Run(t, steps[1..])
  }

  // ------------------------------------------------------------- invariants

  ghost predicate QueueOk<T>(s: State<T>) {
    s.started + s.queue == s.enqueued && |s.queue| <= CAPACITY
  }

  ghost predicate HoldingOk<T>(s: State<T>) {
    && s.inFlight == |s.holding|
    && (forall c :: c in s.holding ==> s.holding[c] < |s.started| && s.holding[c] !in s.finished)
    && (forall c, d :: c in s.holding && d in s.holding && s.holding[c] == s.holding[d] ==> c == d)
  }

  ghost predicate IsHeld<T>(s: State<T>, i: nat) { exists c :: c in s.holding && s.holding[c] == i }

  ghost predicate FinishedOk<T>(s: State<T>) {
    && (forall i :: i in s.finished ==> i < |s.started|)
    && (forall i: nat :: i < |s.started| ==> i in s.finished || IsHeld(s, i))
  }

  ghost predicate ResultsOk<T>(s: State<T>) {
    && s.popped <= |s.results| && s.completed == Bounded(s.results[s.popped..])
    && forall i :: i in s.results ==> i in s.finished
  }

  ghost predicate FlushesOk<T>(s: State<T>) {
    forall f :: f in s.flushes ==> s.flushes[f].mark <= |s.enqueued|
  }

  ghost predicate Inv<T>(s: State<T>) {
    QueueOk(s) && HoldingOk(s) && FinishedOk(s) && ResultsOk(s) && FlushesOk(s)
  }

  lemma TakeHolding<T>(s: State<T>, who: Id)
    requires HoldingOk(s) && FinishedOk(s) && s.queue != [] && who !in s.holding
    ensures HoldingOk(Take(s, who))
  {}

  lemma TakeFinished<T>(s: State<T>, who: Id)
    requires FinishedOk(s) && s.queue != [] && who !in s.holding
    ensures FinishedOk(Take(s, who))
  {
    var t := Take(s, who);
    forall i: nat | i < |t.started| ensures i in t.finished || IsHeld(t, i) {
      if i == |s.started| {
        assert t.holding[who] == i;
      } else if i !in s.finished {
        assert IsHeld(s, i);
        var c :| c in s.holding && s.holding[c] == i;
        assert t.holding[c] == i;
      }
    }
  }

  lemma TakeKeeps<T>(s: State<T>, who: Id)
    requires Inv(s) && s.queue != [] && who !in s.holding
    ensures Inv(Take(s, who))
  {
    hide HoldingOk, FinishedOk, Bounded;
    TakeHolding(s, who);
    TakeFinished(s, who);
    assert Take(s, who).started + Take(s, who).queue == s.started + s.queue;
  }

  lemma RemoveOne(m: map<Id, nat>, who: Id)
    requires who in m
    ensures |m - {who}| == |m| - 1
  {
    assert (m - {who})[who := m[who]] == m;
  }

  lemma EndHolding<T>(s: State<T>, who: Id, ok: bool)
    requires HoldingOk(s) && who in s.holding
    ensures HoldingOk(End(s, who, ok))
  {
    hide Bounded;
    RemoveOne(s.holding, who);
    var t := End(s, who, ok);
    forall c | c in t.holding ensures t.holding[c] < |t.started| && t.holding[c] !in t.finished {
      assert c in s.holding && c != who;
    }
  }

  lemma EndFinished<T>(s: State<T>, who: Id, ok: bool)
    requires HoldingOk(s) && FinishedOk(s) && who in s.holding
    ensures FinishedOk(End(s, who, ok))
  {
    hide Bounded;
    var t := End(s, who, ok);
    forall j: nat | j < |t.started| ensures j in t.finished || IsHeld(t, j) {
      if j !in t.finished {
        assert IsHeld(s, j);
        var c :| c in s.holding && s.holding[c] == j;
        assert c != who && t.holding[c] == j;
      }
    }
  }

  lemma EndKeeps<T>(s: State<T>, who: Id, ok: bool)
    requires Inv(s) && who in s.holding
    ensures Inv(End(s, who, ok))
  {
    hide HoldingOk, FinishedOk, Bounded;
    EndHolding(s, who, ok);
    EndFinished(s, who, ok);
    if ok { BoundedPush(s.results[s.popped..], s.holding[who], s.results, s.popped); }
  }

  lemma BoundedPush(unread: seq<nat>, i: nat, results: seq<nat>, popped: nat)
    requires popped <= |results| && unread == results[popped..]
    ensures Bounded(Bounded(unread) + [i]) == Bounded((results + [i])[popped..])
  {
    assert (results + [i])[popped..] == unread + [i];
  }

  lemma FlushMarks<T>(s: State<T>)
    requires Inv(s)
    ensures FlushesOk(s)
  {}

  lemma InitialInv<T>()
    ensures Inv(Initial<T>())
  {}

  lemma StepKeeps<T>(s: State<T>, step: Step<T>)
    requires Inv(s) && Apply(s, step).Some?
    ensures Inv(Apply(s, step).value)
  {
    hide Inv, Take, End;
    FlushMarks(s);
    match step
    case Enqueue(t) => EnqueueKeeps(s, t);
    case WorkerTake(w) => TakeKeeps(s, w);
    case Finish(w, ok) => EndKeeps(s, w, ok);
    case PopCompleted => PopKeeps(s);
    case FlushBegin(f) => FlushesKeep(s, s.flushes[f := Flush(|s.enqueued|, Draining)]);
    case FlushCheck(f, expired) =>
      if s.queue != [] {
        TakeKeeps(s, f);
      } else if Returns(s, f, expired) {
        FlushesKeep(s, s.flushes - {f});
      } else {
        FlushesKeep(s, s.flushes[f := s.flushes[f].(phase := Sleeping)]);
      }
    case FlushWake(f) => FlushesKeep(s, s.flushes[f := s.flushes[f].(phase := Draining)]);
  }

  lemma EnqueueKeeps<T>(s: State<T>, t: T)
    requires Inv(s) && |s.queue| < CAPACITY
    ensures Inv(s.(queue := s.queue + [t], enqueued := s.enqueued + [t]))
  {
    var u := s.(queue := s.queue + [t], enqueued := s.enqueued + [t]);
    assert u.started + u.queue == s.started + s.queue + [t];
    forall i: nat | i < |u.started| ensures i in u.finished || IsHeld(u, i) {
      assert i in s.finished || IsHeld(s, i);
    }
  }

  lemma PopKeeps<T>(s: State<T>)
    requires Inv(s)
    ensures Inv(s.(completed := [], popped := |s.results|))
  {
    var u := s.(completed := [], popped := |s.results|);
    forall i: nat | i < |u.started| ensures i in u.finished || IsHeld(u, i) {
      assert i in s.finished || IsHeld(s, i);
    }
  }

  lemma FlushesKeep<T>(s: State<T>, flushes: map<Id, Flush>)
    requires Inv(s)
    requires forall f :: f in flushes ==> flushes[f].mark <= |s.enqueued|
    ensures Inv(s.(flushes := flushes))
  {
    var u := s.(flushes := flushes);
    forall i: nat | i < |u.started| ensures i in u.finished || IsHeld(u, i) {
      assert i in s.finished || IsHeld(s, i);
    }
  }

  lemma {:induction false} RunKeeps<T>(s: State<T>, steps: seq<Step<T>>)
    requires Inv(s) && Run(s, steps).Some?
    ensures Inv(Run(s, steps).value)
    decreases |steps|
  {
    hide Inv, Apply;
    if steps != [] {
      StepKeeps(s, steps[0]);
      RunKeeps(Apply(s, steps[0]).value, steps[1..]);
    }
  }

  // ----------------------------------------------------------- what runs keep

  ghost predicate Reachable<T(!new)>(s: State<T>) {
    exists steps: seq<Step<T>> :: Run(Initial<T>(), steps) == Some(s)
  }

  lemma ReachableInv<T(!new)>(s: State<T>)
    requires Reachable(s)
    ensures Inv(s)
  {
    var steps: seq<Step<T>> :| Run(Initial<T>(), steps) == Some(s);
    RunKeeps(Initial<T>(), steps);
  }

  // Turns start in the order in which they were enqueued, and those not started are the queue.
  lemma StartsInOrder<T(!new)>(s: State<T>)
    requires Reachable(s)
    ensures s.started <= s.enqueued && s.queue == s.enqueued[|s.started|..]
  {
    ReachableInv(s);
  }

  // Every turn is in exactly one place, held by one consumer at most, and the counter counts
  // the consumers that hold one.
  lemma ExactlyOnePlace<T(!new)>(s: State<T>, i: nat)
    requires Reachable(s) && i < |s.enqueued|
    ensures s.inFlight == |s.holding|
    ensures i >= |s.started| ==> i !in s.finished && !IsHeld(s, i)
    ensures i < |s.started| ==> (i in s.finished <==> !IsHeld(s, i))
    ensures forall c, d :: c in s.holding && d in s.holding && s.holding[c] == i == s.holding[d] ==> c == d
  {
    ReachableInv(s);
  }

  // The buffer holds the newest results: all those since the last pop, up to a thousand.
  lemma NothingUnreadIsLost<T(!new)>(s: State<T>)
    requires Reachable(s)
    ensures s.popped <= |s.results| && |s.completed| <= |s.results|
    ensures s.completed == s.results[|s.results|-|s.completed|..]
    ensures |s.completed| == if |s.results| - s.popped <= 1000 then |s.results| - s.popped else 1000
    ensures forall i :: i in s.completed ==> i in s.finished
  {
    ReachableInv(s);
  }

  lemma {:induction false} RunConcat<T>(s: State<T>, a: seq<Step<T>>, b: seq<Step<T>>)
    ensures Run(s, a + b) == match Run(s, a) case None => None case Some(t) => Run(t, b)
    decreases |a|
  {
    hide Apply;
    if a == [] {
      assert a + b == b;
    } else {
      assert (a + b)[1..] == a[1..] + b;
      if Apply(s, a[0]).Some? { RunConcat(Apply(s, a[0]).value, a[1..], b); }
    }
  }

  // A call keeps its mark until it ends.
  lemma {:induction false} MarkStays<T>(s: State<T>, f: Id, steps: seq<Step<T>>)
    requires Run(s, steps).Some? && FlushBegin(f) !in steps && f in Run(s, steps).value.flushes
    ensures f in s.flushes && s.flushes[f].mark == Run(s, steps).value.flushes[f].mark
    decreases |steps|
  {
    if steps != [] {
      assert steps[0] != FlushBegin(f);
      MarkStays(Apply(s, steps[0]).value, f, steps[1..]);
    }
  }

  // A flush call that is about to return, in a run that began before the call.
  ghost predicate FlushReturns<T>(before: seq<Step<T>>, f: Id, during: seq<Step<T>>, expired: bool, atCall: State<T>,
                                  s: State<T>)
  {
    && Run(Initial<T>(), before) == Some(atCall)
    && FlushBegin(f) !in during
    && Run(atCall, [FlushBegin(f)] + during) == Some(s)
    && Returns(s, f, expired)
  }

  lemma AtReturn<T>(before: seq<Step<T>>, f: Id, during: seq<Step<T>>, expired: bool, atCall: State<T>, s: State<T>)
    requires FlushReturns(before, f, during, expired, atCall, s)
    ensures Inv(s) && |atCall.enqueued| <= |s.enqueued|
  {
    hide Inv;
    InitialInv<T>();
    var begin: seq<Step<T>> := [FlushBegin(f)];
    RunKeeps(Initial<T>(), before);
    RunKeeps(atCall, begin + during);
    RunConcat(atCall, begin, during);
    var after := Apply(atCall, FlushBegin(f));
    assert begin[1..] == [];
    assert Run(atCall, begin) == after;
    MarkStays(after.value, f, during);
    FlushMarks(s);
  }

  // However the interleaving went, a flush call returns only after every turn enqueued before
  // it has been started; and if nothing is in flight at that moment, they are all finished.
  lemma FlushDrains<T>(before: seq<Step<T>>, f: Id, during: seq<Step<T>>, expired: bool, atCall: State<T>, s: State<T>)
    requires FlushReturns(before, f, during, expired, atCall, s)
    ensures |atCall.enqueued| <= |s.started|
    ensures s.inFlight == 0 ==> forall i: nat :: i < |atCall.enqueued| ==> i in s.finished
  {
    AtReturn(before, f, during, expired, atCall, s);
    forall i: nat | s.inFlight == 0 && i < |atCall.enqueued| ensures i in s.finished {
      assert s.holding == map[];
      assert !IsHeld(s, i);
    }
  }

  // On a return at the deadline, an earlier turn is unfinished exactly if another consumer
  // holds it.
  lemma UnfinishedExactlyInFlight<T>(before: seq<Step<T>>, f: Id, during: seq<Step<T>>, expired: bool,
                                     atCall: State<T>, s: State<T>, i: nat)
    requires FlushReturns(before, f, during, expired, atCall, s) && i < |atCall.enqueued|
    ensures i !in s.finished <==> exists c :: c != f && c in s.holding && s.holding[c] == i
  {
    AtReturn(before, f, during, expired, atCall, s);
    if i !in s.finished {
      assert IsHeld(s, i);
    }
  }

  // ---------------------------------------------------------------- the object

  class Worker<T> {
    var turnQueue: seq<T>
    var inFlight: int
    var completedTurns: seq<nat>
    ghost var log: State<T>

    ghost predicate Valid()
      reads this
    {
      log.queue == turnQueue && log.inFlight == inFlight && log.completed == completedTurns
    }

    constructor ()
      ensures Valid() && log == Initial<T>()
    {
      turnQueue, inFlight, completedTurns, log := [], 0, [], Initial<T>();
    }

    // False while the queue is full: the caller waits.
    method EnqueueTurn(turn: T) returns (done: bool)
      requires Valid()
      modifies this
      ensures Valid() && log == Apply(old(log), Enqueue(turn)).GetOr(old(log))
      ensures done == Apply(old(log), Enqueue(turn)).Some?
    {
      done := |turnQueue| < CAPACITY;
      if done {
        turnQueue := turnQueue + [turn];
        log := Apply(log, Enqueue(turn)).value;
      }
    }

    // The worker loop or a flush call up to the await that processes the turn.
    method TakeTurn(who: Id) returns (turn: T)
      requires Valid() && turnQueue != [] && who !in log.holding
      modifies this
      ensures Valid() && log == Take(old(log), who) && turn == old(turnQueue)[0]
    {
      turn := turnQueue[0];
      turnQueue := turnQueue[1..];
      inFlight := inFlight + 1;
      log := Take(log, who);
    }

    // What follows that await: the counter first, then the record if the turn succeeded.
    method FinishTurn(who: Id, ok: bool, record: nat)
      requires Valid() && who in log.holding && record == log.holding[who]
      modifies this
      ensures Valid() && Some(log) == Apply(old(log), Finish(who, ok))
    {
      inFlight := inFlight - 1;
      if ok {
        completedTurns := completedTurns + [record];
        if |completedTurns| > KEPT {
          completedTurns := completedTurns[|completedTurns|-KEPT..];
        }
      }
      log := End(log, who, ok);
    }

    method PopCompletedTurns() returns (popped: seq<nat>)
      requires Valid()
      modifies this
      ensures Valid() && Some(log) == Apply(old(log), PopCompleted) && popped == old(completedTurns)
    {
      popped := completedTurns;
      completedTurns := [];
      log := Apply(log, PopCompleted).value;
    }

    // A flush call between two awaits: it takes a turn, returns, or goes to sleep.
    method CheckFlush(f: Id, expired: bool) returns (taken: Option<T>, returned: bool)
      requires Valid() && f in log.flushes && log.flushes[f].phase == Draining && f !in log.holding
      modifies this
      ensures Valid() && Some(log) == Apply(old(log), FlushCheck(f, expired))
      ensures taken == if old(turnQueue) == [] then None else Some(old(turnQueue)[0])
      ensures returned == Returns(old(log), f, expired)
    {
      taken, returned := None, false;
      ghost var was := log;
      if turnQueue != [] {
        var turn := TakeTurn(f);
        taken := Some(turn);
      } else if !(!expired && (turnQueue != [] || inFlight > 0)) {
        returned := true;
        log := Apply(log, FlushCheck(f, expired)).value;
      } else {
        log := Apply(log, FlushCheck(f, expired)).value;
      }
    }
  }
}
