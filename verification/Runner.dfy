/** The compose runner (internal/runner/compose.go): a mutex per project, then one slot of a semaphore of 15.

    A caller goes through the phases of runCompose; each step is one atomic action of one caller. The deferred
    calls run in reverse order, so the slot is given back before the mutex. Callers come without bound. */
module Runner {
  const MAX_CONCURRENT: nat := 15

  datatype Phase =
    | WaitingForMutex
    | WaitingForSlot   // holds the mutex
    | Running          // holds the mutex and a slot
    | Unlocking        // slot given back, or never obtained; holds the mutex
    | Returned(ok: bool)

  // `failing` remembers that the call is on its way to return an error.
  datatype Caller = Caller(project: string, phase: Phase, failing: bool)

  // `owner`: project to the caller that holds its mutex. `inUse`: the semaphore's counter.
  datatype State = State(callers: seq<Caller>, owner: map<string, nat>, inUse: nat)

  const INIT := State([], map[], 0)

  datatype Step =
    | Call(project: string)        // a new caller enters runCompose
    | Lock(c: nat)                 // mu.Lock returns
    | Acquire(c: nat)              // globalSem.Acquire succeeds
    | Cancel(c: nat)               // globalSem.Acquire returns the context's error
    | Finish(c: nat, ok: bool)     // docker compose exits, the slot is released
    | Unlock(c: nat)               // the mutex is released and the call returns

  predicate InPhase(s: State, c: nat, phase: Phase) {
    c < |s.callers| && s.callers[c].phase == phase
  }

  predicate Enabled(s: State, step: Step) {
    match step
    case Call(_) => true
    case Lock(c) => InPhase(s, c, WaitingForMutex) && s.callers[c].project !in s.owner
    case Acquire(c) => InPhase(s, c, WaitingForSlot) && s.inUse < MAX_CONCURRENT
    case Cancel(c) => InPhase(s, c, WaitingForSlot)
    case Finish(c, _) => InPhase(s, c, Running) && s.inUse > 0
    case Unlock(c) => InPhase(s, c, Unlocking) && s.callers[c].project in s.owner
  }

  function Move(s: State, c: nat, phase: Phase): seq<Caller>
    requires c < |s.callers|
  {
    s.callers[c := s.callers[c].(phase := phase)]
  }

  function Next(s: State, step: Step): State
    requires Enabled(s, step)
  {
    match step
    case Call(p) => s.(callers := s.callers + [Caller(p, WaitingForMutex, false)])
    case Lock(c) => s.(callers := Move(s, c, WaitingForSlot), owner := s.owner[s.callers[c].project := c])
    case Acquire(c) => s.(callers := Move(s, c, Running), inUse := s.inUse + 1)
    case Cancel(c) => s.(callers := s.callers[c := s.callers[c].(phase := Unlocking, failing := true)])
    case Finish(c, ok) =>
      s.(callers := s.callers[c := s.callers[c].(phase := Unlocking, failing := !ok)], inUse := s.inUse - 1)
    case Unlock(c) =>
      s.(callers := Move(s, c, Returned(!s.callers[c].failing)), owner := s.owner - {s.callers[c].project})
  }

  predicate Runs(s: State, steps: seq<Step>)
    decreases |steps|
  {
    steps == [] || (Enabled(s, steps[0]) && Runs(Next(s, steps[0]), steps[1..]))
  }

  function After(s: State, steps: seq<Step>): State
    requires Runs(s, steps)
    decreases |steps|
  {
    if steps == [] then s else After(Next(s, steps[0]), steps[1..])
  }

  // ---- Invariant ----

  predicate HoldsMutex(c: Caller) {
    c.phase.WaitingForSlot? || c.phase.Running? || c.phase.Unlocking?
  }

  function CountRunning(callers: seq<Caller>): nat {
    if callers == [] then 0 else (if callers[0].phase.Running? then 1 else 0) + CountRunning(callers[1..])
  }

  // The owner table is exactly the callers between Lock and Unlock.
  predicate OwnersMatch(callers: seq<Caller>, owner: map<string, nat>) {
    && (forall c :: 0 <= c < |callers| && HoldsMutex(callers[c]) ==>
      callers[c].project in owner && owner[callers[c].project] == c)
    && (forall p :: p in owner ==>
      owner[p] < |callers| && callers[owner[p]].project == p && HoldsMutex(callers[owner[p]]))
  }

  // And the semaphore counts the running ones.
  predicate Inv(s: State) {
    OwnersMatch(s.callers, s.owner) && s.inUse == CountRunning(s.callers) <= MAX_CONCURRENT
  }

  lemma {:induction false} CountUpdate(callers: seq<Caller>, c: nat, with: Caller)
    requires c < |callers|
    ensures CountRunning(callers[c := with]) ==
            CountRunning(callers) - (if callers[c].phase.Running? then 1 else 0) +
              (if with.phase.Running? then 1 else 0)
  {
    if c > 0 {
      CountUpdate(callers[1..], c - 1, with);
      assert callers[c := with][1..] == callers[1..][c - 1 := with];
    }
  }

  lemma {:induction false} CountAppend(callers: seq<Caller>, c: Caller)
    ensures CountRunning(callers + [c]) == CountRunning(callers) + (if c.phase.Running? then 1 else 0)
  {
    if callers == [] {
      assert callers + [c] == [c] && [c][1..] == [];
    } else {
      CountAppend(callers[1..], c);
      assert (callers + [c])[1..] == callers[1..] + [c];
    }
  }

  lemma StepKeepsOwners(s: State, step: Step)
    requires Enabled(s, step) && OwnersMatch(s.callers, s.owner)
    ensures var s' := Next(s, step); OwnersMatch(s'.callers, s'.owner)
  {
  }

  lemma StepKeepsCount(s: State, step: Step)
    requires Enabled(s, step) && s.inUse == CountRunning(s.callers) <= MAX_CONCURRENT
    ensures var s' := Next(s, step); s'.inUse == CountRunning(s'.callers) <= MAX_CONCURRENT
  {
    var s' := Next(s, step);
    if step.Call? {
      CountAppend(s.callers, s'.callers[|s.callers|]);
    } else {
      CountUpdate(s.callers, step.c, s'.callers[step.c]);
    }
  }

  lemma StepKeepsInv(s: State, step: Step)
    requires Enabled(s, step) && Inv(s)
    ensures Inv(Next(s, step))
  {
    StepKeepsOwners(s, step);
    StepKeepsCount(s, step);
  }

  lemma {:induction false} RunKeepsInv(s: State, steps: seq<Step>)
    requires Runs(s, steps) && Inv(s)
    ensures Inv(After(s, steps))
    decreases |steps|
  {
    if steps != [] {
      StepKeepsInv(s, steps[0]);
      RunKeepsInv(Next(s, steps[0]), steps[1..]);
    }
  }

  // Safety in every run: no two callers of one project are past the mutex together, the semaphore's counter is
  // the number of running calls, and that is at most 15.
  lemma RunsAreSafe(steps: seq<Step>)
    requires Runs(INIT, steps)
    ensures var s := After(INIT, steps);
            && (forall c, d :: 0 <= c < d < |s.callers| && HoldsMutex(s.callers[c]) && HoldsMutex(s.callers[d]) ==>
                  s.callers[c].project != s.callers[d].project)
            && s.inUse == CountRunning(s.callers) <= 15
            && (forall p :: p in s.owner <==>
              exists c :: 0 <= c < |s.callers| && s.callers[c].project == p && HoldsMutex(s.callers[c]))
  {
    RunKeepsInv(INIT, steps);
    var s := After(INIT, steps);
    forall p | p in s.owner
      ensures exists c :: 0 <= c < |s.callers| && s.callers[c].project == p && HoldsMutex(s.callers[c]) {
      assert HoldsMutex(s.callers[s.owner[p]]);
    }
  }

  // In every run a caller that waits for a slot gets one exactly while fewer than 15 calls run.
  lemma SlotIsFreeIff(steps: seq<Step>, c: nat)
    requires Runs(INIT, steps) && InPhase(After(INIT, steps), c, WaitingForSlot)
    ensures Enabled(After(INIT, steps), Acquire(c)) <==> CountRunning(After(INIT, steps).callers) < 15
  {
    RunKeepsInv(INIT, steps);
  }

  // ---- Progress ----

  predicate Finished(s: State) {
    forall c :: 0 <= c < |s.callers| ==> s.callers[c].phase.Returned?
  }

  lemma {:induction false} SomeoneRuns(callers: seq<Caller>) returns (c: nat)
    requires CountRunning(callers) > 0
    ensures c < |callers| && callers[c].phase.Running?
  {
    if callers[0].phase.Running? {
      c := 0;
    } else {
      c := SomeoneRuns(callers[1..]);
      c := c + 1;
    }
  }

  lemma {:induction false} RunningCounts(callers: seq<Caller>, c: nat)
    requires c < |callers| && callers[c].phase.Running?
    ensures CountRunning(callers) > 0
  {
    if c > 0 {
      RunningCounts(callers[1..], c - 1);
    }
  }

  // A caller past the mutex can always be helped on: by its own step, or by a finishing call if all slots are taken.
  lemma HolderProgresses(s: State, c: nat) returns (step: Step)
    requires Inv(s) && c < |s.callers| && HoldsMutex(s.callers[c])
    ensures !step.Call? && !step.Cancel? && Enabled(s, step)
  {
    match s.callers[c].phase {
      case WaitingForSlot =>
        if s.inUse < MAX_CONCURRENT {
          step := Acquire(c);
        } else {
          var d := SomeoneRuns(s.callers);
          step := Finish(d, true);
        }
      case Running =>
        RunningCounts(s.callers, c);
        step := Finish(c, true);
      case Unlocking =>
        step := Unlock(c);
    }
  }

  lemma UnfinishedProgresses(s: State) returns (step: Step)
    requires Inv(s) && !Finished(s)
    ensures !step.Call? && !step.Cancel? && Enabled(s, step)
  {
    var c :| 0 <= c < |s.callers| && !s.callers[c].phase.Returned?;
    if HoldsMutex(s.callers[c]) {
      step := HolderProgresses(s, c);
    } else if s.callers[c].project in s.owner {
      step := HolderProgresses(s, s.owner[s.callers[c].project]);
    } else {
      step := Lock(c);
    }
  }

  // No deadlock: while a call is unfinished some step is enabled, without new callers and without cancellations.
  lemma NoDeadlock(steps: seq<Step>) returns (step: Step)
    requires Runs(INIT, steps) && !Finished(After(INIT, steps))
    ensures !step.Call? && !step.Cancel? && Enabled(After(INIT, steps), step)
  {
    RunKeepsInv(INIT, steps);
    step := UnfinishedProgresses(After(INIT, steps));
  }

  // ---- Termination ----

  // The steps a call still has to take.
  function Rank(c: Caller): nat {
    match c.phase
    case WaitingForMutex => 4
    case WaitingForSlot => 3
    case Running => 2
    case Unlocking => 1
    case Returned(_) => 0
  }

  function Measure(callers: seq<Caller>): nat {
    if callers == [] then 0 else Rank(callers[0]) + Measure(callers[1..])
  }

  lemma {:induction false} MeasureUpdate(callers: seq<Caller>, c: nat, with: Caller)
    requires c < |callers|
    ensures Measure(callers[c := with]) == Measure(callers) - Rank(callers[c]) + Rank(with)
  {
    if c > 0 {
      MeasureUpdate(callers[1..], c - 1, with);
      assert callers[c := with][1..] == callers[1..][c - 1 := with];
    }
  }

  predicate NoNewCalls(steps: seq<Step>) {
    forall i :: 0 <= i < |steps| ==> !steps[i].Call?
  }

  // Every step of a caller uses up some of the work left, whatever the schedule and whoever is cancelled.
  lemma {:induction false} WorkRunsOut(s: State, steps: seq<Step>)
    requires Runs(s, steps) && NoNewCalls(steps)
    ensures |steps| + Measure(After(s, steps).callers) <= Measure(s.callers)
    decreases |steps|
  {
    if steps != [] {
      var s' := Next(s, steps[0]);
      MeasureUpdate(s.callers, steps[0].c, s'.callers[steps[0].c]);
      WorkRunsOut(s', steps[1..]);
    }
  }

  ghost predicate Stuck(s: State) {
    forall step: Step :: !step.Call? ==> !Enabled(s, step)
  }

  lemma {:induction false} FinishedRunsNone(callers: seq<Caller>)
    requires forall c :: 0 <= c < |callers| ==> callers[c].phase.Returned?
    ensures CountRunning(callers) == 0
  {
    if callers != [] {
      FinishedRunsNone(callers[1..]);
    }
  }

  lemma StuckIsClean(s: State)
    requires Inv(s) && Stuck(s)
    ensures Finished(s) && s.owner == map[] && s.inUse == 0
  {
    if !Finished(s) {
      var step := UnfinishedProgresses(s);
      assert false;
    }
    FinishedRunsNone(s.callers);
    assert s.owner.Keys == {};
  }

  // Every finite set of calls ends: once no new call arrives, a run has at most Measure steps left, and it can
  // only get stuck with every call returned, every mutex free and every slot given back.
  lemma EverySetOfCallsEnds(steps: seq<Step>, more: seq<Step>)
    requires Runs(INIT, steps) && Runs(After(INIT, steps), more) && NoNewCalls(more)
    ensures |more| <= Measure(After(INIT, steps).callers)
    ensures var end := After(After(INIT, steps), more);
            Stuck(end) ==> Finished(end) && end.owner == map[] && end.inUse == 0
  {
    WorkRunsOut(After(INIT, steps), more);
    RunKeepsInv(INIT, steps);
    RunKeepsInv(After(INIT, steps), more);
    var end := After(After(INIT, steps), more);
    if Stuck(end) {
      StuckIsClean(end);
    }
  }

  // The steps of a call that nobody interrupts, in order.
  lemma UninterruptedCall(s: State, project: string, cancelled: bool, exitOk: bool)
    returns (s1: State, s2: State, s3: State, s4: State)
    requires project !in s.owner && (!cancelled ==> s.inUse < MAX_CONCURRENT)
    ensures var c, got := |s.callers|, if cancelled then Cancel(|s.callers|) else Acquire(|s.callers|);
            && Enabled(s, Call(project)) && s1 == Next(s, Call(project))
            && Enabled(s1, Lock(c)) && s2 == Next(s1, Lock(c))
            && Enabled(s2, got) && s3 == Next(s2, got)
            && (if cancelled then s4 == s3 else Enabled(s3, Finish(c, exitOk)) && s4 == Next(s3, Finish(c, exitOk)))
            && Enabled(s4, Unlock(c))
            && s4 == State(s.callers + [Caller(project, Unlocking, cancelled || !exitOk)], s.owner[project := c],
              s.inUse)
            && s4.owner - {project} == s.owner
  {
    var c := |s.callers|;
    s1 := Next(s, Call(project));
    s2 := Next(s1, Lock(c));
    assert s2 == State(s.callers + [Caller(project, WaitingForSlot, false)], s.owner[project := c], s.inUse);
    if cancelled {
      s3 := Next(s2, Cancel(c));
      s4 := s3;
    } else {
      s3 := Next(s2, Acquire(c));
      assert s3 == State(s.callers + [Caller(project, Running, false)], s.owner[project := c], s.inUse + 1);
      s4 := Next(s3, Finish(c, exitOk));
    }
  }

  // ---- The runner as the source writes it ----

  class ComposeRunner {
    var owner: map<string, nat>
    var inUse: nat
    var callers: seq<Caller>

    constructor ()
      ensures Abstract() == INIT
    {
      owner, inUse, callers := map[], 0, [];
    }

    ghost function Abstract(): State
      reads this
    {
      State(callers, owner, inUse)
    }

    ghost predicate Valid()
      reads this
    {
      Inv(Abstract())
    }

    method Enter(project: string) returns (c: nat)
      requires Valid()
      modifies this
      ensures Valid() && Abstract() == Next(old(Abstract()), Call(project)) && c == old(|callers|)
    {
      ghost var s := Abstract();
      c := |callers|;
      callers := callers + [Caller(project, WaitingForMutex, false)];
      StepKeepsInv(s, Call(project));
    }

    // mu.Lock returns.
    method LockMutex(c: nat)
      requires Valid() && Enabled(Abstract(), Lock(c))
      modifies this
      ensures Valid() && Abstract() == Next(old(Abstract()), Lock(c))
    {
      ghost var s := Abstract();
      owner := owner[callers[c].project := c];
      callers := callers[c := callers[c].(phase := WaitingForSlot)];
      StepKeepsInv(s, Lock(c));
    }

    // globalSem.Acquire returns; `cancelled` is the context's answer.
    method AcquireSlot(c: nat, cancelled: bool)
      requires Valid() && Enabled(Abstract(), if cancelled then Cancel(c) else Acquire(c))
      modifies this
      ensures Valid() && Abstract() == Next(old(Abstract()), if cancelled then Cancel(c) else Acquire(c))
    {
      ghost var s := Abstract();
      if cancelled {
        callers := callers[c := callers[c].(phase := Unlocking, failing := true)];
      } else {
        inUse := inUse + 1;
        callers := callers[c := callers[c].(phase := Running)];
      }
      StepKeepsInv(s, if cancelled then Cancel(c) else Acquire(c));
    }

    // The command exits; deferred globalSem.Release.
    method ReleaseSlot(c: nat, exitOk: bool)
      requires Valid() && Enabled(Abstract(), Finish(c, exitOk))
      modifies this
      ensures Valid() && Abstract() == Next(old(Abstract()), Finish(c, exitOk))
    {
      ghost var s := Abstract();
      inUse := inUse - 1;
      callers := callers[c := callers[c].(phase := Unlocking, failing := !exitOk)];
      StepKeepsInv(s, Finish(c, exitOk));
    }

    // Deferred mu.Unlock.
    method UnlockMutex(c: nat) returns (ok: bool)
      requires Valid() && Enabled(Abstract(), Unlock(c))
      modifies this
      ensures Valid() && Abstract() == Next(old(Abstract()), Unlock(c)) && ok == !old(callers[c].failing)
    {
      ghost var s := Abstract();
      ok := !callers[c].failing;
      owner := owner - {callers[c].project};
      callers := callers[c := callers[c].(phase := Returned(ok))];
      StepKeepsInv(s, Unlock(c));
    }

    // runCompose of a caller that finds its project free: it succeeds exactly when it got a slot and the command
    // exited well, and on every path both the mutex and the slot are given back.
    method RunCompose(project: string, cancelled: bool, exitOk: bool) returns (ok: bool)
      requires Valid() && project !in owner && (!cancelled ==> inUse < MAX_CONCURRENT)
      modifies this
      ensures Valid() && owner == old(owner) && inUse == old(inUse)
      ensures ok == (!cancelled && exitOk)
      ensures callers == old(callers) + [Caller(project, Returned(ok), !ok)]
    {
      ghost var s1, s2, s3, s4 := UninterruptedCall(Abstract(), project, cancelled, exitOk);
      var c := Enter(project);
      LockMutex(c);
      AcquireSlot(c, cancelled);
      if !cancelled {
        ReleaseSlot(c, exitOk);
      }
      assert Abstract() == s4;
      ok := UnlockMutex(c);
    }
  }
}
