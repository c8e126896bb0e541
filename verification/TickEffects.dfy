/** What a tick does to each project, spelled out: a relation written against internal/recon/reconciler.go without
    the functions that module Reconciling computes with, and the theorem that every tick satisfies it. */
module TickEffects {
  import opened Projects
  import opened Reconciling

  // What one row did to its project: the view before and after, the compose calls and the attempts logged.
  datatype Effect = Effect(before: View, after: View, calls: seq<Call>, attempts: seq<Attempt>)

  predicate Waits(x: Effect, o: Outcome) {
    x.before.state.nextRetry.Some? && o.checkAt < x.before.state.nextRetry.value
  }

  predicate Nothing(x: Effect) {
    x.after == x.before && x.calls == [] && x.attempts == []
  }

  // No compose call, and Docker and the hash table are as they were.
  predicate NoCall(x: Effect) {
    x.calls == [] && x.after.containers == x.before.containers && x.after.recorded == x.before.recorded
  }

  predicate OneCall(x: Effect, e: Env, row: DesiredRow, command: Command) {
    x.calls == [Call(row.projectId, ComposeFile(e.dataDir, row), command)]
  }

  // The compose command goes through: the file is there and the command succeeds.
  predicate GoesThrough(e: Env, row: DesiredRow, o: Outcome) {
    o.composeOk && ComposeFile(e.dataDir, row) in e.disk
  }

  // One attempt in the log. Success resets the counters; the first failure in a row costs 30 seconds, the second 60,
  // the third 300 and every further one 1800.
  predicate Logged(x: Effect, row: DesiredRow, o: Outcome, ok: bool) {
    && x.attempts == [Attempt(row.projectId, o.checkAt, o.doneAt, ok)]
    && if ok then x.after.state == ProjectState(0, None)
       else
         var n := x.before.state.failureCount + 1;
         var wait := if n == 1 then 30 else if n == 2 then 60 else if n == 3 then 300 else 1800;
         x.after.state == ProjectState(n, Some(o.doneAt + wait))
  }

  // Docker answers, the containers are there and run, and the recorded hash is the desired one where one is desired.
  predicate SeesNoDrift(x: Effect, e: Env, row: DesiredRow, o: Outcome) {
    && e.hasDocker && o.listOk
    && x.before.containers != []
    && (forall i :: 0 <= i < |x.before.containers| ==> x.before.containers[i].running)
    && (row.configHash != "" ==> o.readOk && x.before.recorded == Some(row.configHash))
  }

  // `up` has gone through: a nonempty set of running containers with the configuration on disk, and the hash of the
  // row on record unless it is empty or its write fails.
  predicate Started(x: Effect, e: Env, row: DesiredRow, o: Outcome)
    requires GoesThrough(e, row, o)
  {
    && x.after.containers != []
    && (forall i :: 0 <= i < |x.after.containers| ==>
         x.after.containers[i] == Container(e.disk[ComposeFile(e.dataDir, row)], true))
    && x.after.recorded == if row.configHash != "" && o.writeOk then Some(row.configHash) else x.before.recorded
  }

  predicate Running(x: Effect, e: Env, row: DesiredRow, o: Outcome) {
    if SeesNoDrift(x, e, row, o) then NoCall(x) && Logged(x, row, o, true)
    else
      && OneCall(x, e, row, Up)
      && Logged(x, row, o, GoesThrough(e, row, o))
      && if GoesThrough(e, row, o) then Started(x, e, row, o)
         else x.after.containers == o.left && x.after.recorded == x.before.recorded
  }

  // `down` is called, removes the containers if it goes through, and never touches the hash.
  predicate BroughtDown(x: Effect, e: Env, row: DesiredRow, o: Outcome) {
    && OneCall(x, e, row, Down)
    && Logged(x, row, o, GoesThrough(e, row, o))
    && x.after.containers == (if GoesThrough(e, row, o) then [] else o.left)
    && x.after.recorded == x.before.recorded
  }

  predicate Prescribed(x: Effect, e: Env, row: DesiredRow, o: Outcome) {
    if Waits(x, o) then Nothing(x)
    else if row.state == "running" then Running(x, e, row, o)
    else if row.state == "stopped" then
      if e.hasDocker && o.listOk && x.before.containers == [] then NoCall(x) && Logged(x, row, o, true)
      else BroughtDown(x, e, row, o)
    else if row.state == "removed" then BroughtDown(x, e, row, o)
    else NoCall(x) && Logged(x, row, o, false)
  }

  function RowEffect(e: Env, v: View, row: DesiredRow, o: Outcome): Effect {
    Effect(v, RowView(e, v, row, o), RowCalls(e, v, row, o), RowAttempts(e, v, row, o))
  }

  lemma RunningRow(e: Env, v: View, row: DesiredRow, o: Outcome)
    requires row.state == "running" && !InBackoff(v.state, o.checkAt)
    ensures Prescribed(RowEffect(e, v, row, o), e, row, o)
  {
    var x := RowEffect(e, v, row, o);
    assert NeedsUp(e, v, row, o) <==> !SeesNoDrift(x, e, row, o);
  }

  lemma OtherRow(e: Env, v: View, row: DesiredRow, o: Outcome)
    requires row.state != "running" || InBackoff(v.state, o.checkAt)
    ensures Prescribed(RowEffect(e, v, row, o), e, row, o)
  {
  }

  lemma RowIsPrescribed(e: Env, v: View, row: DesiredRow, o: Outcome)
    ensures Prescribed(RowEffect(e, v, row, o), e, row, o)
  {
    if row.state == "running" && !InBackoff(v.state, o.checkAt) {
      RunningRow(e, v, row, o);
    } else {
      OtherRow(e, v, row, o);
    }
  }

  // In a tick over any rows, whatever the others do or suffer, each row has exactly the effect prescribed for it.
  lemma TickIsPrescribed(
    e: Env, r: Recon, rows: seq<DesiredRow>, outcome: string -> Outcome, i: nat) returns (x: Effect)
    requires DistinctRows(rows) && i < |rows|
    ensures var r', p := TickRows(e, r, rows, outcome), rows[i].projectId;
            && Prescribed(x, e, rows[i], outcome(p))
            && x.before == ViewOf(r, p) && x.after == ViewOf(r', p)
            && CallsOf(r'.calls, p) == CallsOf(r.calls, p) + x.calls
            && AttemptsOf(r'.attempts, p) == AttemptsOf(r.attempts, p) + x.attempts
  {
    var p := rows[i].projectId;
    TickIsLocal(e, r, rows, outcome, i);
    RowIsPrescribed(e, ViewOf(r, p), rows[i], outcome(p));
    x := RowEffect(e, ViewOf(r, p), rows[i], outcome(p));
  }

  // From `r` to `r'` the project of `row` has moved as prescribed.
  ghost predicate Done(e: Env, r: Recon, r': Recon, row: DesiredRow, o: Outcome) {
    exists x: Effect :: Prescribed(x, e, row, o) && IsEffect(x, r, r', row.projectId)
  }

  predicate IsEffect(x: Effect, r: Recon, r': Recon, p: string) {
    && x.before == ViewOf(r, p) && x.after == ViewOf(r', p)
    && CallsOf(r'.calls, p) == CallsOf(r.calls, p) + x.calls
    && AttemptsOf(r'.attempts, p) == AttemptsOf(r.attempts, p) + x.attempts
  }

  lemma TickIsDone(e: Env, r: Recon, rows: seq<DesiredRow>, outcome: string -> Outcome)
    requires DistinctRows(rows)
    ensures forall i :: 0 <= i < |rows| ==>
      Done(e, r, TickRows(e, r, rows, outcome), rows[i], outcome(rows[i].projectId))
  {
    forall i | 0 <= i < |rows| ensures Done(e, r, TickRows(e, r, rows, outcome), rows[i], outcome(rows[i].projectId)) {
      var x := TickIsPrescribed(e, r, rows, outcome, i);
      assert IsEffect(x, r, TickRows(e, r, rows, outcome), rows[i].projectId);
    }
  }

  // The relation leaves no choice but the number of containers that `up` starts: two effects of one row from one
  // view differ in nothing else.
  lemma PrescriptionIsDefinite(x: Effect, y: Effect, e: Env, row: DesiredRow, o: Outcome)
    requires Prescribed(x, e, row, o) && Prescribed(y, e, row, o) && x.before == y.before
    ensures x.calls == y.calls && x.attempts == y.attempts
    ensures x.after.state == y.after.state && x.after.recorded == y.after.recorded
    ensures x.after.containers == y.after.containers
         || (AllRunning(x.after.containers) && AllRunning(y.after.containers) && x.calls != [])
  {
  }

  // A removed row goes down in every tick that attempts it, and nothing else stands for it.
  lemma RemovedRowsGoDown(e: Env, r: Recon, rows: seq<DesiredRow>, outcome: string -> Outcome, i: nat)
    requires DistinctRows(rows) && i < |rows| && rows[i].state == "removed"
    requires var p := rows[i].projectId; !InBackoff(ViewOf(r, p).state, outcome(p).checkAt)
    ensures var r', p := TickRows(e, r, rows, outcome), rows[i].projectId;
            var o, file := outcome(p), ComposeFile(e.dataDir, rows[i]);
            && CallsOf(r'.calls, p) == CallsOf(r.calls, p) + [Call(p, file, Down)]
            && (o.composeOk && file in e.disk ==>
                 ViewOf(r', p).containers == [] && ViewOf(r', p).state == ProjectState(0, None))
            && (!(o.composeOk && file in e.disk) ==>
                 && ViewOf(r', p).containers == o.left
                 && ViewOf(r', p).state.failureCount == ViewOf(r, p).state.failureCount + 1)
  {
    var x := TickIsPrescribed(e, r, rows, outcome, i);
  }

  // A row with a state that the switch does not know makes no call and fails.
  lemma UnknownStatesFail(e: Env, r: Recon, rows: seq<DesiredRow>, outcome: string -> Outcome, i: nat)
    requires DistinctRows(rows) && i < |rows| && rows[i].state !in ["running", "stopped", "removed"]
    requires var p := rows[i].projectId; !InBackoff(ViewOf(r, p).state, outcome(p).checkAt)
    ensures var r', p := TickRows(e, r, rows, outcome), rows[i].projectId;
            && CallsOf(r'.calls, p) == CallsOf(r.calls, p)
            && ViewOf(r', p).containers == ViewOf(r, p).containers && ViewOf(r', p).recorded == ViewOf(r, p).recorded
            && ViewOf(r', p).state.failureCount == ViewOf(r, p).state.failureCount + 1
            && ViewOf(r', p).state.nextRetry.Some?
  {
    var x := TickIsPrescribed(e, r, rows, outcome, i);
  }
}
