/** Convergence of the reconciler: one faultless tick reaches the desired state, the next one is silent. */
module Convergence {
  import opened Projects
  import opened Reconciling
  import opened Backoff

  // The desired state of a `running` or `stopped` row holds.
  predicate Converged(row: DesiredRow, v: View) {
    if row.state == "running"
    then Healthy(v.containers) && (row.configHash != "" ==> v.recorded == Some(row.configHash))
    else v.containers == []
  }

  predicate Steady(row: DesiredRow) {
    row.state == "running" || row.state == "stopped"
  }

  // The Docker client answers and the hash table can be read.
  predicate CanSee(e: Env, o: Outcome) {
    e.hasDocker && o.listOk && o.readOk
  }

  predicate NoFaults(e: Env, row: DesiredRow, o: Outcome) {
    CanSee(e, o) && ComposeWorks(e, row, o) && o.writeOk
  }

  // The tick calls compose for a row exactly when the row has not converged.
  lemma SilentIffConverged(e: Env, v: View, row: DesiredRow, o: Outcome)
    requires Steady(row) && CanSee(e, o) && !InBackoff(v.state, o.checkAt)
    ensures RowCalls(e, v, row, o) == [] <==> Converged(row, v)
    ensures Converged(row, v) ==> RowView(e, v, row, o) == v.(state := NO_FAILURES)
  {
  }

  lemma FaultlessRowConverges(e: Env, v: View, row: DesiredRow, o: Outcome)
    requires Steady(row) && NoFaults(e, row, o) && !InBackoff(v.state, o.checkAt)
    ensures var v' := RowView(e, v, row, o);
            && Converged(row, v') && v'.state == NO_FAILURES
            && (row.state == "running" && RowCalls(e, v, row, o) != [] ==>
              AllCarry(v'.containers, e.disk[ComposeFile(e.dataDir, row)]))
  {
    assert Started(e, row, o) != [];
  }

  // The first tick attempts the row without fault, and the second one can see its project.
  predicate TwoGoodTicks(e1: Env, e2: Env, r: Recon, row: DesiredRow, o1: Outcome, o2: Outcome) {
    && Steady(row) && NoFaults(e1, row, o1) && !InBackoff(ViewOf(r, row.projectId).state, o1.checkAt) && CanSee(e2, o2)
  }

  // Two-tick convergence, row by row: a running or stopped row that one tick attempts without fault has its desired
  // state after that tick, and the following tick issues no compose call for it and changes nothing, whatever the
  // other rows suffer in either tick. The second tick may see another disk: it does not look at it.
  lemma TwoTicksConverge(
    e1: Env, e2: Env, r: Recon, rows: seq<DesiredRow>, outcome1: string -> Outcome, outcome2: string -> Outcome, i: nat)
    requires DistinctRows(rows) && i < |rows|
    requires TwoGoodTicks(e1, e2, r, rows[i], outcome1(rows[i].projectId), outcome2(rows[i].projectId))
    ensures var r1, p := TickRows(e1, r, rows, outcome1), rows[i].projectId;
            var r2 := TickRows(e2, r1, rows, outcome2);
            && Converged(rows[i], ViewOf(r1, p))
            && CallsOf(r2.calls, p) == CallsOf(r1.calls, p) && ViewOf(r2, p) == ViewOf(r1, p)
  {
    var r1, row, p := TickRows(e1, r, rows, outcome1), rows[i], rows[i].projectId;
    TickIsLocal(e1, r, rows, outcome1, i);
    FaultlessRowConverges(e1, ViewOf(r, p), row, outcome1(p));
    TickIsLocal(e2, r1, rows, outcome2, i);
    SilentIffConverged(e2, ViewOf(r1, p), row, outcome2(p));
  }

  // Nothing of project `p` has failed within the 30 minutes before `now`.
  predicate Rested(r: Recon, p: string, now: int) {
    var a := AttemptsOf(r.attempts, p);
    a != [] && !a[|a| - 1].ok ==> a[|a| - 1].doneAt + 1800 <= now
  }

  lemma RestedIsNotWaiting(rounds: seq<Round>, p: string, now: int)
    requires ValidRounds(rounds) && Rested(RunRounds(START, rounds), p, now)
    ensures !InBackoff(ViewOf(RunRounds(START, rounds), p).state, now)
  {
    WaitIsBounded(rounds, p);
  }

  // The row was attempted, and if it is steady it has converged.
  predicate Recovered(r: Recon, r': Recon, row: DesiredRow) {
    && |AttemptsOf(r'.attempts, row.projectId)| == |AttemptsOf(r.attempts, row.projectId)| + 1
    && (Steady(row) ==> Converged(row, ViewOf(r', row.projectId)))
  }

  lemma RowRecovers(r: Recon, last: Round, i: nat)
    requires DistinctRows(last.rows) && i < |last.rows|
    requires var p := last.rows[i].projectId;
             NoFaults(last.env, last.rows[i], last.outcome(p)) &&
               !InBackoff(ViewOf(r, p).state, last.outcome(p).checkAt)
    ensures Recovered(r, RunRound(r, last), last.rows[i])
  {
    var r0, row := r.(containers := last.containers, recorded := last.recorded), last.rows[i];
    var o := last.outcome(row.projectId);
    assert ViewOf(r0, row.projectId).state == ViewOf(r, row.projectId).state;
    TickIsLocal(last.env, r0, last.rows, last.outcome, i);
    if Steady(row) {
      FaultlessRowConverges(last.env, ViewOf(r0, row.projectId), row, o);
    }
  }

  // Bounded recovery, row by row: after any run of ticks with any failures, a tick that comes 30 minutes after the
  // row's last failure and meets no fault of the row attempts it and leaves it converged if it is running or
  // stopped, whatever the other rows suffer.
  lemma FaultsAreForgotten(rounds: seq<Round>, last: Round, i: nat)
    requires ValidRounds(rounds) && DistinctRows(last.rows) && i < |last.rows|
    requires var r, p := RunRounds(START, rounds), last.rows[i].projectId;
             NoFaults(last.env, last.rows[i], last.outcome(p)) && Rested(r, p, last.outcome(p).checkAt)
    ensures Recovered(RunRounds(START, rounds), RunRound(RunRounds(START, rounds), last), last.rows[i])
  {
    var p := last.rows[i].projectId;
    RestedIsNotWaiting(rounds, p, last.outcome(p).checkAt);
    RowRecovers(RunRounds(START, rounds), last, i);
  }
}
