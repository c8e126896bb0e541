/** What a reconciler tick does (internal/recon/reconciler.go), as functions on values.

    The outside world answers through an `Outcome` a row: clock readings, and which of the Docker listing, the
    hash read, the compose command and the hash write succeed. Time is in seconds. */
module Reconciling {
  import opened Projects

  // nextRetry is None for Go's zero time.
  datatype ProjectState = ProjectState(failureCount: nat, nextRetry: Option<int>)

  const NO_FAILURES := ProjectState(0, None)

  datatype Outcome = Outcome(
    checkAt: int,              // time.Now() at the backoff check
    doneAt: int,               // time.Now() after a failure
    listOk: bool, readOk: bool, composeOk: bool, writeOk: bool,
    extraServices: nat,        // services in the compose file beyond the first
    left: seq<Container>)      // what a failed compose command leaves

  // `hasDocker`: the SDK client exists. `disk`: compose file path to rendered files.
  datatype Env = Env(dataDir: string, hasDocker: bool, disk: map<string, Files>)

  datatype Command = Up | Down
  datatype Call = Call(projectId: string, file: string, command: Command)
  datatype Attempt = Attempt(projectId: string, checkAt: int, doneAt: int, ok: bool)

  const BACKOFF_LADDER: seq<int> := [30, 60, 300, 1800]

  function BackoffDelay(count: int): int {
    if count <= 0 then BACKOFF_LADDER[0]
    else if count - 1 >= |BACKOFF_LADDER| then BACKOFF_LADDER[|BACKOFF_LADDER| - 1]
    else BACKOFF_LADDER[count - 1]
  }

  function ComposeFile(dataDir: string, row: DesiredRow): string {
    if row.siteId != "" then dataDir + "/tenants/" + row.tenantId + "/sites/" + row.siteId + "/docker-compose.yml"
    else if row.tenantId != "" then dataDir + "/tenants/" + row.tenantId + "/tsdb/docker-compose.yml"
    else dataDir + "/shared/docker-compose.yml"
  }

  // All a tick can see and change of one project.
  datatype View = View(state: ProjectState, containers: seq<Container>, recorded: Option<string>)

  predicate Healthy(cs: seq<Container>) {
    cs != [] && AllRunning(cs)
  }

  predicate NeedsUp(e: Env, v: View, row: DesiredRow, o: Outcome) {
    !(&& e.hasDocker && o.listOk && Healthy(v.containers)
      && (row.configHash == "" || (o.readOk && v.recorded == Some(row.configHash))))
  }

  predicate ComposeWorks(e: Env, row: DesiredRow, o: Outcome) {
    o.composeOk && ComposeFile(e.dataDir, row) in e.disk
  }

  function Started(e: Env, row: DesiredRow, o: Outcome): seq<Container>
    requires ComposeWorks(e, row, o)
  {
    seq(1 + o.extraServices, _ => Container(e.disk[ComposeFile(e.dataDir, row)], true))
  }

  datatype Reconciled = Reconciled(containers: seq<Container>, recorded: Option<string>, command: Option<Command>,
    ok: bool)

  function Reconcile(e: Env, v: View, row: DesiredRow, o: Outcome): Reconciled {
    if row.state == "running" then
      if !NeedsUp(e, v, row, o) then Reconciled(v.containers, v.recorded, None, true)
      else if !ComposeWorks(e, row, o) then Reconciled(o.left, v.recorded, Some(Up), false)
      else
        var recorded := if row.configHash != "" && o.writeOk then Some(row.configHash) else v.recorded;
        Reconciled(Started(e, row, o), recorded, Some(Up), true)
    else if row.state == "stopped" && e.hasDocker && o.listOk && v.containers == [] then
      Reconciled(v.containers, v.recorded, None, true)
    else if row.state == "stopped" || row.state == "removed" then
      if ComposeWorks(e, row, o) then Reconciled([], v.recorded, Some(Down), true)
      else Reconciled(o.left, v.recorded, Some(Down), false)
    else Reconciled(v.containers, v.recorded, None, false)
  }

  predicate InBackoff(s: ProjectState, now: int) {
    s.nextRetry.Some? && now < s.nextRetry.value
  }

  function AfterAttempt(s: ProjectState, ok: bool, doneAt: int): ProjectState {
    if ok then NO_FAILURES
    else ProjectState(s.failureCount + 1, Some(doneAt + BackoffDelay(s.failureCount + 1)))
  }

  // The whole effect of one row on its project.
  function RowView(e: Env, v: View, row: DesiredRow, o: Outcome): View {
    if InBackoff(v.state, o.checkAt) then v
    else
      var r := Reconcile(e, v, row, o);
      View(AfterAttempt(v.state, r.ok, o.doneAt), r.containers, r.recorded)
  }

  function RowCalls(e: Env, v: View, row: DesiredRow, o: Outcome): seq<Call> {
    if InBackoff(v.state, o.checkAt) then []
    else match Reconcile(e, v, row, o).command
      case None => []
      case Some(c) => [Call(row.projectId, ComposeFile(e.dataDir, row), c)]
  }

  function RowAttempts(e: Env, v: View, row: DesiredRow, o: Outcome): seq<Attempt> {
    if InBackoff(v.state, o.checkAt) then []
    else [Attempt(row.projectId, o.checkAt, o.doneAt, Reconcile(e, v, row, o).ok)]
  }

  // Reconciler, Docker and hash table together, with the compose calls and attempts made so far.
  datatype Recon = Recon(
    states: map<string, ProjectState>,
    containers: map<string, seq<Container>>,
    recorded: map<string, string>,
    calls: seq<Call>,
    attempts: seq<Attempt>)

  function ViewOf(r: Recon, p: string): View {
    View(if p in r.states then r.states[p] else NO_FAILURES,
         if p in r.containers then r.containers[p] else [],
         if p in r.recorded then Some(r.recorded[p]) else None)
  }

  function TickRow(e: Env, r: Recon, row: DesiredRow, o: Outcome): Recon {
    var p := row.projectId;
    var v := ViewOf(r, p);
    var v' := RowView(e, v, row, o);
    var calls := RowCalls(e, v, row, o);
    Recon(
      r.states[p := v'.state],
      if calls != [] then r.containers[p := v'.containers] else r.containers,
      if v'.recorded.Some? then r.recorded[p := v'.recorded.value] else r.recorded,
      r.calls + calls,
      r.attempts + RowAttempts(e, v, row, o))
  }

  // The five updates of a row that is not in backoff.
  lemma AttemptedRow(e: Env, r: Recon, row: DesiredRow, o: Outcome)
    requires !InBackoff(ViewOf(r, row.projectId).state, o.checkAt)
    ensures var p, v := row.projectId, ViewOf(r, row.projectId);
            var d := Reconcile(e, v, row, o);
            TickRow(e, r, row, o) == Recon(
              r.states[p := AfterAttempt(v.state, d.ok, o.doneAt)],
              if d.command.Some? then r.containers[p := d.containers] else r.containers,
              if d.recorded.Some? then r.recorded[p := d.recorded.value] else r.recorded,
              r.calls + (if d.command.Some? then [Call(p, ComposeFile(e.dataDir, row), d.command.value)] else []),
              r.attempts + [Attempt(p, o.checkAt, o.doneAt, d.ok)])
  {
  }

  lemma WaitingRow(e: Env, r: Recon, row: DesiredRow, o: Outcome)
    requires InBackoff(ViewOf(r, row.projectId).state, o.checkAt)
    ensures TickRow(e, r, row, o) == r
  {
    assert r.calls + [] == r.calls && r.attempts + [] == r.attempts;
  }

  function TickRows(e: Env, r: Recon, rows: seq<DesiredRow>, outcome: string -> Outcome): Recon
    decreases |rows|
  {
    if rows == [] then r
    else TickRows(e, TickRow(e, r, rows[0], outcome(rows[0].projectId)), rows[1..], outcome)
  }

  // project_id is the primary key of desired_state.
  predicate DistinctRows(rows: seq<DesiredRow>) {
    forall i, j :: 0 <= i < j < |rows| ==> rows[i].projectId != rows[j].projectId
  }

  function CallsOf(calls: seq<Call>, p: string): seq<Call> {
    if calls == [] then []
    else (if calls[0].projectId == p then [calls[0]] else []) + CallsOf(calls[1..], p)
  }

  function AttemptsOf(log: seq<Attempt>, p: string): seq<Attempt> {
    if log == [] then []
    else (if log[0].projectId == p then [log[0]] else []) + AttemptsOf(log[1..], p)
  }

  lemma {:induction false} CallsOfAppend(a: seq<Call>, b: seq<Call>, p: string)
    ensures CallsOf(a + b, p) == CallsOf(a, p) + CallsOf(b, p)
  {
    if a == [] {
      assert a + b == b;
    } else {
      CallsOfAppend(a[1..], b, p);
      assert (a + b)[0] == a[0] && (a + b)[1..] == a[1..] + b;
      var first := if a[0].projectId == p then [a[0]] else [];
      assert first + (CallsOf(a[1..], p) + CallsOf(b, p)) == (first + CallsOf(a[1..], p)) + CallsOf(b, p);
    }
  }

  lemma {:induction false} AttemptsOfAppend(a: seq<Attempt>, b: seq<Attempt>, p: string)
    ensures AttemptsOf(a + b, p) == AttemptsOf(a, p) + AttemptsOf(b, p)
  {
    if a == [] {
      assert a + b == b;
    } else {
      AttemptsOfAppend(a[1..], b, p);
      assert (a + b)[0] == a[0] && (a + b)[1..] == a[1..] + b;
      var first := if a[0].projectId == p then [a[0]] else [];
      assert first + (AttemptsOf(a[1..], p) + AttemptsOf(b, p)) == (first + AttemptsOf(a[1..], p)) + AttemptsOf(b, p);
    }
  }

  // ---- Isolation: a tick treats every project as if it were alone ----

  // Nothing about project `p` differs: backoff state, containers, hash, calls made, attempts made.
  predicate Untouched(r: Recon, r': Recon, p: string) {
    && ViewOf(r', p) == ViewOf(r, p)
    && CallsOf(r'.calls, p) == CallsOf(r.calls, p)
    && AttemptsOf(r'.attempts, p) == AttemptsOf(r.attempts, p)
  }

  // Project `p` moved exactly as its own row dictates.
  predicate MovedBy(e: Env, r: Recon, r': Recon, row: DesiredRow, o: Outcome) {
    var p := row.projectId;
    var v := ViewOf(r, p);
    && ViewOf(r', p) == RowView(e, v, row, o)
    && CallsOf(r'.calls, p) == CallsOf(r.calls, p) + RowCalls(e, v, row, o)
    && AttemptsOf(r'.attempts, p) == AttemptsOf(r.attempts, p) + RowAttempts(e, v, row, o)
  }

  lemma RowViewOwn(e: Env, r: Recon, row: DesiredRow, o: Outcome)
    ensures ViewOf(TickRow(e, r, row, o), row.projectId) == RowView(e, ViewOf(r, row.projectId), row, o)
  {
    var v := ViewOf(r, row.projectId);
    assert RowCalls(e, v, row, o) == [] ==> RowView(e, v, row, o).containers == v.containers;
    assert v.recorded.Some? ==> RowView(e, v, row, o).recorded.Some?;
  }

  lemma LogsOfOneRow(e: Env, v: View, row: DesiredRow, o: Outcome, p: string)
    ensures CallsOf(RowCalls(e, v, row, o), p) == if row.projectId == p then RowCalls(e, v, row, o) else []
    ensures AttemptsOf(RowAttempts(e, v, row, o), p) == if row.projectId == p then RowAttempts(e, v, row, o) else []
  {
    var calls, attempts := RowCalls(e, v, row, o), RowAttempts(e, v, row, o);
    assert |calls| <= 1 && |attempts| <= 1;
    if calls != [] { assert calls[1..] == []; }
    if attempts != [] { assert attempts[1..] == []; }
  }

  lemma RowExtendsLogs(e: Env, r: Recon, row: DesiredRow, o: Outcome, p: string)
    ensures var r', v := TickRow(e, r, row, o), ViewOf(r, row.projectId);
            && CallsOf(r'.calls, p) == CallsOf(r.calls, p) + (if row.projectId == p then RowCalls(e, v, row, o) else [])
            && AttemptsOf(r'.attempts, p) == AttemptsOf(r.attempts, p) +
              (if row.projectId == p then RowAttempts(e, v, row, o) else [])
  {
    var v := ViewOf(r, row.projectId);
    LogsOfOneRow(e, v, row, o, p);
    CallsOfAppend(r.calls, RowCalls(e, v, row, o), p);
    AttemptsOfAppend(r.attempts, RowAttempts(e, v, row, o), p);
  }

  lemma RowMovesItsProject(e: Env, r: Recon, row: DesiredRow, o: Outcome)
    ensures MovedBy(e, r, TickRow(e, r, row, o), row, o)
  {
    RowViewOwn(e, r, row, o);
    RowExtendsLogs(e, r, row, o, row.projectId);
  }

  lemma RowSparesOthers(e: Env, r: Recon, row: DesiredRow, o: Outcome, p: string)
    requires row.projectId != p
    ensures Untouched(r, TickRow(e, r, row, o), p)
  {
    RowExtendsLogs(e, r, row, o, p);
  }

  lemma {:induction false} TickSparesOthers(
    e: Env, r: Recon, rows: seq<DesiredRow>, outcome: string -> Outcome, p: string)
    requires forall i :: 0 <= i < |rows| ==> rows[i].projectId != p
    ensures Untouched(r, TickRows(e, r, rows, outcome), p)
    decreases |rows|
  {
    if rows != [] {
      RowSparesOthers(e, r, rows[0], outcome(rows[0].projectId), p);
      TickSparesOthers(e, TickRow(e, r, rows[0], outcome(rows[0].projectId)), rows[1..], outcome, p);
    }
  }

  // Whatever the other rows do or suffer, a project moves exactly by its own row.
  lemma {:induction false} TickIsLocal(e: Env, r: Recon, rows: seq<DesiredRow>, outcome: string -> Outcome, i: nat)
    requires DistinctRows(rows) && i < |rows|
    ensures MovedBy(e, r, TickRows(e, r, rows, outcome), rows[i], outcome(rows[i].projectId))
    decreases |rows|
  {
    var first := rows[0];
    var r1 := TickRow(e, r, first, outcome(first.projectId));
    if i == 0 {
      RowMovesItsProject(e, r, first, outcome(first.projectId));
      TickSparesOthers(e, r1, rows[1..], outcome, first.projectId);
    } else {
      RowSparesOthers(e, r, first, outcome(first.projectId), rows[i].projectId);
      TickIsLocal(e, r1, rows[1..], outcome, i - 1);
    }
  }
}
