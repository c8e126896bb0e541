/** The reconciler and the provisioning code are runs of the ledger machine, so what Ledger proves about every
    interleaving holds of them. */
module LedgerRefinement {
  import opened Projects
  import R = Reconciling
  import C = Convergence
  import opened Ledger

  // The ledger state shows the containers, the hashes and the compose directory of `row` that the reconciler sees.
  predicate Agree(s: State, e: R.Env, r: R.Recon, row: DesiredRow) {
    var p, file := row.projectId, R.ComposeFile(e.dataDir, row);
    && s.containers == r.containers
    && s.recorded == r.recorded
    && (file in e.disk ==> DiskOf(s, p) == e.disk[file])
  }

  // Tick `t` has `row` in hand and has not started on it; a failing compose command leaves only containers
  // that were there or that were started from the disk.
  predicate Ready(s: State, t: nat, row: DesiredRow, o: R.Outcome) {
    && t < |s.ticks| && s.ticks[t].rows != [] && s.ticks[t].rows[0] == row && !s.ticks[t].upped
    && LeftOver(s, row.projectId, o.left, row.state == "running")
  }

  function LedgerSteps(e: R.Env, v: R.View, row: DesiredRow, o: R.Outcome, t: nat): seq<Step> {
    if R.RowCalls(e, v, row, o) == [] then [Advance(t)]
    else if row.state != "running" then [Down(t, if R.ComposeWorks(e, row, o) then [] else o.left)]
    else if !R.ComposeWorks(e, row, o) then [UpFails(t, o.left)]
    else [UpSucceeds(t, 1 + o.extraServices), if row.configHash != "" && o.writeOk then Record(t) else Advance(t)]
  }

  lemma RunTwo(s: State, a: Step, b: Step)
    requires Enabled(s, a) && Enabled(Next(s, a), b)
    ensures Runs(s, [a, b]) && After(s, [a, b]) == Next(Next(s, a), b)
  {
    RunOne(s, a);
    RunOne(Next(s, a), b);
    RunsAppend(s, [a], [b]);
    assert [a] + [b] == [a, b];
  }

  // `s'` has the reconciler's containers and hashes; the disk and the desired rows are as in `s`, and tick `t`
  // has moved on to its next row.
  predicate Simulates(s: State, s': State, r': R.Recon, t: nat)
    requires t < |s.ticks| && s.ticks[t].rows != []
  {
    && s'.containers == r'.containers && s'.recorded == r'.recorded
    && s'.disk == s.disk && s'.desired == s.desired && s'.renders == s.renders && s'.spoiled == s.spoiled
    && s'.ticks == s.ticks[t := Tick(s.ticks[t].rows[1..], false)]
  }

  lemma SilentRow(s: State, e: R.Env, r: R.Recon, row: DesiredRow, o: R.Outcome, t: nat)
    requires Agree(s, e, r, row) && Ready(s, t, row, o) && R.RowCalls(e, R.ViewOf(r, row.projectId), row, o) == []
    ensures Enabled(s, Advance(t)) && Simulates(s, Next(s, Advance(t)), R.TickRow(e, r, row, o), t)
  {
    var v := R.ViewOf(r, row.projectId);
    assert R.RowView(e, v, row, o).recorded == v.recorded;
  }

  lemma RowWithoutUp(s: State, e: R.Env, r: R.Recon, row: DesiredRow, o: R.Outcome, t: nat)
    requires Agree(s, e, r, row) && Ready(s, t, row, o) && R.RowCalls(e, R.ViewOf(r, row.projectId), row, o) != []
    requires row.state != "running" || !R.ComposeWorks(e, row, o)
    ensures var step := LedgerSteps(e, R.ViewOf(r, row.projectId), row, o, t)[0];
            Enabled(s, step) && Simulates(s, Next(s, step), R.TickRow(e, r, row, o), t)
  {
    var v := R.ViewOf(r, row.projectId);
    assert R.RowView(e, v, row, o).recorded == v.recorded;
    if row.state == "running" {
      assert R.RowView(e, v, row, o).containers == o.left;
    }
  }

  lemma RowWithUp(s: State, e: R.Env, r: R.Recon, row: DesiredRow, o: R.Outcome, t: nat)
    requires Agree(s, e, r, row) && Ready(s, t, row, o)
    requires var steps := LedgerSteps(e, R.ViewOf(r, row.projectId), row, o, t); |steps| == 2
    ensures var steps := LedgerSteps(e, R.ViewOf(r, row.projectId), row, o, t);
            && Enabled(s, steps[0]) && Enabled(Next(s, steps[0]), steps[1])
            && Simulates(s, Next(Next(s, steps[0]), steps[1]), R.TickRow(e, r, row, o), t)
  {
    var v := R.ViewOf(r, row.projectId);
    var v' := R.RowView(e, v, row, o);
    var steps := LedgerSteps(e, v, row, o, t);
    var s1 := Next(s, steps[0]);
    assert s1.containers[row.projectId] == R.Started(e, row, o) == v'.containers;
    assert v'.recorded == if row.configHash != "" && o.writeOk then Some(row.configHash) else v.recorded;
  }

  // Whatever the reconciler does for a row is a run of the ledger machine with the same effect.
  lemma TickRowIsALedgerRun(s: State, e: R.Env, r: R.Recon, row: DesiredRow, o: R.Outcome, t: nat)
    requires Agree(s, e, r, row) && Ready(s, t, row, o)
    ensures var steps := LedgerSteps(e, R.ViewOf(r, row.projectId), row, o, t);
            Runs(s, steps) && Simulates(s, After(s, steps), R.TickRow(e, r, row, o), t)
  {
    var steps := LedgerSteps(e, R.ViewOf(r, row.projectId), row, o, t);
    if |steps| == 1 {
      if R.RowCalls(e, R.ViewOf(r, row.projectId), row, o) == [] {
        SilentRow(s, e, r, row, o, t);
      } else {
        RowWithoutUp(s, e, r, row, o, t);
      }
      assert steps == [steps[0]];
      RunOne(s, steps[0]);
    } else {
      RowWithUp(s, e, r, row, o, t);
      assert steps == [steps[0], steps[1]];
      RunTwo(s, steps[0], steps[1]);
    }
  }

  // ---- A whole tick ----

  predicate AgreeOnRows(s: State, e: R.Env, r: R.Recon, rows: seq<DesiredRow>) {
    s.containers == r.containers && s.recorded == r.recorded && forall i :: 0 <= i < |rows| ==> Agree(s, e, r, rows[i])
  }

  // Tick `t` has taken its snapshot and not started on it.
  predicate ReadyForRows(s: State, t: nat, rows: seq<DesiredRow>, outcome: string -> R.Outcome) {
    && t < |s.ticks| && s.ticks[t] == Tick(rows, false)
    && forall i :: 0 <= i < |rows| ==>
      LeftOver(s, rows[i].projectId, outcome(rows[i].projectId).left, rows[i].state == "running")
  }

  function TickSteps(e: R.Env, r: R.Recon, rows: seq<DesiredRow>, outcome: string -> R.Outcome, t: nat): seq<Step>
    decreases |rows|
  {
    if rows == [] then []
    else
      var row, o := rows[0], outcome(rows[0].projectId);
      LedgerSteps(e, R.ViewOf(r, row.projectId), row, o, t) +
        TickSteps(e, R.TickRow(e, r, row, o), rows[1..], outcome, t)
  }

  lemma LeftOverStays(s: State, s1: State, p: string, left: seq<Container>, fromDisk: bool)
    requires LeftOver(s, p, left, fromDisk) && ContainersOf(s1, p) == ContainersOf(s, p) &&
      DiskOf(s1, p) == DiskOf(s, p)
    ensures LeftOver(s1, p, left, fromDisk)
  {
  }

  lemma RestStaysReady(
    s: State, s1: State, e: R.Env, r: R.Recon, rows: seq<DesiredRow>, outcome: string -> R.Outcome, t: nat)
    requires rows != [] && R.DistinctRows(rows)
    requires AgreeOnRows(s, e, r, rows) && ReadyForRows(s, t, rows, outcome)
    requires Simulates(s, s1, R.TickRow(e, r, rows[0], outcome(rows[0].projectId)), t)
    ensures AgreeOnRows(s1, e, R.TickRow(e, r, rows[0], outcome(rows[0].projectId)), rows[1..])
    ensures ReadyForRows(s1, t, rows[1..], outcome)
  {
    var rest := rows[1..];
    forall i | 0 <= i < |rest|
      ensures LeftOver(s1, rest[i].projectId, outcome(rest[i].projectId).left, rest[i].state == "running")
      ensures DiskOf(s1, rest[i].projectId) == DiskOf(s, rest[i].projectId)
      ensures Agree(s, e, r, rest[i])
    {
      var p := rest[i].projectId;
      assert rest[i] == rows[i + 1];
      assert ContainersOf(s1, p) == ContainersOf(s, p);
      LeftOverStays(s, s1, p, outcome(p).left, rest[i].state == "running");
    }
  }

  // A tick over all its rows is a run of the ledger machine with the same containers and hashes.
  lemma {:induction false} TickIsALedgerRun(
    s: State, e: R.Env, r: R.Recon, rows: seq<DesiredRow>, outcome: string -> R.Outcome, t: nat)
    requires R.DistinctRows(rows) && AgreeOnRows(s, e, r, rows) && ReadyForRows(s, t, rows, outcome)
    ensures Runs(s, TickSteps(e, r, rows, outcome, t))
    ensures var s', r' := After(s, TickSteps(e, r, rows, outcome, t)), R.TickRows(e, r, rows, outcome);
            && s'.containers == r'.containers && s'.recorded == r'.recorded
            && s'.disk == s.disk && s'.desired == s.desired && s'.renders == s.renders && s'.spoiled == s.spoiled
            && s'.ticks == s.ticks[t := Tick([], false)]
    decreases |rows|
  {
    if rows != [] {
      var row, o := rows[0], outcome(rows[0].projectId);
      var first, r1 := LedgerSteps(e, R.ViewOf(r, row.projectId), row, o, t), R.TickRow(e, r, row, o);
      TickRowIsALedgerRun(s, e, r, row, o, t);
      var s1 := After(s, first);
      RestStaysReady(s, s1, e, r, rows, outcome, t);
      TickIsALedgerRun(s1, e, r1, rows[1..], outcome, t);
      RunsAppend(s, first, TickSteps(e, r1, rows[1..], outcome, t));
    }
  }

  // `row` is a running row, as current as the table, with a hash; its attempt is due and nothing fails; its render
  // is not half done.
  predicate FaultlessAttempt(s: State, e: R.Env, r: R.Recon, row: DesiredRow, o: R.Outcome) {
    && row.state == "running" && Wants(s, row.projectId, row.configHash) && s.desired[row.projectId] == row
    && C.NoFaults(e, row, o) && !R.InBackoff(R.ViewOf(r, row.projectId).state, o.checkAt)
    && !HalfDone(s, row.projectId)
  }

  // Whether or not the reconciler calls `up`, its decision is right: in a reachable state a faultless attempt
  // leaves the containers on the files of the disk.
  lemma AttemptAligns(history: seq<Step>, e: R.Env, r: R.Recon, row: DesiredRow, o: R.Outcome)
    requires Runs(INIT, history) && Fresh(INIT, history) && Agree(After(INIT, history), e, r, row)
    requires FaultlessAttempt(After(INIT, history), e, r, row, o)
    ensures var v := R.RowView(e, R.ViewOf(r, row.projectId), row, o);
            C.Converged(row, v) && AllCarry(v.containers, DiskOf(After(INIT, history), row.projectId))
  {
    C.FaultlessRowConverges(e, R.ViewOf(r, row.projectId), row, o);
    LedgerIsSound(history, row.projectId);
  }

  // The containers of `p` are healthy, on exactly the files of the disk, and recorded under the desired hash.
  predicate Settled(s: State, p: string) {
    && Aligned(s, p) && R.Healthy(ContainersOf(s, p))
    && p in s.desired && p in s.recorded && s.recorded[p] == s.desired[p].configHash
  }

  // Main theorem: after any history of renders, ticks and failures with fresh hashes, a whole tick, whatever its
  // other rows suffer, settles every row that it attempts without fault.
  lemma TickSettles(
    history: seq<Step>, e: R.Env, r: R.Recon, rows: seq<DesiredRow>, outcome: string -> R.Outcome, t: nat, i: nat)
    requires Runs(INIT, history) && Fresh(INIT, history) && R.DistinctRows(rows) && i < |rows|
    requires AgreeOnRows(After(INIT, history), e, r, rows) && ReadyForRows(After(INIT, history), t, rows, outcome)
    requires FaultlessAttempt(After(INIT, history), e, r, rows[i], outcome(rows[i].projectId))
    ensures Runs(After(INIT, history), TickSteps(e, r, rows, outcome, t))
    ensures Settled(After(After(INIT, history), TickSteps(e, r, rows, outcome, t)), rows[i].projectId)
  {
    TickIsALedgerRun(After(INIT, history), e, r, rows, outcome, t);
    R.TickIsLocal(e, r, rows, outcome, i);
    AttemptAligns(history, e, r, rows[i], outcome(rows[i].projectId));
  }

  // ---- Rendering ----

  function WriteAll(files: Files, written: seq<File>): Files
    decreases |written|
  {
    if written == [] then files else WriteAll(files[written[0].path := written[0].content], written[1..])
  }

  lemma {:induction false} WriteAllAppend(files: Files, a: seq<File>, f: File)
    ensures WriteAll(files, a + [f]) == WriteAll(files, a)[f.path := f.content]
    decreases |a|
  {
    if a == [] {
      assert a + [f] == [f] && [f][1..] == [];
      assert WriteAll(files[f.path := f.content], []) == files[f.path := f.content];
    } else {
      assert (a + [f])[1..] == a[1..] + [f];
      WriteAllAppend(files[a[0].path := a[0].content], a[1..], f);
    }
  }

  function Writes(r: nat, n: nat): seq<Step> {
    seq(n, _ => WriteFile(r))
  }

  // Writing `n` files of a render, one step each.
  lemma {:induction false} WritesRun(s: State, r: nat, n: nat)
    requires r < |s.renders| && !s.renders[r].over && s.renders[r].written == 0 && n <= |s.renders[r].files|
    ensures Runs(s, Writes(r, n))
    ensures var p := s.renders[r].row.projectId;
            var s' := After(s, Writes(r, n));
            && DiskOf(s', p) == WriteAll(DiskOf(s, p), s.renders[r].files[..n])
            && s' == s.(disk := s'.disk, renders := s.renders[r := s.renders[r].(written := n)])
            && (forall q :: q != p ==> DiskOf(s', q) == DiskOf(s, q))
  {
    if n > 0 {
      WritesRun(s, r, n - 1);
      var s1 := After(s, Writes(r, n - 1));
      var files := s.renders[r].files;
      RunOne(s1, WriteFile(r));
      RunsAppend(s, Writes(r, n - 1), [WriteFile(r)]);
      assert Writes(r, n) == Writes(r, n - 1) + [WriteFile(r)];
      WriteAllAppend(DiskOf(s, s.renders[r].row.projectId), files[..n - 1], files[n - 1]);
      assert files[..n] == files[..n - 1] + [files[n - 1]];
    }
  }

  // internal/daemon/provision.go, renderAndWriteTSDB and renderAndWriteSite, on the directory of one project and
  // the desired_state table: all files first, then the hash. `survives` is the number of writes before an I/O
  // error; None when no write fails. `upsertOk` is the outcome of the upsert, whose error is ignored.
  class Provisioner {
    var directory: Files
    var desired: map<string, DesiredRow>

    method RenderAndWrite(row: DesiredRow, files: seq<File>, survives: Option<nat>, upsertOk: bool) returns (ok: bool)
      modifies this
      ensures ok <==> survives.None? || survives.value >= |files|
      ensures directory == WriteAll(old(directory), if ok then files else files[..survives.value])
      ensures desired == if ok && upsertOk then Upsert(old(desired), row) else old(desired)
    {
      assert files[..0] == [];
      for i := 0 to |files|
        invariant directory == WriteAll(old(directory), files[..i])
        invariant desired == old(desired)
        invariant survives.Some? ==> i <= survives.value
      {
        if survives == Some(i) {
          return false;
        }
        directory := directory[files[i].path := files[i].content];
        WriteAllAppend(old(directory), files[..i], files[i]);
        assert files[..i + 1] == files[..i] + [files[i]];
      }
      assert files[..|files|] == files;
      if upsertOk {
        desired := Upsert(desired, row);
      }
      ok := true;
    }
  }

  // What RenderAndWrite leaves behind is what a ledger run leaves behind: published, and the project no longer
  // spoiled, when all went well; abandoned when a write or the upsert was lost.
  lemma RenderIsALedgerRun(
    s: State, row: DesiredRow, files: seq<File>, n: nat, published: bool) returns (steps: seq<Step>)
    requires row.configHash != "" && n <= |files| && (published ==> n == |files|)
    ensures Runs(s, steps)
    ensures var s' := After(s, steps);
            && DiskOf(s', row.projectId) == WriteAll(DiskOf(s, row.projectId), files[..n])
            && s'.desired == (if published then Upsert(s.desired, row) else s.desired)
            && s'.containers == s.containers && s'.recorded == s.recorded && s'.ticks == s.ticks
            && s'.renders == s.renders + [Render(row, files, n, true)]
            && s'.spoiled == (if published then s.spoiled - {row.projectId}
                              else if n > 0 then s.spoiled + {row.projectId} else s.spoiled)
  {
    var r := |s.renders|;
    var s1 := Next(s, BeginRender(row, files));
    RunOne(s, BeginRender(row, files));
    WritesRun(s1, r, n);
    RunsAppend(s, [BeginRender(row, files)], Writes(r, n));
    steps := [BeginRender(row, files)] + Writes(r, n);
    var s2 := After(s1, Writes(r, n));
    var last := if published then Publish(r) else Abandon(r);
    RunOne(s2, last);
    RunsAppend(s, steps, [last]);
    steps := steps + [last];
  }
}
