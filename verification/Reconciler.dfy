/** The reconciler as the source writes it: a loop over rows that updates backoff counters, Docker and the hash
    table in place. Each method is proved against the functions of module Reconciling. */
module Reconciler {
  import opened Projects
  import opened Reconciling
  import TickEffects

  // Docker, the compose files on disk and the actual_state_cache table.
  class Host {
    const dataDir: string
    const hasDocker: bool
    var disk: map<string, Files>
    var containers: map<string, seq<Container>>
    var recorded: map<string, string>
    ghost var calls: seq<Call>

    constructor (dataDir: string, hasDocker: bool, disk: map<string, Files>)
      ensures this.dataDir == dataDir && this.hasDocker == hasDocker && this.disk == disk
      ensures containers == map[] && recorded == map[] && calls == []
    {
      this.dataDir, this.hasDocker, this.disk := dataDir, hasDocker, disk;
      containers, recorded, calls := map[], map[], [];
    }

    ghost function Environment(): Env
      reads this
    {
      Env(dataDir, hasDocker, disk)
    }

    method ListByProject(p: string, o: Outcome) returns (r: Option<seq<Container>>)
      ensures r == if o.listOk then Some(if p in containers then containers[p] else []) else None
    {
      if !o.listOk { return None; }
      if p in containers { return Some(containers[p]); }
      return Some([]);
    }

    method GetCombinedHash(p: string, o: Outcome) returns (r: Option<string>)
      ensures r == if o.readOk && p in recorded then Some(recorded[p]) else None
    {
      if o.readOk && p in recorded { return Some(recorded[p]); }
      return None;
    }

    method UpsertCombinedHash(p: string, h: string, o: Outcome)
      modifies this`recorded
      ensures recorded == if o.writeOk then old(recorded)[p := h] else old(recorded)
    {
      if o.writeOk { recorded := recorded[p := h]; }
    }

    // runner.Up and runner.Down
    method Compose(row: DesiredRow, file: string, command: Command, o: Outcome) returns (ok: bool)
      requires file == ComposeFile(dataDir, row)
      modifies this`containers, this`calls
      ensures ok == ComposeWorks(Environment(), row, o)
      ensures calls == old(calls) + [Call(row.projectId, file, command)]
      ensures containers == old(containers)[row.projectId :=
                if !ok then o.left else if command == Up then Started(Environment(), row, o) else []]
    {
      ok := o.composeOk && file in disk;
      if !ok {
        containers := containers[row.projectId := o.left];
      } else if command == Up {
        var c := Container(disk[file], true);
        containers := containers[row.projectId := seq(1 + o.extraServices, _ => c)];
      } else {
        containers := containers[row.projectId := []];
      }
      calls := calls + [Call(row.projectId, file, command)];
    }
  }

  class Loop {
    const host: Host
    var states: map<string, ProjectState>
    ghost var attempts: seq<Attempt>

    constructor (host: Host)
      ensures this.host == host && states == map[] && attempts == []
    {
      this.host := host;
      states, attempts := map[], [];
    }

    ghost function Snapshot(): Recon
      reads this, host
    {
      Recon(states, host.containers, host.recorded, host.calls, attempts)
    }

    // Containers missing, not all running, or the configuration has drifted since the last recorded `up`.
    method CheckNeedsUp(row: DesiredRow, o: Outcome) returns (needsUp: bool)
      ensures needsUp == NeedsUp(host.Environment(), ViewOf(Snapshot(), row.projectId), row, o)
    {
      needsUp := true;
      if host.hasDocker {
        var listed := host.ListByProject(row.projectId, o);
        if listed.Some? && |listed.value| > 0 {
          var allRunning := true;
          for i := 0 to |listed.value|
            invariant allRunning && AllRunning(listed.value[..i])
          {
            if !listed.value[i].running {
              allRunning := false;
              break;
            }
          }
          assert listed.value[..|listed.value|] == listed.value;
          if allRunning {
            if row.configHash == "" {
              needsUp := false;
            } else {
              var actual := host.GetCombinedHash(row.projectId, o);
              if actual == Some(row.configHash) {
                needsUp := false;
              }
            }
          }
        }
      }
    }

    // The case of a running row.
    method BringUp(row: DesiredRow, file: string, o: Outcome) returns (ok: bool)
      requires row.state == "running" && file == ComposeFile(host.dataDir, row)
      modifies host`containers, host`recorded, host`calls
      ensures Effect(row, file, Reconcile(host.Environment(), old(ViewOf(Snapshot(), row.projectId)), row, o), ok,
                     old(host.containers), old(host.recorded), old(host.calls))
    {
      ghost var e, v := host.Environment(), ViewOf(Snapshot(), row.projectId);
      var needsUp := CheckNeedsUp(row, o);
      if !needsUp {
        return true;
      }
      ok := host.Compose(row, file, Up, o);
      if !ok {
        assert Reconcile(e, v, row, o) == Reconciled(o.left, v.recorded, Some(Up), false);
        return false;
      }
      if row.configHash != "" {
        host.UpsertCombinedHash(row.projectId, row.configHash, o);
      }
      assert Reconcile(e, v, row, o).containers == Started(e, row, o);
      return true;
    }

    // What the host looks like after `r` has been done to the project of `row`.
    ghost predicate Effect(
      row: DesiredRow, file: string, r: Reconciled, ok: bool,
      containers: map<string, seq<Container>>, recorded: map<string, string>, calls: seq<Call>)
      reads host
    {
      var p := row.projectId;
      && ok == r.ok
      && host.containers == (if r.command.Some? then containers[p := r.containers] else containers)
      && host.recorded == (if r.recorded.Some? then recorded[p := r.recorded.value] else recorded)
      && host.calls == calls + (if r.command.Some? then [Call(p, file, r.command.value)] else [])
    }

    method ReconcileProject(row: DesiredRow, file: string, o: Outcome) returns (ok: bool)
      requires file == ComposeFile(host.dataDir, row)
      modifies host`containers, host`recorded, host`calls
      ensures Effect(row, file, Reconcile(host.Environment(), old(ViewOf(Snapshot(), row.projectId)), row, o), ok,
                     old(host.containers), old(host.recorded), old(host.calls))
    {
      var p := row.projectId;
      ghost var e, v := host.Environment(), ViewOf(Snapshot(), p);
      if row.state == "running" {
        ok := BringUp(row, file, o);
      } else if row.state == "stopped" {
        if host.hasDocker {
          var listed := host.ListByProject(p, o);
          if listed == Some([]) {
            assert v.containers == [];
            return true;
          }
        }
        ok := host.Compose(row, file, Down, o);
        assert Reconcile(e, v, row, o) == Reconciled(if ok then [] else o.left, v.recorded, Some(Down), ok);
      } else if row.state == "removed" {
        ok := host.Compose(row, file, Down, o);
        assert Reconcile(e, v, row, o) == Reconciled(if ok then [] else o.left, v.recorded, Some(Down), ok);
      } else {
        return false;
      }
    }

    // `listed` is the snapshot of desired_state; None when the query failed.
    method Tick(listed: Option<seq<DesiredRow>>, outcome: string -> Outcome)
      modifies this`states, this`attempts, host`containers, host`recorded, host`calls
      ensures Snapshot() == if listed.None? then old(Snapshot())
                            else TickRows(host.Environment(), old(Snapshot()), listed.value, outcome)
      ensures listed.Some? && DistinctRows(listed.value) ==>
        forall i :: 0 <= i < |listed.value| ==>
          TickEffects.Done(host.Environment(), old(Snapshot()), Snapshot(), listed.value[i],
                           outcome(listed.value[i].projectId))
    {
      if listed.None? {
        return;
      }
      var rows := listed.value;
      ghost var e, before := host.Environment(), Snapshot();
      for i := 0 to |rows|
        invariant host.Environment() == e
        invariant TickRows(e, Snapshot(), rows[i..], outcome) == TickRows(e, before, rows, outcome)
      {
        TickOneRow(rows[i], outcome(rows[i].projectId));
      }
      if DistinctRows(rows) {
        TickEffects.TickIsDone(e, before, rows, outcome);
      }
    }

    // The body of the loop.
    method TickOneRow(row: DesiredRow, o: Outcome)
      modifies this`states, this`attempts, host`containers, host`recorded, host`calls
      ensures Snapshot() == TickRow(host.Environment(), old(Snapshot()), row, o)
    {
      var p := row.projectId;
      ghost var e, r := host.Environment(), Snapshot();
      if p !in states {
        states := states[p := ProjectState(0, None)];
      }
      var ps := states[p];
      assert ps == ViewOf(r, p).state;
      if ps.nextRetry.Some? && o.checkAt < ps.nextRetry.value {
        WaitingRow(e, r, row, o);
        return;
      }
      var file := ComposeFile(host.dataDir, row);
      assert ViewOf(Snapshot(), p) == ViewOf(r, p);
      var ok := ReconcileProject(row, file, o);
      AttemptedRow(e, r, row, o);
      attempts := attempts + [Attempt(p, o.checkAt, o.doneAt, ok)];
      if !ok {
        var count := ps.failureCount + 1;
        states := states[p := ProjectState(count, Some(o.doneAt + BackoffDelay(count)))];
      } else {
        states := states[p := ProjectState(0, None)];
      }
      assert states == r.states[p := AfterAttempt(ps, ok, o.doneAt)];
    }
  }
}
