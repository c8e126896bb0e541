/** The hash ledger: renders (internal/daemon/provision.go) and ticks (internal/recon/reconciler.go) interleave
    freely over the disk, Docker, the desired_state table and the combined hashes.

    Every constructor of `Step` is one atomic action of one goroutine. A render writes its files one by one and then
    upserts its hash, or gives up at any point, the upsert included; a tick takes a snapshot of the rows and works
    through it. A tick may call `up` for any running row it holds: whatever it read before deciding is stale by then,
    so nothing is assumed about it. A project's compose directory is named by its project id. */
module Ledger {
  import opened Projects

  datatype File = File(path: string, content: string)

  // `written` files of `files` are on disk; `row` carries the hash to publish. `over`: published or given up.
  datatype Render = Render(row: DesiredRow, files: seq<File>, written: nat, over: bool)

  // `rows[0]` is the row in hand; `upped` says that `up` has returned for it and its hash is not recorded yet.
  datatype Tick = Tick(rows: seq<DesiredRow>, upped: bool)

  datatype State = State(
    disk: map<string, Files>,
    desired: map<string, DesiredRow>,
    recorded: map<string, string>,
    containers: map<string, seq<Container>>,
    renders: seq<Render>,
    ticks: seq<Tick>,
    spoiled: set<string>,           // projects whose directory an abandoned render has touched since the last publish
    history: set<(string, string)>) // every (project, hash) ever published

  const INIT := State(map[], map[], map[], map[], [], [], {}, {})

  datatype Step =
    | BeginRender(row: DesiredRow, files: seq<File>)
    | WriteFile(r: nat)
    | Publish(r: nat)
    | Abandon(r: nat)                        // a write, the Traefik file or the upsert failed
    | SetState(row: DesiredRow)              // start, stop, apply, delete: an upsert with an empty hash
    | PurgeRow(project: string)
    | BeginTick(rows: seq<DesiredRow>)
    | UpSucceeds(t: nat, services: nat)
    | UpFails(t: nat, left: seq<Container>)
    | Record(t: nat)                         // the hash of the snapshot row is stored
    | Advance(t: nat)                        // row skipped, failed or finished; also a lost hash write
    | Down(t: nat, left: seq<Container>)
    | Docker(project: string, left: seq<Container>) // crashes, restarts, removals

  function At<V>(m: map<string, V>, k: string, default: V): V {
    if k in m then m[k] else default
  }

  function DiskOf(s: State, p: string): Files { At(s.disk, p, map[]) }
  function ContainersOf(s: State, p: string): seq<Container> { At(s.containers, p, []) }

  predicate SomeCarries(cs: seq<Container>, config: Files) {
    exists j :: 0 <= j < |cs| && cs[j].config == config
  }

  // A failed `up`, a `down` or Docker itself may stop, restart or drop containers, but every configuration
  // left behind was there before or, for a failed `up`, is the one on disk.
  predicate LeftOver(s: State, p: string, left: seq<Container>, fromDisk: bool) {
    forall i :: 0 <= i < |left| ==>
      || SomeCarries(ContainersOf(s, p), left[i].config)
      || (fromDisk && left[i].config == DiskOf(s, p))
  }

  predicate HoldsRow(s: State, t: nat, state: string) {
    t < |s.ticks| && s.ticks[t].rows != [] && s.ticks[t].rows[0].state == state
  }

  predicate Enabled(s: State, step: Step) {
    match step
    case BeginRender(row, files) => row.configHash != ""
    case WriteFile(r) => r < |s.renders| && !s.renders[r].over && s.renders[r].written < |s.renders[r].files|
    case Publish(r) => r < |s.renders| && !s.renders[r].over && s.renders[r].written == |s.renders[r].files|
    case Abandon(r) => r < |s.renders| && !s.renders[r].over
    case SetState(row) => row.configHash == ""
    case PurgeRow(p) => true
    case BeginTick(rows) => forall i :: 0 <= i < |rows| ==>
      rows[i].projectId in s.desired && rows[i] == s.desired[rows[i].projectId]
    case UpSucceeds(t, services) => HoldsRow(s, t, "running") && !s.ticks[t].upped && services > 0
    case UpFails(t, left) =>
      HoldsRow(s, t, "running") && !s.ticks[t].upped && LeftOver(s, s.ticks[t].rows[0].projectId, left, true)
    case Record(t) => HoldsRow(s, t, "running") && s.ticks[t].upped && s.ticks[t].rows[0].configHash != ""
    case Advance(t) => t < |s.ticks| && s.ticks[t].rows != []
    case Down(t, left) =>
      t < |s.ticks| && s.ticks[t].rows != [] && !s.ticks[t].upped &&
        LeftOver(s, s.ticks[t].rows[0].projectId, left, false)
    case Docker(p, left) => LeftOver(s, p, left, false)
  }

  function Next(s: State, step: Step): State
    requires Enabled(s, step)
  {
    match step
    case BeginRender(row, files) => s.(renders := s.renders + [Render(row, files, 0, false)])
    case WriteFile(r) =>
      var rd := s.renders[r];
      var f := rd.files[rd.written];
      s.(disk := s.disk[rd.row.projectId := DiskOf(s, rd.row.projectId)[f.path := f.content]],
         renders := s.renders[r := rd.(written := rd.written + 1)])
    case Publish(r) =>
      var rd := s.renders[r];
      s.(desired := Upsert(s.desired, rd.row),
         renders := s.renders[r := rd.(over := true)],
         spoiled := s.spoiled - {rd.row.projectId},
         history := s.history + {(rd.row.projectId, rd.row.configHash)})
    case Abandon(r) =>
      var rd := s.renders[r];
      s.(renders := s.renders[r := rd.(over := true)],
         spoiled := if rd.written > 0 then s.spoiled + {rd.row.projectId} else s.spoiled)
    case SetState(row) => s.(desired := Upsert(s.desired, row))
    case PurgeRow(p) => s.(desired := s.desired - {p})
    case BeginTick(rows) => s.(ticks := s.ticks + [Tick(rows, false)])
    case UpSucceeds(t, services) =>
      var p := s.ticks[t].rows[0].projectId;
      s.(containers := s.containers[p := seq(services, _ => Container(DiskOf(s, p), true))],
         ticks := s.ticks[t := s.ticks[t].(upped := true)])
    case UpFails(t, left) =>
      s.(containers := s.containers[s.ticks[t].rows[0].projectId := left],
         ticks := s.ticks[t := Tick(s.ticks[t].rows[1..], false)])
    case Record(t) =>
      var row := s.ticks[t].rows[0];
      s.(recorded := s.recorded[row.projectId := row.configHash],
         ticks := s.ticks[t := Tick(s.ticks[t].rows[1..], false)])
    case Advance(t) => s.(ticks := s.ticks[t := Tick(s.ticks[t].rows[1..], false)])
    case Down(t, left) =>
      s.(containers := s.containers[s.ticks[t].rows[0].projectId := left],
         ticks := s.ticks[t := Tick(s.ticks[t].rows[1..], false)])
    case Docker(p, left) => s.(containers := s.containers[p := left])
  }

  // ---- The property ----

  // A render of `p` that has touched the disk is under way.
  predicate Open(rd: Render, p: string) {
    rd.row.projectId == p && rd.written > 0 && !rd.over
  }

  // Such a render is under way, or one was abandoned and no render of the project has been published since.
  predicate HalfDone(s: State, p: string) {
    p in s.spoiled || exists r :: 0 <= r < |s.renders| && Open(s.renders[r], p)
  }

  predicate Wants(s: State, p: string, h: string) {
    p in s.desired && s.desired[p].configHash == h && h != ""
  }

  predicate Aligned(s: State, p: string) {
    AllCarry(ContainersOf(s, p), DiskOf(s, p))
  }

  // What the reconciler relies on when it skips `up`: recorded == desired means nothing has drifted.
  predicate Sound(s: State, p: string) {
    !HalfDone(s, p) && p in s.recorded && Wants(s, p, s.recorded[p]) ==> Aligned(s, p)
  }

  // Tick `t` stands between its `up` of project `p` and the write of hash `h`.
  predicate Recording(tk: Tick, p: string, h: string) {
    tk.upped && tk.rows != [] && tk.rows[0].state == "running" && tk.rows[0].projectId == p &&
      tk.rows[0].configHash == h
  }

  // `h` is in the ledger already, or about to be written by a tick.
  predicate Held(s: State, p: string, h: string) {
    || (p in s.recorded && s.recorded[p] == h)
    || (exists t :: 0 <= t < |s.ticks| && Recording(s.ticks[t], p, h))
  }

  // The inductive strengthening of Sound: it also speaks of hashes on their way into the ledger.
  predicate Inv(s: State, p: string) {
    !HalfDone(s, p) && p in s.desired && s.desired[p].configHash != "" && Held(s, p, s.desired[p].configHash) ==>
      Aligned(s, p)
  }

  // ---- One step ----

  // Publishing may not bring back a hash that the ledger holds; every other step is unconstrained.
  predicate Careful(s: State, step: Step)
    requires Enabled(s, step)
  {
    step.Publish? ==> var row := s.renders[step.r].row; !Held(s, row.projectId, row.configHash)
  }

  lemma HalfDoneStays(s: State, step: Step, p: string)
    requires Enabled(s, step) && HalfDone(s, p)
    requires step.Publish? ==> s.renders[step.r].row.projectId != p
    ensures HalfDone(Next(s, step), p)
  {
    if p !in s.spoiled {
      var r :| 0 <= r < |s.renders| && Open(s.renders[r], p);
      assert step == Abandon(r) || Open(Next(s, step).renders[r], p);
    }
  }

  lemma HeldShrinks(s: State, step: Step, p: string, h: string)
    requires Enabled(s, step) && !step.UpSucceeds? && !step.Record? && Held(Next(s, step), p, h)
    ensures Held(s, p, h)
  {
    var s' := Next(s, step);
    if !(p in s'.recorded && s'.recorded[p] == h) {
      var t :| 0 <= t < |s'.ticks| && Recording(s'.ticks[t], p, h);
      assert t < |s.ticks| && Recording(s.ticks[t], p, h);
    }
  }

  lemma WriteKeepsInv(s: State, r: nat, p: string)
    requires Enabled(s, WriteFile(r)) && Inv(s, p)
    ensures Inv(Next(s, WriteFile(r)), p)
  {
    var step := WriteFile(r);
    var s' := Next(s, step);
    if s.renders[r].row.projectId == p {
      assert Open(s'.renders[r], p);
    } else if !HalfDone(s', p) {
      if HalfDone(s, p) { HalfDoneStays(s, step, p); }
      if p in s'.desired && Held(s', p, s'.desired[p].configHash) {
        HeldShrinks(s, step, p, s'.desired[p].configHash);
      }
    }
  }

  lemma PublishElsewhereKeepsInv(s: State, r: nat, p: string)
    requires Enabled(s, Publish(r)) && Inv(s, p) && s.renders[r].row.projectId != p
    ensures Inv(Next(s, Publish(r)), p)
  {
    var step := Publish(r);
    var s' := Next(s, step);
    if !HalfDone(s', p) && p in s'.desired && Held(s', p, s'.desired[p].configHash) {
      HeldShrinks(s, step, p, s'.desired[p].configHash);
      if HalfDone(s, p) { HalfDoneStays(s, step, p); }
    }
  }

  lemma PublishKeepsInv(s: State, r: nat, p: string)
    requires Enabled(s, Publish(r)) && Inv(s, p) && Careful(s, Publish(r))
    ensures Inv(Next(s, Publish(r)), p)
  {
    var step := Publish(r);
    var s' := Next(s, step);
    if s.renders[r].row.projectId == p {
      if Held(s', p, s'.desired[p].configHash) {
        HeldShrinks(s, step, p, s'.desired[p].configHash);
      }
    } else {
      PublishElsewhereKeepsInv(s, r, p);
    }
  }

  lemma UpKeepsInv(s: State, t: nat, services: nat, p: string)
    requires Enabled(s, UpSucceeds(t, services)) && Inv(s, p)
    ensures Inv(Next(s, UpSucceeds(t, services)), p)
  {
    var s' := Next(s, UpSucceeds(t, services));
    if s.ticks[t].rows[0].projectId != p && p in s'.desired && Held(s', p, s'.desired[p].configHash) {
      var h := s'.desired[p].configHash;
      if !(p in s'.recorded && s'.recorded[p] == h) {
        var k :| 0 <= k < |s'.ticks| && Recording(s'.ticks[k], p, h);
        assert Recording(s.ticks[k], p, h);
      }
    }
  }

  lemma RecordKeepsInv(s: State, t: nat, p: string)
    requires Enabled(s, Record(t)) && Inv(s, p)
    ensures Inv(Next(s, Record(t)), p)
  {
    var s' := Next(s, Record(t));
    if p in s'.desired && Held(s', p, s'.desired[p].configHash) {
      var h := s'.desired[p].configHash;
      if p in s'.recorded && s'.recorded[p] == h {
        if s.ticks[t].rows[0].projectId == p {
          assert Recording(s.ticks[t], p, h);
        }
      } else {
        var k :| 0 <= k < |s'.ticks| && Recording(s'.ticks[k], p, h);
        assert Recording(s.ticks[k], p, h);
      }
    }
  }

  lemma OtherStepsKeepInv(s: State, step: Step, p: string)
    requires Enabled(s, step) && Inv(s, p)
    requires !step.WriteFile? && !step.Publish? && !step.UpSucceeds? && !step.Record?
    ensures Inv(Next(s, step), p)
  {
    var s' := Next(s, step);
    if !HalfDone(s', p) && p in s'.desired && s'.desired[p].configHash != "" && Held(s', p, s'.desired[p].configHash) {
      HeldShrinks(s, step, p, s'.desired[p].configHash);
      if HalfDone(s, p) { HalfDoneStays(s, step, p); }
      assert p in s.desired && s.desired[p].configHash == s'.desired[p].configHash;
      assert Aligned(s, p);
    }
  }

  lemma StepKeepsInv(s: State, step: Step, p: string)
    requires Enabled(s, step) && Careful(s, step) && Inv(s, p)
    ensures Inv(Next(s, step), p)
  {
    match step
    case WriteFile(r) => WriteKeepsInv(s, r, p);
    case Publish(r) => PublishKeepsInv(s, r, p);
    case UpSucceeds(t, services) => UpKeepsInv(s, t, services, p);
    case Record(t) => RecordKeepsInv(s, t, p);
    case _ => OtherStepsKeepInv(s, step, p);
  }

  // ---- Runs ----

  predicate Runs(s: State, steps: seq<Step>)
    decreases |steps|
  {
    steps == [] || (Enabled(s, steps[0]) && Runs(Next(s, steps[0]), steps[1..]))
  }

  function After(s: State, steps: seq<Step>): State
    requires Runs(s, steps)
    decreases |steps|
  {
    if steps == [] then s else After(Next(s, steps[0]), steps[1..])
  }

  // No render publishes a hash its project has published before.
  predicate Fresh(s: State, steps: seq<Step>)
    requires Runs(s, steps)
    decreases |steps|
  {
    || steps == []
    || (&& (steps[0].Publish? ==> var row := s.renders[steps[0].r].row; (row.projectId, row.configHash) !in s.history)
        && Fresh(Next(s, steps[0]), steps[1..]))
  }

  // Every hash in circulation was published at some time.
  predicate Accounted(s: State) {
    && (forall r :: 0 <= r < |s.renders| ==> s.renders[r].row.configHash != "")
    && (forall p :: p in s.desired ==> s.desired[p].projectId == p && Known(s, s.desired[p]))
    && (forall p :: p in s.recorded ==> (p, s.recorded[p]) in s.history)
    && TicksKnown(s)
  }

  predicate Known(s: State, row: DesiredRow) {
    row.configHash != "" ==> (row.projectId, row.configHash) in s.history
  }

  predicate TicksKnown(s: State) {
    forall t, i :: 0 <= t < |s.ticks| && 0 <= i < |s.ticks[t].rows| ==> Known(s, s.ticks[t].rows[i])
  }

  lemma StepKeepsTicksKnown(s: State, step: Step)
    requires Enabled(s, step) && Accounted(s)
    ensures TicksKnown(Next(s, step))
  {
    var s' := Next(s, step);
    forall t, i | 0 <= t < |s'.ticks| && 0 <= i < |s'.ticks[t].rows| ensures Known(s', s'.ticks[t].rows[i]) {
      if t < |s.ticks| {
        var k := |s.ticks[t].rows| - |s'.ticks[t].rows|;
        assert s'.ticks[t].rows[i] == s.ticks[t].rows[i + k];
      }
    }
  }

  lemma StepKeepsAccounted(s: State, step: Step)
    requires Enabled(s, step) && Accounted(s)
    ensures Accounted(Next(s, step))
  {
    StepKeepsTicksKnown(s, step);
  }

  lemma HeldIsKnown(s: State, p: string, h: string)
    requires Accounted(s) && Held(s, p, h) && h != ""
    ensures (p, h) in s.history
  {
    if !(p in s.recorded && s.recorded[p] == h) {
      var t :| 0 <= t < |s.ticks| && Recording(s.ticks[t], p, h);
      assert Known(s, s.ticks[t].rows[0]);
    }
  }

  // Main theorem: with fresh hashes, no interleaving of renders and overlapping ticks, no failure and no
  // container crash makes the ledger claim "unchanged" about a project whose containers run other files.
  lemma {:induction false} FreshRunsAreSound(s: State, steps: seq<Step>, p: string)
    requires Runs(s, steps) && Fresh(s, steps) && Accounted(s) && Inv(s, p)
    ensures Inv(After(s, steps), p) && Sound(After(s, steps), p)
    decreases |steps|
  {
    if steps != [] {
      if steps[0].Publish? {
        var row := s.renders[steps[0].r].row;
        if Held(s, row.projectId, row.configHash) {
          HeldIsKnown(s, row.projectId, row.configHash);
        }
      }
      StepKeepsInv(s, steps[0], p);
      StepKeepsAccounted(s, steps[0]);
      FreshRunsAreSound(Next(s, steps[0]), steps[1..], p);
    }
  }

  lemma LedgerIsSound(steps: seq<Step>, p: string)
    requires Runs(INIT, steps) && Fresh(INIT, steps)
    ensures Sound(After(INIT, steps), p)
  {
    FreshRunsAreSound(INIT, steps, p);
  }

  // ---- When hashes come back ----

  // Sound now, and whichever tick writes its hash next.
  predicate SoundSoon(s: State, p: string) {
    && Sound(s, p)
    && forall t: nat :: t < |s.ticks| && Enabled(s, Record(t)) ==> Sound(Next(s, Record(t)), p)
  }

  // Inv is not an over-approximation: it fails only where the ledger is wrong, or wrong one hash write later.
  lemma InvIff(s: State, p: string)
    ensures Inv(s, p) <==> SoundSoon(s, p)
  {
    if Inv(s, p) {
      forall t: nat | t < |s.ticks| && Enabled(s, Record(t)) ensures Sound(Next(s, Record(t)), p) {
        RecordKeepsInv(s, t, p);
      }
    } else if Sound(s, p) {
      var h := s.desired[p].configHash;
      var t :| 0 <= t < |s.ticks| && Recording(s.ticks[t], p, h);
      assert Enabled(s, Record(t));
      var s' := Next(s, Record(t));
      assert !Sound(s', p);
    }
  }

  // The exact price of a hash coming back: when the last open render of a project publishes `h`, the ledger stays
  // right if and only if no tick holds `h` or the containers happen to run the new files already.
  lemma PublishIsSafeIff(s: State, r: nat, p: string)
    requires Enabled(s, Publish(r)) && s.renders[r].row.projectId == p && s.renders[r].row.configHash != ""
    requires Inv(s, p) && !HalfDone(Next(s, Publish(r)), p)
    ensures SoundSoon(Next(s, Publish(r)), p) <==> !Held(s, p, s.renders[r].row.configHash) || Aligned(s, p)
  {
    var s' := Next(s, Publish(r));
    var h := s.renders[r].row.configHash;
    InvIff(s', p);
    assert s'.desired[p].configHash == h;
    if Held(s', p, h) {
      HeldShrinks(s, Publish(r), p, h);
    }
    if Held(s, p, h) && !(p in s.recorded && s.recorded[p] == h) {
      var t :| 0 <= t < |s.ticks| && Recording(s.ticks[t], p, h);
      assert Recording(s'.ticks[t], p, h);
    }
  }

  // A publish of `p` that ends the half-done time of `p`.
  predicate Closes(s: State, step: Step, p: string)
    requires Enabled(s, step)
  {
    step.Publish? && s.renders[step.r].row.projectId == p && !HalfDone(Next(s, step), p)
  }

  // Every such publish of the run brings a hash that nobody holds, or finds the containers on the new files.
  predicate ClosesWell(s: State, steps: seq<Step>, p: string)
    requires Runs(s, steps)
    decreases |steps|
  {
    || steps == []
    || (&& (Closes(s, steps[0], p) ==> !Held(s, p, s.renders[steps[0].r].row.configHash) || Aligned(s, p))
        && ClosesWell(Next(s, steps[0]), steps[1..], p))
  }

  predicate AlwaysSound(s: State, steps: seq<Step>, p: string)
    requires Runs(s, steps)
    decreases |steps|
  {
    SoundSoon(s, p) && (steps != [] ==> AlwaysSound(Next(s, steps[0]), steps[1..], p))
  }

  lemma OtherStepsStaySound(s: State, step: Step, p: string)
    requires Enabled(s, step) && Inv(s, p) && !Closes(s, step, p)
    ensures Inv(Next(s, step), p)
  {
    if step.Publish? && s.renders[step.r].row.projectId != p {
      PublishElsewhereKeepsInv(s, step.r, p);
    } else if !step.Publish? {
      StepKeepsInv(s, step, p);
    }
  }

  // Main theorem without any assumption on hashes: every state of a run is right about `p`, now and after any
  // pending hash write, if and only if every closing publish of `p` meets the condition of PublishIsSafeIff.
  lemma {:induction false} RunIsSoundIff(s: State, steps: seq<Step>, p: string)
    requires Runs(s, steps) && Accounted(s) && Inv(s, p)
    ensures AlwaysSound(s, steps, p) <==> ClosesWell(s, steps, p)
    decreases |steps|
  {
    InvIff(s, p);
    if steps != [] {
      var s' := Next(s, steps[0]);
      InvIff(s', p);
      StepKeepsAccounted(s, steps[0]);
      if Closes(s, steps[0], p) {
        PublishIsSafeIff(s, steps[0].r, p);
      } else {
        OtherStepsStaySound(s, steps[0], p);
      }
      if Inv(s', p) {
        RunIsSoundIff(s', steps[1..], p);
      }
    }
  }

  lemma {:induction false} RunsAppend(s: State, a: seq<Step>, b: seq<Step>)
    requires Runs(s, a) && Runs(After(s, a), b)
    ensures Runs(s, a + b) && After(s, a + b) == After(After(s, a), b)
    decreases |a|
  {
    if a == [] {
      assert a + b == b;
    } else {
      assert (a + b)[1..] == a[1..] + b;
      RunsAppend(Next(s, a[0]), a[1..], b);
    }
  }

  lemma RunOne(s: State, step: Step)
    requires Enabled(s, step)
    ensures Runs(s, [step]) && After(s, [step]) == Next(s, step)
  {
    assert [step][1..] == [];
    assert Runs(Next(s, step), []);
  }

  // An undisturbed render of one file.
  lemma RenderOneFile(s: State, row: DesiredRow, f: File) returns (steps: seq<Step>, s': State)
    requires row.configHash != ""
    ensures Runs(s, steps) && After(s, steps) == s'
    ensures s'.disk == s.disk[row.projectId := DiskOf(s, row.projectId)[f.path := f.content]]
    ensures s'.desired == Upsert(s.desired, row)
    ensures s'.recorded == s.recorded && s'.containers == s.containers && s'.ticks == s.ticks
    ensures s'.renders == s.renders + [Render(row, [f], 1, true)] && s'.spoiled == s.spoiled - {row.projectId}
  {
    var r := |s.renders|;
    var s1 := Next(s, BeginRender(row, [f]));
    var s2 := Next(s1, WriteFile(r));
    s' := Next(s2, Publish(r));
    RunOne(s, BeginRender(row, [f]));
    RunOne(s1, WriteFile(r));
    RunOne(s2, Publish(r));
    RunsAppend(s, [BeginRender(row, [f])], [WriteFile(r)]);
    steps := [BeginRender(row, [f])] + [WriteFile(r)] + [Publish(r)];
    RunsAppend(s, [BeginRender(row, [f])] + [WriteFile(r)], [Publish(r)]);
  }

  // A tick that takes a snapshot of one running row and brings it up; its hash is not written yet.
  lemma TickUps(s: State, row: DesiredRow) returns (steps: seq<Step>, s': State)
    requires row.projectId in s.desired && s.desired[row.projectId] == row && row.state == "running"
    ensures Runs(s, steps) && After(s, steps) == s'
    ensures var up := seq(1, _ => Container(DiskOf(s, row.projectId), true));
            s' == s.(containers := s.containers[row.projectId := up], ticks := s.ticks + [Tick([row], true)])
  {
    var t := |s.ticks|;
    var s1 := Next(s, BeginTick([row]));
    s' := Next(s1, UpSucceeds(t, 1));
    RunOne(s, BeginTick([row]));
    RunOne(s1, UpSucceeds(t, 1));
    steps := [BeginTick([row])] + [UpSucceeds(t, 1)];
    RunsAppend(s, [BeginTick([row])], [UpSucceeds(t, 1)]);
  }

  const ROW_A := DesiredRow("p", "t", "", "running", "hashA")
  const ROW_B := DesiredRow("p", "t", "", "running", "hashB")

  // A tick brings configuration A up and pauses; a second tick brings B up and pauses.
  lemma TwoTicksPaused() returns (steps: seq<Step>, s: State)
    ensures Runs(INIT, steps) && After(INIT, steps) == s && Paused(s)
  {
    var steps1, s1 := RenderOneFile(INIT, ROW_A, File("f", "A"));
    var steps2, s2 := TickUps(s1, ROW_A);
    RunsAppend(INIT, steps1, steps2);
    var steps3, s3 := RenderOneFile(s2, ROW_B, File("f", "B"));
    RunsAppend(INIT, steps1 + steps2, steps3);
    var steps4, s4 := TickUps(s3, ROW_B);
    RunsAppend(INIT, steps1 + steps2 + steps3, steps4);
    steps, s := steps1 + steps2 + steps3 + steps4, s4;
    assert DiskOf(s1, "p") == map["f" := "A"];
  }

  predicate Paused(s: State) {
    && s.desired == map["p" := ROW_B] && s.recorded == map[]
    && s.ticks == [Tick([ROW_A], true), Tick([ROW_B], true)]
    && |ContainersOf(s, "p")| == 1 && ContainersOf(s, "p")[0].config == map["f" := "B"] == DiskOf(s, "p")
    && s.spoiled == {} && forall r :: 0 <= r < |s.renders| ==> s.renders[r].over
  }

  lemma ReuseFromPaused(s1: State) returns (steps: seq<Step>)
    requires Paused(s1)
    ensures Runs(s1, steps) && !Sound(After(s1, steps), "p")
    ensures forall t :: 0 <= t < |After(s1, steps).ticks| ==> After(s1, steps).ticks[t].rows == []
  {
    var s2 := Next(s1, Record(1));
    RunOne(s1, Record(1));
    var steps3, s3 := RenderOneFile(s2, ROW_A, File("f", "A"));
    RunsAppend(s1, [Record(1)], steps3);
    var end := Next(s3, Record(0));
    RunOne(s3, Record(0));
    RunsAppend(s1, [Record(1)] + steps3, [Record(0)]);
    steps := [Record(1)] + steps3 + [Record(0)];
    assert DiskOf(end, "p")["f"] == "A";
    assert ContainersOf(end, "p")[0].config["f"] == "B";
    assert !HalfDone(end, "p");
  }

  // Going back to an earlier configuration while an old tick is between `up` and its hash write: contents A, B
  // and A again are rendered, the containers run B, both hashes say A, and no tick is left to repair it.
  lemma ReusedHashBreaksTheLedger() returns (steps: seq<Step>)
    ensures Runs(INIT, steps) && !Sound(After(INIT, steps), "p")
    ensures forall t :: 0 <= t < |After(INIT, steps).ticks| ==> After(INIT, steps).ticks[t].rows == []
  {
    var steps1, s1 := TwoTicksPaused();
    var steps2 := ReuseFromPaused(s1);
    RunsAppend(INIT, steps1, steps2);
    steps := steps1 + steps2;
  }
}
