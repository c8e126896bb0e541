/** The ingest ring buffer (services/ingest/main.go) under every interleaving of its lock regions.

    Any number of flushes may be between taking a batch and hearing from the database. An insert is all or nothing. */
module IngestMachine {

  // `inflight` holds the batches taken and not answered yet, oldest first; the other fields grow over time.
  datatype State<T> = State(received: seq<T>, persisted: seq<T>, inflight: seq<seq<T>>, ring: seq<T>)

  datatype Step<T> =
    | Arrive(row: T)      // handleMessage, append under ringMu
    | Take                // flushNow, swap under ringMu; size flush, ticker flush and drain alike
    | InsertOk(i: nat)
    | InsertFail(i: nat)  // flushNow, prepend under ringMu

  function Init<T>(): State<T> { State([], [], [], []) }

  predicate Enabled<T>(s: State<T>, step: Step<T>) {
    match step
    case Arrive(_) => true
    case Take => s.ring != []
    case InsertOk(i) => i < |s.inflight|
    case InsertFail(i) => i < |s.inflight|
  }

  function Next<T>(s: State<T>, step: Step<T>): State<T>
    requires Enabled(s, step)
  {
    match step
    case Arrive(row) => s.(received := s.received + [row], ring := s.ring + [row])
    case Take => s.(inflight := s.inflight + [s.ring], ring := [])
    case InsertOk(i) => s.(persisted := s.persisted + s.inflight[i], inflight := s.inflight[..i] + s.inflight[i + 1..])
    case InsertFail(i) => s.(ring := s.inflight[i] + s.ring, inflight := s.inflight[..i] + s.inflight[i + 1..])
  }

  predicate Runs<T>(s: State<T>, steps: seq<Step<T>>)
    decreases |steps|
  {
    steps == [] || (Enabled(s, steps[0]) && Runs(Next(s, steps[0]), steps[1..]))
  }

  function After<T>(s: State<T>, steps: seq<Step<T>>): State<T>
    requires Runs(s, steps)
    decreases |steps|
  {
    if steps == [] then s else After(Next(s, steps[0]), steps[1..])
  }

  function Flatten<T>(batches: seq<seq<T>>): seq<T> {
    if batches == [] then [] else batches[0] + Flatten(batches[1..])
  }

  lemma {:induction false} FlattenAppend<T>(a: seq<seq<T>>, b: seq<seq<T>>)
    ensures Flatten(a + b) == Flatten(a) + Flatten(b)
  {
    if a == [] {
      assert a + b == b;
    } else {
      assert (a + b)[1..] == a[1..] + b;
      FlattenAppend(a[1..], b);
    }
  }

  lemma FlattenOne<T>(b: seq<T>)
    ensures Flatten([b]) == b
  {
    assert [b][1..] == [];
  }

  lemma FlattenSplit<T>(bs: seq<seq<T>>, i: nat)
    requires i < |bs|
    ensures Flatten(bs) == Flatten(bs[..i]) + Flatten(bs[i..])
    ensures Flatten(bs[i..]) == bs[i] + Flatten(bs[i + 1..])
  {
    FlattenAppend(bs[..i], bs[i..]);
    assert bs[..i] + bs[i..] == bs;
    assert bs[i..][1..] == bs[i + 1..];
  }

  // The rows in flight before batch i, batch i, and after it.
  lemma FlattenAt<T>(bs: seq<seq<T>>, i: nat)
    requires i < |bs|
    ensures Flatten(bs) == Flatten(bs[..i]) + bs[i] + Flatten(bs[i + 1..])
    ensures Flatten(bs[..i] + bs[i + 1..]) == Flatten(bs[..i]) + Flatten(bs[i + 1..])
  {
    FlattenSplit(bs, i);
    Regroup(Flatten(bs), Flatten(bs[..i]), Flatten(bs[i..]), bs[i], Flatten(bs[i + 1..]));
    FlattenAppend(bs[..i], bs[i + 1..]);
  }

  lemma Regroup<T>(all: seq<T>, a: seq<T>, tail: seq<T>, b: seq<T>, c: seq<T>)
    requires all == a + tail && tail == b + c
    ensures all == a + b + c
  {
  }

  // ---- Conservation ----

  ghost predicate Conserved<T>(s: State<T>) {
    multiset(s.received) == multiset(s.persisted) + multiset(Flatten(s.inflight)) + multiset(s.ring)
  }

  lemma StepConserves<T>(s: State<T>, step: Step<T>)
    requires Enabled(s, step) && Conserved(s)
    ensures Conserved(Next(s, step))
  {
    match step
    case Arrive(row) =>
    case Take =>
      FlattenAppend(s.inflight, [s.ring]);
      FlattenOne(s.ring);
    case InsertOk(i) => AnsweredCounts(s.inflight, i);
    case InsertFail(i) => AnsweredCounts(s.inflight, i);
  }

  lemma AnsweredCounts<T>(bs: seq<seq<T>>, i: nat)
    requires i < |bs|
    ensures multiset(Flatten(bs)) == multiset(bs[i]) + multiset(Flatten(bs[..i] + bs[i + 1..]))
  {
    FlattenAt(bs, i);
  }

  lemma {:induction false} RunConserves<T>(s: State<T>, steps: seq<Step<T>>)
    requires Runs(s, steps) && Conserved(s)
    ensures Conserved(After(s, steps))
    decreases |steps|
  {
    if steps != [] {
      StepConserves(s, steps[0]);
      RunConserves(Next(s, steps[0]), steps[1..]);
    }
  }

  // No row is lost and none is duplicated, in any interleaving, with any number of flushes in flight.
  lemma NoRowIsLost<T>(steps: seq<Step<T>>)
    requires Runs(Init(), steps)
    ensures Conserved(After(Init(), steps))
  {
    assert Conserved(Init<T>());
    RunConserves(Init(), steps);
  }

  // ---- Order ----

  // The rows in the order in which the process holds them: stored, in flight, waiting.
  function Line<T>(s: State<T>): seq<T> {
    s.persisted + Flatten(s.inflight) + s.ring
  }

  ghost predicate InOrder<T>(s: State<T>) {
    Line(s) == s.received
  }

  lemma ArriveAndTakeKeepOrder<T>(s: State<T>, step: Step<T>)
    requires Enabled(s, step) && (step.Arrive? || step.Take?)
    ensures InOrder(Next(s, step)) <==> InOrder(s)
  {
    if step.Take? {
      FlattenAppend(s.inflight, [s.ring]);
      FlattenOne(s.ring);
      assert Line(Next(s, step)) == Line(s);
    } else {
      var s' := Next(s, step);
      assert Line(s') == Line(s) + [step.row];
      if InOrder(s') {
        assert Line(s) == Line(s')[..|Line(s')| - 1] && s.received == s'.received[..|s'.received| - 1];
      }
    }
  }

  // A success overtakes the older batches; the order survives exactly if that makes no difference.
  lemma InsertOkKeepsOrderIff<T>(s: State<T>, i: nat)
    requires Enabled(s, InsertOk(i)) && InOrder(s)
    ensures InOrder(Next(s, InsertOk(i))) <==>
      s.inflight[i] + Flatten(s.inflight[..i]) == Flatten(s.inflight[..i]) + s.inflight[i]
  {
    FlattenAt(s.inflight, i);
    var older, b, newer := Flatten(s.inflight[..i]), s.inflight[i], Flatten(s.inflight[i + 1..]);
    assert Line(s) == s.persisted + (older + b) + (newer + s.ring);
    assert Line(Next(s, InsertOk(i))) == s.persisted + (b + older) + (newer + s.ring);
    SamePrefix(s.persisted, older + b, b + older, newer + s.ring);
  }

  // A failure falls back behind the newer batches; again the order survives exactly if that makes no difference.
  lemma InsertFailKeepsOrderIff<T>(s: State<T>, i: nat)
    requires Enabled(s, InsertFail(i)) && InOrder(s)
    ensures InOrder(Next(s, InsertFail(i))) <==>
            s.inflight[i] + Flatten(s.inflight[i + 1..]) == Flatten(s.inflight[i + 1..]) + s.inflight[i]
  {
    FlattenAt(s.inflight, i);
    var older, b, newer := Flatten(s.inflight[..i]), s.inflight[i], Flatten(s.inflight[i + 1..]);
    assert Line(s) == (s.persisted + older) + (b + newer) + s.ring;
    assert Line(Next(s, InsertFail(i))) == (s.persisted + older) + (newer + b) + s.ring;
    SamePrefix(s.persisted + older, b + newer, newer + b, s.ring);
  }

  lemma SamePrefix<T>(a: seq<T>, x: seq<T>, y: seq<T>, c: seq<T>)
    requires |x| == |y|
    ensures a + x + c == a + y + c <==> x == y
  {
    if a + x + c == a + y + c {
      assert x == (a + x + c)[|a|..|a| + |x|];
      assert y == (a + y + c)[|a|..|a| + |y|];
    }
  }

  // No flush begins while another is unanswered.
  predicate OneFlusher<T>(s: State<T>, steps: seq<Step<T>>)
    requires Runs(s, steps)
    decreases |steps|
  {
    steps == [] || ((steps[0].Take? ==> s.inflight == []) && OneFlusher(Next(s, steps[0]), steps[1..]))
  }

  lemma {:induction false} OneFlusherRun<T>(s: State<T>, steps: seq<Step<T>>)
    requires Runs(s, steps) && OneFlusher(s, steps) && InOrder(s) && |s.inflight| <= 1
    ensures InOrder(After(s, steps)) && |After(s, steps).inflight| <= 1
    decreases |steps|
  {
    if steps != [] {
      match steps[0] {
        case InsertOk(i) => InsertOkKeepsOrderIff(s, i);
        case InsertFail(i) => InsertFailKeepsOrderIff(s, i);
        case _ => ArriveAndTakeKeepOrder(s, steps[0]);
      }
      OneFlusherRun(Next(s, steps[0]), steps[1..]);
    }
  }

  // First in, first out: with one flush at a time, whatever fails or arrives meanwhile, the stored rows are a
  // prefix of the received ones, followed by the batch in flight and the ring.
  lemma FirstInFirstOut<T>(steps: seq<Step<T>>)
    requires Runs(Init(), steps) && OneFlusher(Init(), steps)
    ensures InOrder(After(Init(), steps))
  {
    OneFlusherRun(Init(), steps);
  }

  // A drain that begins with nothing in flight and whose insert succeeds stores everything, in order.
  lemma DrainStoresEverything<T>(steps: seq<Step<T>>)
    requires Runs(Init(), steps) && OneFlusher(Init(), steps) && After(Init(), steps).inflight == []
    ensures var s := After(Init(), steps);
            if s.ring == [] then s.persisted == s.received
            else Next(Next(s, Take), InsertOk(0)).persisted == s.received
  {
    FirstInFirstOut(steps);
    var s := After(Init(), steps);
    assert Line(s) == s.persisted + s.ring;
  }

  // ---- The shutdown drain under interference ----

  predicate Answers<T>(k: nat, step: Step<T>) {
    (step.InsertOk? || step.InsertFail?) && step.i == k
  }

  // The answer for an older batch moves the batch at place `k` up.
  function Shift<T>(k: nat, step: Step<T>): nat {
    if (step.InsertOk? || step.InsertFail?) && step.i < k then k - 1 else k
  }

  // None of the steps answers the batch that starts at place `k`.
  predicate Waits<T>(k: nat, steps: seq<Step<T>>) {
    steps == [] || (!Answers(k, steps[0]) && Waits(Shift(k, steps[0]), steps[1..]))
  }

  function PlaceAfter<T>(k: nat, steps: seq<Step<T>>): nat {
    if steps == [] then k else PlaceAfter(Shift(k, steps[0]), steps[1..])
  }

  // What is stored stays stored, and no batch in flight is empty.
  lemma {:induction false} StoredStays<T>(s: State<T>, steps: seq<Step<T>>)
    requires Runs(s, steps) && [] !in s.inflight
    ensures s.persisted <= After(s, steps).persisted && [] !in After(s, steps).inflight
    decreases |steps|
  {
    if steps != [] {
      StoredStays(Next(s, steps[0]), steps[1..]);
    }
  }

  lemma {:induction false} BatchWaits<T>(s: State<T>, steps: seq<Step<T>>, k: nat)
    requires Runs(s, steps) && k < |s.inflight| && Waits(k, steps)
    ensures var s', k' := After(s, steps), PlaceAfter(k, steps); k' < |s'.inflight| && s'.inflight[k'] == s.inflight[k]
    decreases |steps|
  {
    if steps != [] {
      BatchWaits(Next(s, steps[0]), steps[1..], Shift(k, steps[0]));
    }
  }

  // A drain after the steps `before`: with an empty ring it returns at once; otherwise it swaps the ring out, other
  // goroutines take the steps `during`, and then its insert succeeds.
  predicate Drains<T>(before: seq<Step<T>>, during: seq<Step<T>>) {
    Runs(Init(), before) &&
    var s := After(Init(), before);
    if s.ring == [] then during == [] else Runs(Next(s, Take), during) && Waits(|s.inflight|, during)
  }

  lemma DrainHasBatch<T>(before: seq<Step<T>>, during: seq<Step<T>>)
    requires Drains(before, during) && After(Init(), before).ring != []
    ensures var s := After(Init(), before);
            var x, k := After(Next(s, Take), during), PlaceAfter(|s.inflight|, during);
            k < |x.inflight| && x.inflight[k] == s.ring
  {
    var s := After(Init(), before);
    BatchWaits(Next(s, Take), during, |s.inflight|);
  }

  // The state at the end of the drain.
  function Drained<T>(before: seq<Step<T>>, during: seq<Step<T>>): State<T>
    requires Drains(before, during)
  {
    var s := After(Init(), before);
    if s.ring == [] then s
    else
      DrainHasBatch(before, during);
      Next(After(Next(s, Take), during), InsertOk(PlaceAfter(|s.inflight|, during)))
  }

  lemma FlattenIsEmptyIff<T>(bs: seq<seq<T>>)
    requires [] !in bs
    ensures Flatten(bs) == [] <==> bs == []
  {
    if bs != [] {
      assert bs[0] in bs;
      assert |Flatten(bs)| >= |bs[0]|;
    }
  }

  lemma DrainConserves<T>(before: seq<Step<T>>, during: seq<Step<T>>)
    requires Drains(before, during)
    ensures Conserved(Drained(before, during))
  {
    NoRowIsLost(before);
    var s := After(Init(), before);
    if s.ring != [] {
      DrainHasBatch(before, during);
      StepConserves(s, Take);
      RunConserves(Next(s, Take), during);
      StepConserves(After(Next(s, Take), during), InsertOk(PlaceAfter(|s.inflight|, during)));
    }
  }

  // The batch goes behind what was stored before.
  lemma DrainStores<T>(before: seq<Step<T>>, during: seq<Step<T>>)
    requires Drains(before, during)
    ensures var s, end := After(Init(), before), Drained(before, during);
            && [] !in end.inflight && s.persisted <= end.persisted
            && multiset(s.persisted) + multiset(s.ring) <= multiset(end.persisted)
  {
    StoredStays(Init(), before);
    var s := After(Init(), before);
    if s.ring != [] {
      DrainHasBatch(before, during);
      StoredStays(Next(s, Take), during);
      var x := After(Next(s, Take), during);
      PrefixCounts(s.persisted, x.persisted);
    }
  }

  lemma PrefixCounts<T>(a: seq<T>, b: seq<T>)
    requires a <= b
    ensures multiset(a) <= multiset(b)
  {
    assert b == a + b[|a|..];
  }

  // Main theorem on the drain: whatever happens between its swap and its answer, it stores all that the ring held
  // at the swap, and what is missing at its end is exactly what other flushes have in flight and what has arrived or
  // fallen back into the ring meanwhile. So it is complete if and only if there is no other flush and an empty ring.
  lemma DrainIsCompleteIff<T>(before: seq<Step<T>>, during: seq<Step<T>>)
    requires Drains(before, during)
    ensures var s, end := After(Init(), before), Drained(before, during);
            && multiset(s.persisted) + multiset(s.ring) <= multiset(end.persisted)
            && multiset(end.received) == multiset(end.persisted) + multiset(Flatten(end.inflight)) + multiset(end.ring)
            && (multiset(end.persisted) == multiset(end.received) <==> end.inflight == [] && end.ring == [])
  {
    DrainConserves(before, during);
    DrainStores(before, during);
    var end := Drained(before, during);
    FlattenIsEmptyIff(end.inflight);
    var left := Flatten(end.inflight);
    assert |multiset(left)| == |left| && |multiset(end.ring)| == |end.ring|;
    assert |multiset(end.received)| == |multiset(end.persisted)| + |left| + |end.ring|;
  }

  // From an empty ring on, without a new flush, the ring is empty at the end exactly if nothing arrives and nothing
  // fails; every step is then the success of a batch in flight.
  lemma {:induction false} RingStaysEmptyIff<T>(s: State<T>, steps: seq<Step<T>>)
    requires Runs(s, steps) && [] !in s.inflight && forall i :: 0 <= i < |steps| ==> !steps[i].Take?
    ensures After(s, steps).ring == [] <==> s.ring == [] && forall i :: 0 <= i < |steps| ==> steps[i].InsertOk?
    ensures After(s, steps).ring == [] ==> |After(s, steps).inflight| == |s.inflight| - |steps|
    decreases |steps|
  {
    if steps != [] {
      var s' := Next(s, steps[0]);
      if steps[0].InsertFail? {
        assert s.inflight[steps[0].i] in s.inflight;
      }
      RingStaysEmptyIff(s', steps[1..]);
      assert forall i :: 0 < i < |steps| ==> steps[i] == steps[1..][i - 1];
      assert steps[0].InsertOk? && (forall i :: 0 <= i < |steps[1..]| ==> steps[1..][i].InsertOk?) ==>
        forall i :: 0 <= i < |steps| ==> steps[i].InsertOk?;
    }
  }

  // The same seen from the schedule: a drain that finds rows and during which no other flush begins is complete if
  // and only if all that happens meanwhile is that every batch in flight at its start is stored.
  lemma DrainIsCompleteForScheduleIff<T>(before: seq<Step<T>>, during: seq<Step<T>>)
    requires Drains(before, during) && After(Init(), before).ring != []
    requires forall i :: 0 <= i < |during| ==> !during[i].Take?
    ensures var s, end := After(Init(), before), Drained(before, during);
            multiset(end.persisted) == multiset(end.received) <==>
            |during| == |s.inflight| && forall i :: 0 <= i < |during| ==> during[i].InsertOk?
  {
    DrainIsCompleteIff(before, during);
    StoredStays(Init(), before);
    var s := After(Init(), before);
    DrainHasBatch(before, during);
    RingStaysEmptyIff(Next(s, Take), during);
  }

  // A row that arrives while the drain waits for the database is not stored.
  lemma ArrivalDuringDrainIsMissed<T>(a: T, b: T)
    ensures Drains([Arrive(a)], [Arrive(b)])
    ensures Drained([Arrive(a)], [Arrive(b)]).received == [a, b] && Drained([Arrive(a)], [Arrive(b)]).persisted == [a]
  {
    var s := Next(Init(), Arrive(a));
    var one, two := [Arrive(a)], [Arrive(b)];
    assert one[1..] == [] && two[1..] == [];
    assert Runs(s, []) && After(Init(), one) == s;
    var s1 := Next(s, Take);
    var s2 := Next(s1, Arrive(b));
    assert Runs(s2, []) && After(s1, two) == s2 && Waits(0, two[1..]) && PlaceAfter(0, two) == 0;
  }

  lemma TwoInFlight<T>(a: T, b: T, rest: seq<Step<T>>) returns (steps: seq<Step<T>>)
    requires Runs(State([a, b], [], [[a], [b]], []), rest)
    ensures Runs(Init(), steps) && After(Init(), steps) == After(State([a, b], [], [[a], [b]], []), rest)
  {
    var s1 := Next(Init(), Arrive(a));
    assert s1.received == [a] && s1.ring == [a] && s1.inflight == [];
    var s2 := Next(s1, Take);
    assert s2.inflight == [[a]] && s2.ring == [];
    var s3 := Next(s2, Arrive(b));
    assert s3.received == [a, b] && s3.ring == [b];
    assert Next(s3, Take).inflight == [[a], [b]];
    steps := RunsCons(s3, Take, rest);
    steps := RunsCons(s2, Arrive(b), steps);
    steps := RunsCons(s1, Take, steps);
    steps := RunsCons(Init(), Arrive(a), steps);
  }

  // Two flushes at once may store rows out of order: the second batch is answered first.
  lemma TwoFlushersReorder<T>(a: T, b: T) returns (steps: seq<Step<T>>)
    requires a != b
    ensures Runs(Init(), steps) && !InOrder(After(Init(), steps)) && After(Init(), steps).persisted == [b, a]
  {
    var s4 := State([a, b], [], [[a], [b]], []);
    var s5 := Next(s4, InsertOk(1));
    assert s5.inflight == [[a]] && s5.persisted == [b];
    var s6 := Next(s5, InsertOk(0));
    assert s6.inflight == [] && s6.persisted == [b, a] && s6.received == [a, b];
    var rest := RunsCons(s5, InsertOk(0), []);
    rest := RunsCons(s4, InsertOk(1), rest);
    steps := TwoInFlight(a, b, rest);
    assert Line(s6) == [b, a];
  }

  lemma RunsCons<T>(s: State<T>, step: Step<T>, rest: seq<Step<T>>) returns (steps: seq<Step<T>>)
    requires Enabled(s, step) && Runs(Next(s, step), rest)
    ensures Runs(s, steps) && After(s, steps) == After(Next(s, step), rest)
  {
    steps := [step] + rest;
    assert steps[1..] == rest;
  }
}
