/** Backoff over whole runs: what any number of serialized ticks does to the attempts of one project. */
module Backoff {
  import opened Projects
  import opened Reconciling

  // One tick; Docker, the hash table and the disk may have changed in any way since the last one.
  datatype Round = Round(env: Env, rows: seq<DesiredRow>, outcome: string -> Outcome,
                         containers: map<string, seq<Container>>, recorded: map<string, string>)

  const START := Recon(map[], map[], map[], [], [])

  function RunRound(r: Recon, round: Round): Recon {
    TickRows(round.env, r.(containers := round.containers, recorded := round.recorded), round.rows, round.outcome)
  }

  function RunRounds(r: Recon, rounds: seq<Round>): Recon
    decreases |rounds|
  {
    if rounds == [] then r else RunRounds(RunRound(r, rounds[0]), rounds[1..])
  }

  predicate ValidRounds(rounds: seq<Round>) {
    forall i :: 0 <= i < |rounds| ==> DistinctRows(rounds[i].rows)
  }

  // How many attempts at the end of the log failed in a row.
  function Trailing(a: seq<Attempt>): nat {
    if a == [] || a[|a| - 1].ok then 0 else 1 + Trailing(a[..|a| - 1])
  }

  // After a failure the next attempt waits for the rung of the ladder that the failure reached.
  predicate Spaced(a: seq<Attempt>) {
    forall k :: 0 < k < |a| && !a[k - 1].ok ==> a[k].checkAt >= a[k - 1].doneAt + BackoffDelay(Trailing(a[..k]))
  }

  // The counters of a project are a function of its own attempts.
  predicate CountersMatch(s: ProjectState, a: seq<Attempt>) {
    && s.failureCount == Trailing(a)
    && s.nextRetry == (if Trailing(a) == 0 then None else Some(a[|a| - 1].doneAt + BackoffDelay(Trailing(a))))
  }

  predicate BackoffInv(r: Recon, p: string) {
    var a := AttemptsOf(r.attempts, p);
    Spaced(a) && CountersMatch(ViewOf(r, p).state, a)
  }

  lemma RowKeepsInv(e: Env, v: View, row: DesiredRow, o: Outcome, a: seq<Attempt>)
    requires Spaced(a) && CountersMatch(v.state, a)
    ensures var a' := a + RowAttempts(e, v, row, o);
            Spaced(a') && CountersMatch(RowView(e, v, row, o).state, a')
  {
    var a' := a + RowAttempts(e, v, row, o);
    if InBackoff(v.state, o.checkAt) {
      assert a' == a;
    } else {
      assert a'[..|a'| - 1] == a;
      forall k | 0 < k < |a'| && !a'[k - 1].ok
        ensures a'[k].checkAt >= a'[k - 1].doneAt + BackoffDelay(Trailing(a'[..k]))
      {
        assert a'[..k] == a[..k];
        if k == |a| { assert a[..k] == a; }
      }
    }
  }

  lemma RoundKeepsInv(r: Recon, round: Round, p: string)
    requires BackoffInv(r, p) && DistinctRows(round.rows)
    ensures BackoffInv(RunRound(r, round), p)
  {
    var r0 := r.(containers := round.containers, recorded := round.recorded);
    if i :| 0 <= i < |round.rows| && round.rows[i].projectId == p {
      TickIsLocal(round.env, r0, round.rows, round.outcome, i);
      RowKeepsInv(round.env, ViewOf(r0, p), round.rows[i], round.outcome(p), AttemptsOf(r0.attempts, p));
    } else {
      TickSparesOthers(round.env, r0, round.rows, round.outcome, p);
    }
  }

  lemma {:induction false} RunKeepsInv(r: Recon, rounds: seq<Round>, p: string)
    requires BackoffInv(r, p) && ValidRounds(rounds)
    ensures BackoffInv(RunRounds(r, rounds), p)
    decreases |rounds|
  {
    if rounds != [] {
      RoundKeepsInv(r, rounds[0], p);
      RunKeepsInv(RunRound(r, rounds[0]), rounds[1..], p);
    }
  }

  // In every reachable state the counters are those of the project's own attempts: its trailing failures
  // decide the count, a success resets both, and no other project's failure shows.
  lemma CountersFollowOwnAttempts(rounds: seq<Round>, p: string)
    requires ValidRounds(rounds)
    ensures BackoffInv(RunRounds(START, rounds), p)
  {
    assert AttemptsOf(START.attempts, p) == [];
    RunKeepsInv(START, rounds, p);
  }

  lemma DelayGrows(m: int, n: int)
    requires m <= n
    ensures BackoffDelay(m) <= BackoffDelay(n) <= 1800
  {
  }

  lemma {:induction false} TrailingAtLeast(a: seq<Attempt>, i: nat)
    requires i <= |a| && forall k :: i <= k < |a| ==> !a[k].ok
    ensures Trailing(a) >= |a| - i
  {
    if i < |a| {
      TrailingAtLeast(a[..|a| - 1], i);
    }
  }

  // The wait before the (n+1)-th of a series of failing attempts, all waits added up.
  function LadderSum(n: nat): int {
    if n == 0 then 0 else LadderSum(n - 1) + BackoffDelay(n)
  }

  // The waits before the n-th further attempt of a series of failures, added up: 30, 90, 390, 2190, ... seconds.
  function Spread(n: nat): int {
    if n == 0 then 0 else if n == 1 then 30 else if n == 2 then 90 else 390 + 1800 * (n - 3)
  }

  lemma {:induction false} LadderSumClosed(n: nat)
    ensures LadderSum(n) == Spread(n)
  {
    if 0 < n {
      LadderSumClosed(n - 1);
    }
  }

  lemma {:induction false} FailuresSpan(a: seq<Attempt>, i: nat, n: nat)
    requires Spaced(a) && n >= 1 && i + n <= |a|
    requires forall k :: i <= k < i + n ==> !a[k].ok && a[k].checkAt <= a[k].doneAt
    ensures a[i + n - 1].checkAt - a[i].checkAt >= LadderSum(n - 1)
  {
    if n > 1 {
      FailuresSpan(a, i, n - 1);
      var k := i + n - 1;
      TrailingAtLeast(a[..k], i);
      DelayGrows(n - 1, Trailing(a[..k]));
    }
  }

  lemma FailuresTake(a: seq<Attempt>, i: nat, n: nat)
    requires Spaced(a) && n >= 2 && i + n <= |a|
    requires forall k :: i <= k < i + n ==> !a[k].ok && a[k].checkAt <= a[k].doneAt
    ensures a[i + n - 1].checkAt - a[i].checkAt >= if n == 2 then 30 else if n == 3 then 90 else 390 + 1800 * (n - 4)
  {
    FailuresSpan(a, i, n);
    LadderSumClosed(n - 1);
  }

  // Main theorem: in every run of serialized ticks, 2 consecutive failing attempts of one project take at least 30
  // seconds, 3 at least 90, and n >= 4 at least 390 + 1800 * (n - 4), whatever else fails or succeeds in between.
  lemma FailingAttemptsAreSpread(rounds: seq<Round>, p: string, i: nat, n: nat)
    requires ValidRounds(rounds) && n >= 2
    requires var a := AttemptsOf(RunRounds(START, rounds).attempts, p);
             i + n <= |a| && forall k :: i <= k < i + n ==> !a[k].ok && a[k].checkAt <= a[k].doneAt
    ensures var a := AttemptsOf(RunRounds(START, rounds).attempts, p);
            a[i + n - 1].checkAt - a[i].checkAt >= if n == 2 then 30 else if n == 3 then 90 else 390 + 1800 * (n - 4)
  {
    CountersFollowOwnAttempts(rounds, p);
    FailuresTake(AttemptsOf(RunRounds(START, rounds).attempts, p), i, n);
  }

  // The last `n` attempts failed, and the one before them, if any, did not.
  predicate FailedExactly(a: seq<Attempt>, n: nat) {
    && n <= |a| && (forall k :: |a| - n <= k < |a| ==> !a[k].ok)
    && (n < |a| ==> a[|a| - n - 1].ok)
  }

  lemma {:induction false} TrailingIsExact(a: seq<Attempt>, n: nat)
    requires FailedExactly(a, n)
    ensures Trailing(a) == n
  {
    if n > 0 {
      TrailingIsExact(a[..|a| - 1], n - 1);
    }
  }

  predicate WaitsByNumber(s: ProjectState, a: seq<Attempt>, n: nat) {
    && s.failureCount == n <= |a| && (n == 0 ==> s.nextRetry == None)
    && (n == 1 ==> s.nextRetry == Some(a[|a| - 1].doneAt + 30))
    && (n == 2 ==> s.nextRetry == Some(a[|a| - 1].doneAt + 60))
    && (n == 3 ==> s.nextRetry == Some(a[|a| - 1].doneAt + 300))
    && (n >= 4 ==> s.nextRetry == Some(a[|a| - 1].doneAt + 1800))
  }

  lemma CountersByNumber(s: ProjectState, a: seq<Attempt>, n: nat)
    requires CountersMatch(s, a) && FailedExactly(a, n)
    ensures WaitsByNumber(s, a, n)
  {
    TrailingIsExact(a, n);
  }

  // The ladder in numbers: in every run of serialized ticks, after exactly n failing attempts at the end of a
  // project's log it waits until 30, 60, 300 or, from the fourth on, 1800 seconds after the last of them.
  lemma WaitByNumber(rounds: seq<Round>, p: string, n: nat)
    requires ValidRounds(rounds) && FailedExactly(AttemptsOf(RunRounds(START, rounds).attempts, p), n)
    ensures var r := RunRounds(START, rounds);
            WaitsByNumber(ViewOf(r, p).state, AttemptsOf(r.attempts, p), n)
  {
    var r := RunRounds(START, rounds);
    CountersFollowOwnAttempts(rounds, p);
    CountersByNumber(ViewOf(r, p).state, AttemptsOf(r.attempts, p), n);
  }

  // The wait that counters stand for.
  lemma CountersBoundTheWait(s: ProjectState, a: seq<Attempt>)
    requires CountersMatch(s, a)
    ensures s.nextRetry.Some? <==> a != [] && !a[|a| - 1].ok
    ensures s.nextRetry.Some? ==> a[|a| - 1].doneAt + 30 <= s.nextRetry.value <= a[|a| - 1].doneAt + 1800
    ensures s.nextRetry.Some? && (|a| == 1 || a[|a| - 2].ok) ==> s.nextRetry.value == a[|a| - 1].doneAt + 30
  {
    if a != [] && !a[|a| - 1].ok {
      DelayGrows(1, Trailing(a));
      var before := a[..|a| - 1];
      if before == [] || before[|before| - 1].ok {
        assert Trailing(before) == 0 && Trailing(a) == 1;
      }
    }
  }

  // In every reachable state a project waits only after a failure of its own, and never longer than 30 minutes
  // from it; after a success (or at the very start) one failure costs 30 seconds again.
  lemma WaitIsBounded(rounds: seq<Round>, p: string)
    requires ValidRounds(rounds)
    ensures var r := RunRounds(START, rounds);
            var a, s := AttemptsOf(r.attempts, p), ViewOf(r, p).state;
            && (s.nextRetry.Some? <==> a != [] && !a[|a| - 1].ok)
            && (s.nextRetry.Some? ==> a[|a| - 1].doneAt + 30 <= s.nextRetry.value <= a[|a| - 1].doneAt + 1800)
            && (s.nextRetry.Some? && (|a| == 1 || a[|a| - 2].ok) ==> s.nextRetry.value == a[|a| - 1].doneAt + 30)
  {
    CountersFollowOwnAttempts(rounds, p);
    var r := RunRounds(START, rounds);
    CountersBoundTheWait(ViewOf(r, p).state, AttemptsOf(r.attempts, p));
  }
}
