/**
 Search runs one after another on one session file (search/run.go): what their totals and their
 key indexes say together.
 */
module ResumedRuns {
  import opened Common
  import opened Bitcoin
  import opened FundedSets
  import opened SearchRun
  import P = ProcessWallet
  import Bloom

  function FileBefore(runs: seq<Trace>, k: nat): Option<Session>
    requires k <= |runs|
  {
    if k == 0 then None else runs[k - 1].file
  }

  // Runs one after another on one session file, the first without a file, all of them ended and saved.
  ghost predicate Chain(envs: seq<Env>, scripts: seq<seq<Round>>, runs: seq<Trace>) {
    && |envs| == |scripts| == |runs|
    && forall k | 0 <= k < |runs| ::
         && envs[k].base == BaseSession(FileBefore(runs, k))
         && runs[k] == ForeverSpec(envs[k], FileBefore(runs, k), scripts[k], true)
         && runs[k].exit != Running
  }

  function Iota(n: nat): seq<nat> {
    seq(n, i => i + 1)
  }

  // All key indexes that ProcessWallet saw in the first n runs.
  function IndexesSeen(runs: seq<Trace>, n: nat): seq<nat>
    requires n <= |runs|
  {
    if n == 0 then [] else IndexesSeen(runs, n - 1) + runs[n - 1].indexes
  }

  function KeysCounted(runs: seq<Trace>, n: nat): nat
    requires n <= |runs|
  {
    if n == 0 then 0 else KeysCounted(runs, n - 1) + runs[n - 1].keys
  }

  function HitsCounted(runs: seq<Trace>, n: nat): nat
    requires n <= |runs|
  {
    if n == 0 then 0 else HitsCounted(runs, n - 1) + runs[n - 1].hits
  }

  ghost predicate SomeFailed(runs: seq<Trace>, n: nat) {
    exists k :: 0 <= k < n && k < |runs| && runs[k].exit == HookFailed
  }

  predicate Idle(round: Round) {
    round.Batch? && round.steps == []
  }

  // The first thing in the script beside empty batches is a wallet that no cancellation precedes.
  predicate TakesWallet(rounds: seq<Round>) {
    if rounds == [] then false
    else
      var front, last := rounds[..|rounds| - 1], rounds[|rounds| - 1];
      || TakesWallet(front)
      || ((forall r | r in front :: Idle(r)) && last.Batch? && last.steps != [] && !last.steps[0].cancelled)
  }

  // After a run that ended on a failing call, every later run is cancelled before its first wallet.
  ghost predicate FailuresLast(scripts: seq<seq<Round>>, runs: seq<Trace>, n: nat) {
    forall k, j | 0 <= k < j < n && j < |runs| && j < |scripts| && runs[k].exit == HookFailed :: !TakesWallet(scripts[j])
  }

  lemma FirstTake(env: Env, t: Trace, steps: seq<Step>)
    requires steps != []
    ensures RunOps(env, t, TakeOps(steps)) == RunOps(env, Apply(env, t, Take(steps[0])), TakeOps(steps[1..]))
  {
    hide RunOps, Apply;
    assert TakeOps(steps) == [Take(steps[0])] + TakeOps(steps[1..]);
    RunOpsConcat(env, t, [Take(steps[0])], TakeOps(steps[1..]));
    OneOp(env, t, Take(steps[0]));
  }

  // One round of a run that has processed nothing yet.
  lemma FirstRound(env: Env, t: Trace, round: Round)
    requires t.exit == Running && t.keys == 0 && t.indexes == []
    ensures var u := RunOps(env, t, OpsOf(round));
      && (u.indexes != [] <==> round.Batch? && round.steps != [] && !round.steps[0].cancelled)
      && (Idle(round) ==> u.exit == Running && u.keys == 0 && u.indexes == [])
      && (u.indexes == [] && !Idle(round) ==> u.exit != Running)
  {
    hide RunOps, OpsOf, P.Process, TakeOps;
    if !round.Batch? {
      StopRounds(env, t);
    } else {
      BatchOps(env, t, round);
      if round.steps == [] {
        EmptyRun(env, t, []);
      } else {
        FirstTake(env, t, round.steps);
        var first := Apply(env, t, Take(round.steps[0]));
        TotalsGrow(env, first, TakeOps(round.steps[1..]));
        if round.steps[0].cancelled {
          StoppedStays(env, first, TakeOps(round.steps[1..]));
        }
      }
    }
  }

  // A run calls ProcessWallet at all exactly when its script takes a wallet.
  lemma {:induction false} ProcessesIff(env: Env, file: Option<Session>, rounds: seq<Round>)
    ensures var t := RunOps(env, Start(file), AllOps(rounds));
      && (t.indexes != [] <==> TakesWallet(rounds))
      && ((forall r | r in rounds :: Idle(r)) ==> t.exit == Running && t.keys == 0 && t.indexes == [])
      && (t.indexes == [] && t.exit == Running ==> forall r | r in rounds :: Idle(r))
  {
    hide RunOps, OpsOf, Idle;
    if rounds == [] {
      EmptyRun(env, Start(file), rounds);
    } else {
      var n := |rounds| - 1;
      var t := RunOps(env, Start(file), AllOps(rounds[..n]));
      assert rounds[..n + 1] == rounds;
      assert (forall r | r in rounds :: Idle(r)) <==> (forall r | r in rounds[..n] :: Idle(r)) && Idle(rounds[n]);
      ProcessesIff(env, file, rounds[..n]);
      AllOpsStep(env, Start(file), rounds, n);
      TotalsGrow(env, t, OpsOf(rounds[n]));
      if t.exit != Running {
        StoppedStays(env, t, OpsOf(rounds[n]));
      } else if t.indexes == [] {
        FirstRound(env, t, rounds[n]);
      }
    }
  }

  lemma CallsIff(env: Env, file: Option<Session>, rounds: seq<Round>, saved: bool)
    ensures ForeverSpec(env, file, rounds, saved).indexes != [] <==> TakesWallet(rounds)
  {
    hide RunOps, AllOps, TakesWallet;
    ProcessesIff(env, file, rounds);
  }

  // The file carries the totals of all runs so far; run n continues where they end.
  lemma {:induction false} ChainTotals(envs: seq<Env>, scripts: seq<seq<Round>>, runs: seq<Trace>, n: nat)
    requires Chain(envs, scripts, runs) && n <= |runs|
    ensures BaseSession(FileBefore(runs, n)) == Session(KeysCounted(runs, n), HitsCounted(runs, n))
  {
    hide ForeverSpec, RunInvariant, LatestSaved;
    if n == 0 {
    } else {
      ChainTotals(envs, scripts, runs, n - 1);
      ForeverConserves(envs[n - 1], FileBefore(runs, n - 1), scripts[n - 1], true);
    }
  }

  // The key indexes seen over a chain of resumed runs are 1, 2, 3, ... without gap or repeat
  // exactly when no run that processes a wallet comes after one that ended on a failing call.
  lemma {:induction false} NoGapOrRepeatIff(envs: seq<Env>, scripts: seq<seq<Round>>, runs: seq<Trace>, n: nat)
    requires Chain(envs, scripts, runs) && n <= |runs|
    ensures IndexesSeen(runs, n) == Iota(|IndexesSeen(runs, n)|) <==> FailuresLast(scripts, runs, n)
    ensures FailuresLast(scripts, runs, n) ==>
      |IndexesSeen(runs, n)| == KeysCounted(runs, n) + if SomeFailed(runs, n) then 1 else 0
  {
    hide Chain, SomeFailed, FailuresLast, Iota, TakesWallet;
    EmptyChain(scripts, runs);
    if n == 0 {
    } else {
      NoGapOrRepeatIff(envs, scripts, runs, n - 1);
      RunIndexes(envs, scripts, runs, n);
      FailuresLastStep(scripts, runs, n);
      AppendIota(IndexesSeen(runs, n - 1), runs[n - 1].indexes, KeysCounted(runs, n - 1));
    }
  }

  // Run n - 1 continues the numbering where the runs before it stopped counting.
  lemma RunIndexes(envs: seq<Env>, scripts: seq<seq<Round>>, runs: seq<Trace>, n: nat)
    requires Chain(envs, scripts, runs) && 0 < n <= |runs|
    ensures |scripts| == |runs|
    ensures var r := runs[n - 1];
      && |r.indexes| == r.keys + Uncounted(r)
      && (forall i | 0 <= i < |r.indexes| :: r.indexes[i] == KeysCounted(runs, n - 1) + i + 1)
      && (r.indexes != [] <==> TakesWallet(scripts[n - 1]))
  {
    hide ForeverSpec, LatestSaved, TakesWallet, P.Process, ProgressMonotone, Capped, HitCount, KeysCounted, HitsCounted;
    ChainTotals(envs, scripts, runs, n - 1);
    ForeverConserves(envs[n - 1], FileBefore(runs, n - 1), scripts[n - 1], true);
    CallsIff(envs[n - 1], FileBefore(runs, n - 1), scripts[n - 1], true);
  }

  lemma EmptyChain(scripts: seq<seq<Round>>, runs: seq<Trace>)
    ensures FailuresLast(scripts, runs, 0) && !SomeFailed(runs, 0) && Iota(0) == []
  {
  }

  lemma FailuresLastStep(scripts: seq<seq<Round>>, runs: seq<Trace>, n: nat)
    requires |scripts| == |runs| && 0 < n <= |runs|
    ensures FailuresLast(scripts, runs, n) <==>
      FailuresLast(scripts, runs, n - 1) && (SomeFailed(runs, n - 1) ==> !TakesWallet(scripts[n - 1]))
    ensures SomeFailed(runs, n) <==> SomeFailed(runs, n - 1) || runs[n - 1].exit == HookFailed
  {
    hide TakesWallet;
    if SomeFailed(runs, n - 1) && FailuresLast(scripts, runs, n) {
      var k :| 0 <= k < n - 1 && k < |runs| && runs[k].exit == HookFailed;
      assert !TakesWallet(scripts[n - 1]);
    }
  }

  lemma AppendIota(a: seq<nat>, b: seq<nat>, start: nat)
    requires forall i | 0 <= i < |b| :: b[i] == start + i + 1
    ensures a + b == Iota(|a + b|) <==> a == Iota(|a|) && (b != [] ==> |a| == start)
  {
    if a + b == Iota(|a + b|) {
      assert forall i | 0 <= i < |a| :: (a + b)[i] == a[i];
      if b != [] {
        assert (a + b)[|a|] == b[0];
      }
    }
  }

  // ---------- a concrete repeat ----------

  const NOTHING := Bucket([], [], None)
  const EMPTY_SETS := Sets(NOTHING, NOTHING, NOTHING, NOTHING, multiset{}, 30000)
  const SIMULATE_FIRST := P.Config(FormatMask(true, true, true, true, true), true, 1, "")

  // A batch of one wallet, for which the hook fails or not.
  function OneWallet(hookFails: bool): Round {
    Batch([Step(false, NO_KEYS, hookFails)], false, false, false)
  }

  // The hook fails at the simulated hit of key 1, the search is started again, and index 1 is given to another key.
  lemma FailedHookRepeatsIndex(lib: Bloom.Library)
    ensures var env := Env(lib, EMPTY_SETS, SIMULATE_FIRST, 0, Session(0, 0));
      var scripts := [[OneWallet(true)], [OneWallet(false), CancelledAtTop]];
      var runs := [ForeverSpec(env, None, scripts[0], true), ForeverSpec(env, Some(Session(0, 0)), scripts[1], true)];
      Chain([env, env], scripts, runs) && runs[0].exit == HookFailed && IndexesSeen(runs, 2) == [1, 1]
  {
    hide RunOps, AllOps, OpsOf;
    var env := Env(lib, EMPTY_SETS, SIMULATE_FIRST, 0, Session(0, 0));
    var first, second := [OneWallet(true)], [OneWallet(false), CancelledAtTop];
    OneWalletRun(env, None, first);
    OneWalletRun(env, Some(Session(0, 0)), second);
    AllOpsStep(env, Start(Some(Session(0, 0))), second, 1);
    assert first[..1] == first && second[..2] == second;
    StopRounds(env, At(env, Some(Session(0, 0)), second, 1));
    var runs := [ForeverSpec(env, None, first, true), ForeverSpec(env, Some(Session(0, 0)), second, true)];
    assert IndexesSeen(runs, 1) == IndexesSeen(runs, 0) + [1];
    assert IndexesSeen(runs, 2) == IndexesSeen(runs, 1) + [1];
  }

  lemma OneWalletRun(env: Env, file: Option<Session>, rounds: seq<Round>)
    requires env.sets == EMPTY_SETS && env.cfg == SIMULATE_FIRST && env.maxKeys == 0 && env.base == Session(0, 0)
    requires rounds != [] && (rounds[0] == OneWallet(true) || rounds[0] == OneWallet(false))
    ensures var t := At(env, file, rounds, 1);
      && t.indexes == [1] && t.hits == 0 && t.file == file
      && if rounds[0] == OneWallet(true) then t.exit == HookFailed && t.keys == 0 else t.exit == Running && t.keys == 1
  {
    hide RunOps, AllOps, OpsOf, P.Process;
    EmptyRun(env, Start(file), rounds);
    AllOpsStep(env, Start(file), rounds, 0);
    var step := rounds[0].steps[0];
    BatchOps(env, Start(file), rounds[0]);
    FirstTake(env, Start(file), [step]);
    EmptyRun(env, Apply(env, Start(file), Take(step)), []);
    SimulatedAtOne(env.lib, step.hookFails);
  }

  lemma SimulatedAtOne(lib: Bloom.Library, hookFails: bool)
    ensures var o := P.Process(lib, SIMULATE_FIRST, EMPTY_SETS, NO_KEYS, 1, hookFails); !o.hit && o.failed == hookFails
  {
  }
}
