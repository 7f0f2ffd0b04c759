/**
 Where exactly a forever run stops (search/run.go): the script alone, with the answers of
 ProcessWallet, says after how many keys and why.
 */
module ForeverExits {
  import opened Common
  import opened SearchRun
  import P = ProcessWallet

  predicate CapReached(env: Env, before: nat) {
    env.maxKeys > 0 && before >= env.maxKeys
  }

  // What becomes of a wallet of a batch after so many keys: cancellation is noticed first, then the cap.
  function StepExit(env: Env, before: nat, step: Step): Exit {
    if step.cancelled then Cancelled
    else if CapReached(env, before) then ReachedMax
    else if P.Process(env.lib, env.cfg, env.sets, step.wallet, env.base.keys + before + 1, step.hookFails).failed then HookFailed
    else Running
  }

  // The first i wallets of a batch are all counted.
  ghost predicate PassesSteps(env: Env, before: nat, steps: seq<Step>, i: nat)
    requires i <= |steps|
  {
    forall j | 0 <= j < i :: StepExit(env, before + j, steps[j]) == Running
  }

  ghost predicate PassesRound(env: Env, before: nat, round: Round) {
    round.Batch? && !CapReached(env, before) && PassesSteps(env, before, round.steps, |round.steps|)
  }

  // Every wallet of every round is counted.
  ghost predicate Passes(env: Env, rounds: seq<Round>) {
    forall n | 0 <= n < |rounds| :: PassesRound(env, |Stream(rounds[..n])|, rounds[n])
  }

  // Cancellation at the top comes before the cap, and the cap before waiting for a batch.
  ghost predicate StopsInRound(env: Env, before: nat, round: Round, keys: nat, exit: Exit) {
    match round
    case CancelledAtTop => keys == before && exit == Cancelled
    case CancelledWaiting => keys == before && exit == if CapReached(env, before) then ReachedMax else Cancelled
    case Batch(steps, _, _, _) =>
      if CapReached(env, before) then keys == before && exit == ReachedMax
      else
        exists i :: 0 <= i < |steps| && PassesSteps(env, before, steps, i)
                    && keys == before + i && exit == StepExit(env, before + i, steps[i]) != Running
  }

  // The run stops in the first round that does not pass.
  ghost predicate StopsAt(env: Env, rounds: seq<Round>, n: nat, keys: nat, exit: Exit)
    requires n < |rounds|
  {
    Passes(env, rounds[..n]) && StopsInRound(env, |Stream(rounds[..n])|, rounds[n], keys, exit)
  }

  // A run goes on exactly when every round passes; otherwise its number of keys and its exit are those of the
  // first round that does not.
  lemma StopsExactly(env: Env, file: Option<Session>, rounds: seq<Round>, saved: bool)
    ensures var t := ForeverSpec(env, file, rounds, saved);
      && (t.exit == Running <==> Passes(env, rounds))
      && (t.exit == Running ==> t.keys == |Stream(rounds)|)
      && (t.exit != Running ==> exists n :: 0 <= n < |rounds| && StopsAt(env, rounds, n, t.keys, t.exit))
  {
    hide RunOps, AllOps, Passes, StopsAt, Stream;
    OpsStop(env, file, rounds);
    var t := RunOps(env, Start(file), AllOps(rounds));
    if t.exit != Running {
      var n :| 0 <= n < |rounds| && StopsAt(env, rounds, n, t.keys, t.exit);
      StoppedIsNotPassed(env, rounds, n, t.keys, t.exit);
    }
  }

  lemma StoppedIsNotPassed(env: Env, rounds: seq<Round>, n: nat, keys: nat, exit: Exit)
    requires n < |rounds| && StopsAt(env, rounds, n, keys, exit)
    ensures !Passes(env, rounds)
  {
    hide StepExit, Stream;
    assert !PassesRound(env, |Stream(rounds[..n])|, rounds[n]);
  }

  lemma {:induction false} OpsStop(env: Env, file: Option<Session>, rounds: seq<Round>)
    ensures var t := RunOps(env, Start(file), AllOps(rounds));
      && (t.exit == Running ==> Passes(env, rounds) && t.keys == |Stream(rounds)|)
      && (t.exit != Running ==> exists n :: 0 <= n < |rounds| && StopsAt(env, rounds, n, t.keys, t.exit))
  {
    hide RunOps, OpsOf, StopsInRound, PassesRound;
    if rounds == [] {
      EmptyRun(env, Start(file), rounds);
    } else {
      var n := |rounds| - 1;
      var front := rounds[..n];
      var s := RunOps(env, Start(file), AllOps(front));
      assert rounds[..n + 1] == rounds;
      OpsStop(env, file, front);
      AllOpsStep(env, Start(file), rounds, n);
      if s.exit != Running {
        StoppedStays(env, s, OpsOf(rounds[n]));
        var k :| 0 <= k < |front| && StopsAt(env, front, k, s.keys, s.exit);
        assert rounds[..k] == front[..k];
        assert StopsAt(env, rounds, k, s.keys, s.exit);
      } else {
        RoundStop(env, s, rounds[n]);
        var u := RunOps(env, s, OpsOf(rounds[n]));
        if u.exit == Running {
          forall k | 0 <= k < |rounds| ensures PassesRound(env, |Stream(rounds[..k])|, rounds[k]) {
            if k < n {
              assert rounds[..k] == front[..k] && rounds[k] == front[k];
            }
          }
        } else {
          assert StopsAt(env, rounds, n, u.keys, u.exit);
        }
      }
    }
  }

  lemma RoundStop(env: Env, t: Trace, round: Round)
    requires t.exit == Running
    ensures var u := RunOps(env, t, OpsOf(round));
      if u.exit == Running then round.Batch? && PassesRound(env, t.keys, round) && u.keys == t.keys + |round.steps|
      else StopsInRound(env, t.keys, round, u.keys, u.exit)
  {
    hide RunOps, OpsOf, StepExit, P.Process;
    StopRounds(env, t);
    if AtMax(env, t) && !round.CancelledAtTop? {
      RoundAtMax(env, t, round);
    } else if round.Batch? {
      BatchOps(env, t, round);
      assert round.steps[..|round.steps|] == round.steps;
      TakesStop(env, t, round.steps, |round.steps|);
    }
  }

  lemma {:induction false} TakesStop(env: Env, t: Trace, steps: seq<Step>, n: nat)
    requires t.exit == Running && n <= |steps|
    ensures var u := RunOps(env, t, TakeOps(steps[..n]));
      if u.exit == Running then PassesSteps(env, t.keys, steps, n) && u.keys == t.keys + n
      else exists i :: 0 <= i < |steps| && PassesSteps(env, t.keys, steps, i)
                       && u.keys == t.keys + i && u.exit == StepExit(env, t.keys + i, steps[i]) != Running
  {
    hide RunOps, P.Process;
    if n == 0 {
      EmptyRun(env, t, []);
      assert steps[..0] == [];
    } else {
      TakesStop(env, t, steps, n - 1);
      TakeOpsStep(env, t, steps, n - 1);
    }
  }
}
