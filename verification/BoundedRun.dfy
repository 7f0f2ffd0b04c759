/**
 The bounded search loop (search/run.go): it counts until NumKeys wallets are processed. The
 batches and the cancellation are given as a script.
 */
module BoundedRun {
  import opened FundedSets
  import opened SearchRun
  import P = ProcessWallet
  import Bloom

  datatype BoundedRound = WaitCancelled | Received(steps: seq<Step>)

  datatype BoundedExit = Completed | StillRunning | BoundedCancelled | BoundedFailed

  function BoundedStream(rounds: seq<BoundedRound>): seq<Step> {
    if rounds == [] then []
    else BoundedStream(rounds[..|rounds| - 1]) + if rounds[|rounds| - 1].Received? then rounds[|rounds| - 1].steps else []
  }

  // The rounds before the first cancellation.
  function UntilCancelled(rounds: seq<BoundedRound>): (until: seq<BoundedRound>)
    ensures until <= rounds
  {
    if rounds == [] then []
    else
      var n := |rounds| - 1;
      var front := UntilCancelled(rounds[..n]);
      if |front| < n || rounds[n].WaitCancelled? then front else rounds
  }

  // runBounded: counts until NumKeys wallets are processed; cancellation is noticed between batches only. The wallets
  // come in order from the batches before the first cancellation; without a failing call as many are counted as there
  // are, up to NumKeys, and whether the run is then complete, cancelled or still going on follows from the script.
  method RunBounded(lib: Bloom.Library, sets: Sets, cfg: P.Config, numKeys: int, base: nat, rounds: seq<BoundedRound>)
    returns (keys: nat, hits: nat, outcomes: seq<P.Outcome>, exit: BoundedExit)
    ensures Calls(lib, sets, cfg, base, outcomes, BoundedStream(UntilCancelled(rounds)))
    ensures AtMostOneEach(outcomes)
    ensures |outcomes| == keys + if exit == BoundedFailed then 1 else 0
    ensures hits == HitCount(outcomes[..keys])
    ensures exit == Completed <==> keys == Goal(numKeys)
    ensures exit == BoundedFailed <==> exists i :: 0 <= i < |outcomes| && outcomes[i].failed
    ensures keys <= Goal(numKeys)
    ensures exit == BoundedCancelled || exit == StillRunning ==> keys == |BoundedStream(UntilCancelled(rounds))|
    ensures exit == BoundedCancelled ==> UntilCancelled(rounds) != rounds
    ensures exit == StillRunning ==> UntilCancelled(rounds) == rounds
    ensures |rounds| >= Goal(numKeys) && (forall r | r in rounds :: r.Received? && r.steps != []) && exit != BoundedFailed ==>
      exit == Completed
  {
    hide AtMostOneEach, P.Process, UntilCancelled, BoundedStream;
    UntilStart(rounds);
    keys, hits, outcomes := 0, 0, [];
    exit := if numKeys <= 0 then Completed else StillRunning;
    var n := 0;
    while n < |rounds| && exit == StillRunning
      invariant n <= |rounds|
      invariant BoundedCounted(keys, hits, outcomes, exit) && keys <= Goal(numKeys)
      invariant Calls(lib, sets, cfg, base, outcomes, BoundedStream(UntilCancelled(rounds[..n])))
      invariant exit == Completed <==> keys == Goal(numKeys)
      invariant exit == StillRunning ==> UntilCancelled(rounds[..n]) == rounds[..n]
      invariant exit == BoundedCancelled ==> |UntilCancelled(rounds[..n])| < n
      invariant exit == StillRunning || exit == BoundedCancelled ==> keys == |BoundedStream(UntilCancelled(rounds[..n]))|
    {
      UntilStep(rounds, n);
      match rounds[n] {
        case WaitCancelled =>
          exit := BoundedCancelled;
        case Received(steps) =>
          keys, hits, outcomes, exit :=
            BoundedBatch(lib, sets, cfg, numKeys, base, steps, keys, hits, outcomes, BoundedStream(rounds[..n]));
      }
      n := n + 1;
    }
    UntilExtends(rounds, n);
    assert rounds[..|rounds|] == rounds;
    CallsAtMostOneEach(lib, sets, cfg, base, outcomes, BoundedStream(UntilCancelled(rounds)));
    if forall r | r in rounds :: r.Received? && r.steps != [] {
      RoundsSuffice(rounds);
      NeverCancelled(rounds);
    }
  }

  lemma UntilStart(rounds: seq<BoundedRound>)
    ensures UntilCancelled(rounds[..0]) == rounds[..0] && BoundedStream(rounds[..0]) == []
  {
  }

  lemma UntilStep(rounds: seq<BoundedRound>, n: nat)
    requires n < |rounds|
    ensures UntilCancelled(rounds[..n + 1])
         == if |UntilCancelled(rounds[..n])| < n || rounds[n].WaitCancelled? then UntilCancelled(rounds[..n]) else rounds[..n + 1]
    ensures rounds[n].Received? ==> BoundedStream(rounds[..n + 1]) == BoundedStream(rounds[..n]) + rounds[n].steps
  {
    assert rounds[..n + 1][..n] == rounds[..n];
  }

  // Later rounds only add to the stream, and nothing once it has been cut.
  lemma {:induction false} UntilExtends(rounds: seq<BoundedRound>, n: nat)
    requires n <= |rounds|
    ensures BoundedStream(UntilCancelled(rounds[..n])) <= BoundedStream(UntilCancelled(rounds))
    ensures |UntilCancelled(rounds[..n])| < n ==> UntilCancelled(rounds) == UntilCancelled(rounds[..n])
  {
    hide BoundedStream, UntilCancelled;
    if n == |rounds| {
      assert rounds[..n] == rounds;
    } else {
      var k := |rounds| - 1;
      UntilExtends(rounds[..k], n);
      UntilStep(rounds, k);
      assert rounds[..k][..n] == rounds[..n] && rounds[..k + 1] == rounds;
      assert |UntilCancelled(rounds[..k])| == k ==> UntilCancelled(rounds[..k]) == rounds[..k];
    }
  }

  lemma {:induction false} NeverCancelled(rounds: seq<BoundedRound>)
    requires forall r | r in rounds :: r.Received?
    ensures UntilCancelled(rounds) == rounds
  {
    if rounds == [] {
    } else {
      assert rounds[|rounds| - 1] in rounds;
      NeverCancelled(rounds[..|rounds| - 1]);
    }
  }

  function Goal(numKeys: int): nat {
    if numKeys <= 0 then 0 else numKeys
  }

  ghost predicate BoundedCounted(keys: nat, hits: nat, outcomes: seq<P.Outcome>, exit: BoundedExit) {
    && |outcomes| == keys + (if exit == BoundedFailed then 1 else 0)
    && hits == HitCount(outcomes[..keys])
    && (exit == BoundedFailed <==> exists i :: 0 <= i < |outcomes| && outcomes[i].failed)
  }

  method BoundedBatch(lib: Bloom.Library, sets: Sets, cfg: P.Config, numKeys: int, base: nat, steps: seq<Step>,
                      keys0: nat, hits0: nat, outcomes0: seq<P.Outcome>, ghost stream: seq<Step>)
    returns (keys: nat, hits: nat, outcomes: seq<P.Outcome>, exit: BoundedExit)
    requires BoundedCounted(keys0, hits0, outcomes0, StillRunning) && keys0 < Goal(numKeys)
    requires Calls(lib, sets, cfg, base, outcomes0, stream) && keys0 == |stream|
    ensures BoundedCounted(keys, hits, outcomes, exit) && keys <= Goal(numKeys)
    ensures Calls(lib, sets, cfg, base, outcomes, stream + steps)
    ensures exit == Completed <==> keys == Goal(numKeys)
    ensures exit == StillRunning ==> keys == |stream + steps|
    ensures exit != BoundedCancelled
  {
    hide P.Process, HitCount;
    keys, hits, outcomes := keys0, hits0, outcomes0;
    var i := 0;
    while i < |steps| && keys < numKeys
      invariant i <= |steps| && keys == keys0 + i
      invariant BoundedCounted(keys, hits, outcomes, StillRunning) && keys <= Goal(numKeys)
      invariant Calls(lib, sets, cfg, base, outcomes, stream + steps)
    {
      var o := P.Process(lib, cfg, sets, steps[i].wallet, base + keys + 1, steps[i].hookFails);
      BoundedStep(keys, hits, outcomes, o);
      outcomes := outcomes + [o];
      if o.failed {
        return keys, hits, outcomes, BoundedFailed;
      }
      if o.hit {
        hits := hits + 1;
      }
      keys := keys + 1;
      i := i + 1;
    }
    exit := if keys < numKeys then StillRunning else Completed;
  }

  lemma BoundedStep(keys: nat, hits: nat, outcomes: seq<P.Outcome>, o: P.Outcome)
    requires BoundedCounted(keys, hits, outcomes, StillRunning)
    ensures if o.failed then BoundedCounted(keys, hits, outcomes + [o], BoundedFailed)
      else BoundedCounted(keys + 1, hits + if o.hit then 1 else 0, outcomes + [o], StillRunning)
  {
    hide HitCount;
    var all := outcomes + [o];
    assert outcomes[..keys] == outcomes && all[..keys] == outcomes && all[keys] == o;
    HitCountStep(outcomes, o);
    assert !o.failed ==> all[..keys + 1] == all;
  }

  // Non-empty batches bring at least one wallet each.
  lemma {:induction false} RoundsSuffice(rounds: seq<BoundedRound>)
    requires forall r | r in rounds :: r.Received? && r.steps != []
    ensures |BoundedStream(rounds)| >= |rounds|
  {
    if rounds == [] {
    } else {
      assert rounds[|rounds| - 1] in rounds;
      RoundsSuffice(rounds[..|rounds| - 1]);
    }
  }
}
