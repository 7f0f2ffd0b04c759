/**
 The consumer of a search run: the forever loop with its checkpoints and session file
 (search/run.go). What the surroundings do - batches, cancellation, clocks, failing
 hooks and failing writes - is given as a script; a script that ends while the loop still runs is
 a process that was killed there.
 */
module SearchRun {
  import opened Common
  import opened Bitcoin
  import opened FundedSets
  import P = ProcessWallet
  import Bloom

  datatype Session = Session(keys: nat, hits: nat)

  // One wallet of a batch: whether cancellation is noticed before it, and what OnHit would answer for it.
  datatype Step = Step(cancelled: bool, wallet: LookupKeys, hookFails: bool)

  datatype Round =
    | CancelledAtTop
    | CancelledWaiting
    | Batch(steps: seq<Step>, progressDue: bool, checkpointDue: bool, saved: bool)

  datatype Exit = Running | Cancelled | ReachedMax | HookFailed

  // The parts of a run that do not change: index, configuration, cap, and the session it started from.
  datatype Env = Env(lib: Bloom.Library, sets: Sets, cfg: P.Config, maxKeys: nat, base: Session)

  // Everything a run makes observable.
  datatype Trace = Trace(
    keys: nat,                // stats.KeysProcessed
    hits: nat,                // stats.Hits
    indexes: seq<nat>,        // key indexes passed to ProcessWallet
    outcomes: seq<P.Outcome>, // what ProcessWallet did at each of them
    progress: seq<nat>,       // totals passed to OnForeverProgress
    file: Option<Session>,    // the session file
    exit: Exit)

  // ---------- the run as one counter ----------

  // What the loop can meet, one after another.
  datatype Op =
    | Cancel
    | CheckMax
    | Take(step: Step)
    | Report
    | Checkpoint(saved: bool)

  function Total(env: Env, t: Trace): Session {
    Session(env.base.keys + t.keys, env.base.hits + t.hits)
  }

  predicate AtMax(env: Env, t: Trace) {
    env.maxKeys > 0 && t.keys >= env.maxKeys
  }

  function TakeWallet(env: Env, t: Trace, step: Step): Trace {
    var index := env.base.keys + t.keys + 1;
    var o := P.Process(env.lib, env.cfg, env.sets, step.wallet, index, step.hookFails);
    var seen := t.(indexes := t.indexes + [index], outcomes := t.outcomes + [o]);
    if o.failed then seen.(exit := HookFailed)
    else seen.(keys := t.keys + 1, hits := t.hits + if o.hit then 1 else 0)
  }

  function Apply(env: Env, t: Trace, op: Op): Trace {
    if t.exit != Running then t
    else
      match op
      case Cancel => t.(exit := Cancelled)
      case CheckMax => if AtMax(env, t) then t.(exit := ReachedMax) else t
      case Take(step) =>
        if step.cancelled then t.(exit := Cancelled)
        else if AtMax(env, t) then t.(exit := ReachedMax)
        else TakeWallet(env, t, step)
      case Report => t.(progress := t.progress + [env.base.keys + t.keys])
      case Checkpoint(saved) => if saved then t.(file := Some(Total(env, t))) else t
  }

  function RunOps(env: Env, t: Trace, ops: seq<Op>): Trace {
    if ops == [] then t else Apply(env, RunOps(env, t, ops[..|ops| - 1]), ops[|ops| - 1])
  }

  function TakeOps(steps: seq<Step>): (ops: seq<Op>)
    ensures |ops| == |steps|
  {
    seq(|steps|, i requires 0 <= i < |steps| => Take(steps[i]))
  }

  function OpsOf(round: Round): seq<Op> {
    match round
    case CancelledAtTop => [Cancel]
    case CancelledWaiting => [CheckMax, Cancel]
    case Batch(steps, progressDue, checkpointDue, saved) =>
      [CheckMax] + TakeOps(steps) + (if progressDue then [Report] else []) + if checkpointDue then [Checkpoint(saved)] else []
  }

  function AllOps(rounds: seq<Round>): seq<Op> {
    if rounds == [] then [] else AllOps(rounds[..|rounds| - 1]) + OpsOf(rounds[|rounds| - 1])
  }

  function Start(file: Option<Session>): Trace {
    Trace(0, 0, [], [], [], file, Running)
  }

  // Every exit writes the session once more.
  function Finish(env: Env, t: Trace, saved: bool): Trace {
    if t.exit != Running && saved then t.(file := Some(Total(env, t))) else t
  }

  function ForeverSpec(env: Env, file: Option<Session>, rounds: seq<Round>, saved: bool): Trace {
    Finish(env, RunOps(env, Start(file), AllOps(rounds)), saved)
  }

  // loadSession: a missing or unreadable file, or one that a reset has removed, counts as nothing tried.
  function BaseSession(file: Option<Session>): Session {
    if file.None? then Session(0, 0) else file.value
  }

  // ---------- the loops of the program ----------

  // runForever. The totals live in three places: what the last checkpoint stored in the session,
  // what was processed since, and what was processed in the whole run.
  method RunForever(env: Env, file: Option<Session>, rounds: seq<Round>, finalSaved: bool) returns (t: Trace)
    requires env.base == BaseSession(file)
    ensures t == ForeverSpec(env, file, rounds, finalSaved)
  {
    hide RunOps, AllOps, OpsOf, P.Process;
    EmptyRun(env, Start(file), rounds);
    var session := env.base;
    var processed, runProcessed := 0, 0;
    var hits := session.hits;
    t := Start(file);
    var n := 0;
    while n < |rounds| && t.exit == Running
      invariant n <= |rounds|
      invariant t == RunOps(env, Start(file), AllOps(rounds[..n]))
      invariant session.keys + processed == env.base.keys + t.keys && hits == env.base.hits + t.hits
      invariant runProcessed == t.keys
    {
      var round := rounds[n];
      AllOpsStep(env, Start(file), rounds, n);
      ghost var before := t;
      if round.CancelledAtTop? {
        t := t.(exit := Cancelled);
        StopRounds(env, before);
      } else if env.maxKeys > 0 && runProcessed >= env.maxKeys {
        t := t.(exit := ReachedMax);
        RoundAtMax(env, before, round);
      } else if round.CancelledWaiting? {
        t := t.(exit := Cancelled);
        StopRounds(env, before);
      } else {
        t, session, processed, runProcessed, hits := RunBatch(env, t, session, processed, runProcessed, hits, round);
      }
      n := n + 1;
    }
    AllOpsAfterExit(env, Start(file), rounds, n);
    if t.exit != Running {
      session := Session(session.keys + processed, hits);
      if finalSaved {
        t := t.(file := Some(session));
      }
    }
  }

  // One pass of the loop body that received a batch.
  method RunBatch(env: Env, t0: Trace, session0: Session, processed0: nat, runProcessed0: nat, hits0: nat, round: Round)
    returns (t: Trace, session: Session, processed: nat, runProcessed: nat, hits: nat)
    requires round.Batch? && t0.exit == Running && !AtMax(env, t0)
    requires session0.keys + processed0 == env.base.keys + t0.keys && hits0 == env.base.hits + t0.hits && runProcessed0 == t0.keys
    ensures t == RunOps(env, t0, OpsOf(round))
    ensures session.keys + processed == env.base.keys + t.keys && hits == env.base.hits + t.hits && runProcessed == t.keys
  {
    hide RunOps, OpsOf, TakeOps, P.Process;
    EmptyRun(env, t0, []);
    t, session, processed, runProcessed, hits := t0, session0, processed0, runProcessed0, hits0;
    var steps := round.steps;
    var i := 0;
    while i < |steps| && t.exit == Running
      invariant i <= |steps|
      invariant t == RunOps(env, t0, TakeOps(steps[..i]))
      invariant session == session0 && session.keys + processed == env.base.keys + t.keys
      invariant hits == env.base.hits + t.hits && runProcessed == t.keys
    {
      ghost var before := t;
      TakeOpsStep(env, t0, steps, i);
      var step := steps[i];
      if step.cancelled {
        t := t.(exit := Cancelled);
      } else if env.maxKeys > 0 && runProcessed >= env.maxKeys {
        t := t.(exit := ReachedMax);
      } else {
        var keyIndex := session.keys + processed + 1;
        var o := P.Process(env.lib, env.cfg, env.sets, step.wallet, keyIndex, step.hookFails);
        t := t.(indexes := t.indexes + [keyIndex], outcomes := t.outcomes + [o]);
        if o.failed {
          t := t.(exit := HookFailed);
        } else {
          if o.hit {
            hits := hits + 1;
            t := t.(hits := t.hits + 1);
          }
          processed, runProcessed := processed + 1, runProcessed + 1;
          t := t.(keys := t.keys + 1);
        }
      }
      i := i + 1;
    }
    TakesAfterExit(env, t0, steps, i);
    BatchOps(env, t0, round);
    if t.exit != Running {
      return;
    }
    if round.progressDue {
      t := t.(progress := t.progress + [session.keys + processed]);
    }
    if round.checkpointDue {
      session, processed := Session(session.keys + processed, hits), 0;
      if round.saved {
        t := t.(file := Some(session));
      }
    }
  }

  lemma {:induction false} RunOpsConcat(env: Env, t: Trace, a: seq<Op>, b: seq<Op>)
    ensures RunOps(env, t, a + b) == RunOps(env, RunOps(env, t, a), b)
  {
    if b == [] {
      assert a + b == a;
    } else {
      assert (a + b)[..|a + b| - 1] == a + b[..|b| - 1];
      RunOpsConcat(env, t, a, b[..|b| - 1]);
    }
  }

  lemma OneOp(env: Env, t: Trace, op: Op)
    ensures RunOps(env, t, [op]) == Apply(env, t, op)
  {
    assert [op][..0] == [];
  }

  lemma TwoOps(env: Env, t: Trace, a: Op, b: Op)
    ensures RunOps(env, t, [a, b]) == Apply(env, Apply(env, t, a), b)
  {
    assert [a, b][..1] == [a];
    OneOp(env, t, a);
  }

  lemma {:induction false} StoppedStays(env: Env, t: Trace, ops: seq<Op>)
    requires t.exit != Running
    ensures RunOps(env, t, ops) == t
  {
    if ops == [] {
    } else {
      StoppedStays(env, t, ops[..|ops| - 1]);
    }
  }

  lemma StopRounds(env: Env, t: Trace)
    requires t.exit == Running
    ensures RunOps(env, t, OpsOf(CancelledAtTop)) == t.(exit := Cancelled)
    ensures !AtMax(env, t) ==> RunOps(env, t, OpsOf(CancelledWaiting)) == t.(exit := Cancelled)
  {
    OneOp(env, t, Cancel);
    TwoOps(env, t, CheckMax, Cancel);
  }

  lemma EmptyRun(env: Env, t: Trace, rounds: seq<Round>)
    ensures RunOps(env, t, AllOps(rounds[..0])) == t && RunOps(env, t, TakeOps([])) == t
  {
  }

  lemma AllOpsStep(env: Env, t: Trace, rounds: seq<Round>, n: nat)
    requires n < |rounds|
    ensures RunOps(env, t, AllOps(rounds[..n + 1])) == RunOps(env, RunOps(env, t, AllOps(rounds[..n])), OpsOf(rounds[n]))
  {
    assert rounds[..n + 1][..n] == rounds[..n];
    RunOpsConcat(env, t, AllOps(rounds[..n]), OpsOf(rounds[n]));
  }

  lemma RoundAtMax(env: Env, t: Trace, round: Round)
    requires t.exit == Running && AtMax(env, t) && !round.CancelledAtTop?
    ensures RunOps(env, t, OpsOf(round)) == t.(exit := ReachedMax)
  {
    hide RunOps, TakeOps;
    var rest := OpsOf(round)[1..];
    assert OpsOf(round) == [CheckMax] + rest;
    RunOpsConcat(env, t, [CheckMax], rest);
    OneOp(env, t, CheckMax);
    StoppedStays(env, t.(exit := ReachedMax), rest);
  }

  lemma AllOpsAfterExit(env: Env, t: Trace, rounds: seq<Round>, n: nat)
    requires n <= |rounds|
    requires RunOps(env, t, AllOps(rounds[..n])).exit != Running || n == |rounds|
    ensures RunOps(env, t, AllOps(rounds)) == RunOps(env, t, AllOps(rounds[..n]))
    decreases |rounds|
  {
    if n == |rounds| {
      assert rounds[..n] == rounds;
    } else {
      var front := rounds[..|rounds| - 1];
      assert front[..n] == rounds[..n];
      AllOpsAfterExit(env, t, front, n);
      RunOpsConcat(env, t, AllOps(front), OpsOf(rounds[|rounds| - 1]));
      StoppedStays(env, RunOps(env, t, AllOps(front)), OpsOf(rounds[|rounds| - 1]));
    }
  }

  lemma TakeOpsStep(env: Env, t: Trace, steps: seq<Step>, i: nat)
    requires i < |steps|
    ensures RunOps(env, t, TakeOps(steps[..i + 1])) == Apply(env, RunOps(env, t, TakeOps(steps[..i])), Take(steps[i]))
  {
    var ops := TakeOps(steps[..i + 1]);
    assert ops[..i] == TakeOps(steps[..i]);
  }

  lemma TakesAfterExit(env: Env, t: Trace, steps: seq<Step>, i: nat)
    requires i <= |steps|
    requires RunOps(env, t, TakeOps(steps[..i])).exit != Running || i == |steps|
    ensures RunOps(env, t, TakeOps(steps)) == RunOps(env, t, TakeOps(steps[..i]))
  {
    var ops := TakeOps(steps);
    assert ops[..i] == TakeOps(steps[..i]);
    assert ops == ops[..i] + ops[i..];
    RunOpsConcat(env, t, ops[..i], ops[i..]);
    if i < |steps| {
      StoppedStays(env, RunOps(env, t, ops[..i]), ops[i..]);
    } else {
      assert ops[i..] == [];
    }
  }

  lemma BatchOps(env: Env, t: Trace, round: Round)
    requires round.Batch? && t.exit == Running && !AtMax(env, t)
    ensures var taken := RunOps(env, t, TakeOps(round.steps));
      var reported := if round.progressDue then Apply(env, taken, Report) else taken;
      RunOps(env, t, OpsOf(round)) == if round.checkpointDue then Apply(env, reported, Checkpoint(round.saved)) else reported
  {
    var takes := TakeOps(round.steps);
    var a := if round.progressDue then [Report] else [];
    var b := if round.checkpointDue then [Checkpoint(round.saved)] else [];
    OneOp(env, t, CheckMax);
    RunOpsConcat(env, t, [CheckMax], takes);
    var taken := RunOps(env, t, takes);
    RunOpsConcat(env, t, [CheckMax] + takes, a);
    RunOpsConcat(env, t, [CheckMax] + takes + a, b);
    OneOp(env, taken, Report);
    OneOp(env, RunOps(env, taken, a), Checkpoint(round.saved));
  }

  // ---------- accounting ----------

  function HitCount(outcomes: seq<P.Outcome>): nat {
    if outcomes == [] then 0
    else HitCount(outcomes[..|outcomes| - 1]) + if outcomes[|outcomes| - 1].hit then 1 else 0
  }

  predicate Real(o: P.Outcome) {
    o.event.Some? && !o.event.value.simulated
  }

  predicate Simulated(o: P.Outcome) {
    o.event.Some? && o.event.value.simulated
  }

  // The call that ended the run, if a hook or an injection failed in it, was made but not counted.
  function Uncounted(t: Trace): nat {
    if t.exit == HookFailed then 1 else 0
  }

  ghost predicate Accounted(env: Env, t: Trace) {
    && |t.indexes| == |t.outcomes| == t.keys + Uncounted(t)
    && (forall i | 0 <= i < |t.indexes| :: t.indexes[i] == env.base.keys + i + 1)
    && t.hits == HitCount(t.outcomes[..t.keys])
  }

  ghost predicate ProgressMonotone(env: Env, t: Trace) {
    && (forall i, j | 0 <= i < j < |t.progress| :: t.progress[i] <= t.progress[j])
    && (forall p | p in t.progress :: env.base.keys <= p <= env.base.keys + t.keys)
  }

  ghost predicate Capped(env: Env, t: Trace) {
    && (env.maxKeys > 0 ==> t.keys <= env.maxKeys)
    && (t.exit == ReachedMax ==> env.maxKeys > 0 && t.keys == env.maxKeys)
  }

  ghost predicate RunInvariant(env: Env, t: Trace) {
    Accounted(env, t) && ProgressMonotone(env, t) && Capped(env, t)
  }

  lemma StartInvariant(env: Env, file: Option<Session>)
    ensures RunInvariant(env, Start(file))
  {
  }

  lemma TakeKeepsInvariant(env: Env, t: Trace, step: Step)
    requires RunInvariant(env, t) && t.exit == Running && !AtMax(env, t)
    ensures RunInvariant(env, TakeWallet(env, t, step))
  {
    hide P.Process, HitCount;
    var u := TakeWallet(env, t, step);
    var o := u.outcomes[t.keys];
    assert t.outcomes[..t.keys] == t.outcomes;
    assert u.outcomes == t.outcomes + [o];
    assert u.outcomes[..t.keys] == t.outcomes;
    HitCountStep(t.outcomes, o);
    assert u.exit == Running ==> u.outcomes[..u.keys] == u.outcomes;
  }

  lemma ApplyKeepsInvariant(env: Env, t: Trace, op: Op)
    requires RunInvariant(env, t)
    ensures RunInvariant(env, Apply(env, t, op))
  {
    hide HitCount, TakeWallet, P.Process;
    var u := Apply(env, t, op);
    if t.exit == Running {
      match op
      case Take(step) =>
        if !step.cancelled && !AtMax(env, t) {
          TakeKeepsInvariant(env, t, step);
        }
      case Report =>
        assert forall p | p in u.progress :: p in t.progress || p == env.base.keys + t.keys;
        assert forall i | 0 <= i < |t.progress| :: t.progress[i] in t.progress;
      case Checkpoint(saved) =>
      case Cancel =>
      case CheckMax =>
    }
  }

  lemma HitCountStep(outcomes: seq<P.Outcome>, o: P.Outcome)
    ensures HitCount(outcomes + [o]) == HitCount(outcomes) + if o.hit then 1 else 0
  {
    assert (outcomes + [o])[..|outcomes|] == outcomes;
  }

  lemma {:induction false} OpsKeepInvariant(env: Env, t: Trace, ops: seq<Op>)
    requires RunInvariant(env, t)
    ensures RunInvariant(env, RunOps(env, t, ops))
  {
    hide RunInvariant, Apply;
    if ops == [] {
    } else {
      OpsKeepInvariant(env, t, ops[..|ops| - 1]);
      ApplyKeepsInvariant(env, RunOps(env, t, ops[..|ops| - 1]), ops[|ops| - 1]);
    }
  }

  // Conservation over every script, all checkpoints and all exits: consecutive key indexes from the session's base,
  // progress that never falls back, a cap that is never passed; after an exit whose write succeeds the file holds
  // exactly base plus processed, and otherwise what the latest saved checkpoint left.
  lemma ForeverConserves(env: Env, file: Option<Session>, rounds: seq<Round>, saved: bool)
    ensures var t := ForeverSpec(env, file, rounds, saved);
      && RunInvariant(env, t)
      && t.file == if t.exit != Running && saved then Some(Session(env.base.keys + t.keys, env.base.hits + t.hits))
                   else LatestSaved(env, file, rounds)
  {
    hide P.Process, HitCount, AllOps, RunOps;
    StartInvariant(env, file);
    OpsKeepInvariant(env, Start(file), AllOps(rounds));
    FileIsLatestSaved(env, file, rounds);
  }

  // ---------- the session file ----------

  // The run up to its first n rounds.
  function At(env: Env, file: Option<Session>, rounds: seq<Round>, n: nat): Trace
    requires n <= |rounds|
  {
    RunOps(env, Start(file), AllOps(rounds[..n]))
  }

  // Round n ends with a checkpoint that the run reaches and whose write succeeds.
  predicate Saves(env: Env, file: Option<Session>, rounds: seq<Round>, n: nat)
    requires n < |rounds|
  {
    rounds[n].Batch? && rounds[n].checkpointDue && rounds[n].saved && At(env, file, rounds, n + 1).exit == Running
  }

  // Reading the rounds from the latest one back: the totals at the first one that saves, or the old file.
  function LatestSaved(env: Env, file: Option<Session>, rounds: seq<Round>): Option<Session> {
    if rounds == [] then file
    else if Saves(env, file, rounds, |rounds| - 1) then Some(Total(env, At(env, file, rounds, |rounds|)))
    else LatestSaved(env, file, rounds[..|rounds| - 1])
  }

  lemma {:induction false} FileIsLatestSaved(env: Env, file: Option<Session>, rounds: seq<Round>)
    ensures RunOps(env, Start(file), AllOps(rounds)).file == LatestSaved(env, file, rounds)
  {
    hide RunOps, OpsOf, Total;
    if rounds == [] {
      EmptyRun(env, Start(file), rounds);
    } else {
      var n := |rounds| - 1;
      FileIsLatestSaved(env, file, rounds[..n]);
      AllOpsStep(env, Start(file), rounds, n);
      assert rounds[..n + 1] == rounds;
      RoundFile(env, At(env, file, rounds, n), rounds[n]);
    }
  }

  // A round changes the file only by a checkpoint that it reaches and saves, and then to the totals at its end.
  lemma RoundFile(env: Env, t: Trace, round: Round)
    ensures var u := RunOps(env, t, OpsOf(round));
      u.file == if round.Batch? && round.checkpointDue && round.saved && u.exit == Running then Some(Total(env, u)) else t.file
  {
    hide RunOps, OpsOf, P.Process;
    if t.exit != Running {
      StoppedStays(env, t, OpsOf(round));
    } else if !round.Batch? {
      RoundAtMaxOrStops(env, t, round);
    } else if AtMax(env, t) {
      RoundAtMax(env, t, round);
    } else {
      BatchOps(env, t, round);
      TakesKeepFile(env, t, TakeOps(round.steps));
    }
  }

  lemma RoundAtMaxOrStops(env: Env, t: Trace, round: Round)
    requires t.exit == Running && !round.Batch?
    ensures RunOps(env, t, OpsOf(round)).file == t.file
  {
    hide RunOps;
    StopRounds(env, t);
    if AtMax(env, t) && !round.CancelledAtTop? {
      RoundAtMax(env, t, round);
    }
  }

  lemma {:induction false} TakesKeepFile(env: Env, t: Trace, ops: seq<Op>)
    requires forall op | op in ops :: op.Take?
    ensures RunOps(env, t, ops).file == t.file
  {
    hide P.Process;
    if ops == [] {
    } else {
      assert ops[|ops| - 1] in ops;
      TakesKeepFile(env, t, ops[..|ops| - 1]);
    }
  }

  // Running on never loses a counted key or hit.
  lemma {:induction false} TotalsGrow(env: Env, t: Trace, ops: seq<Op>)
    ensures var u := RunOps(env, t, ops); t.keys <= u.keys && t.hits <= u.hits && t.outcomes <= u.outcomes && t.indexes <= u.indexes
  {
    hide P.Process;
    if ops == [] {
    } else {
      TotalsGrow(env, t, ops[..|ops| - 1]);
    }
  }

  // Crash safety: a run killed at any point leaves the totals of round n, the latest round that saved a checkpoint, so it
  // loses exactly what was counted since; without such a round the file is as it was.
  lemma CrashLosesOnlySince(env: Env, file: Option<Session>, rounds: seq<Round>) returns (n: nat)
    ensures n <= |rounds| && (n > 0 ==> Saves(env, file, rounds, n - 1))
    ensures forall m | n <= m < |rounds| :: !Saves(env, file, rounds, m)
    ensures var t, last := RunOps(env, Start(file), AllOps(rounds)), At(env, file, rounds, n);
      && t.file == (if n == 0 then file else Some(Total(env, last)))
      && last.keys <= t.keys && last.hits <= t.hits && last.outcomes <= t.outcomes
  {
    hide Saves, Total, RunOps;
    FileIsLatestSaved(env, file, rounds);
    n := LatestRound(env, file, rounds);
    assert rounds[..|rounds|] == rounds;
    LaterTotals(env, file, rounds, n, |rounds|);
  }

  lemma {:induction false} LatestRound(env: Env, file: Option<Session>, rounds: seq<Round>) returns (n: nat)
    ensures n <= |rounds| && (n > 0 ==> Saves(env, file, rounds, n - 1))
    ensures forall m | n <= m < |rounds| :: !Saves(env, file, rounds, m)
    ensures LatestSaved(env, file, rounds) == if n == 0 then file else Some(Total(env, At(env, file, rounds, n)))
  {
    hide Total, RunOps, Saves, At;
    if rounds == [] {
      n := 0;
    } else if Saves(env, file, rounds, |rounds| - 1) {
      n := |rounds|;
    } else {
      var front := rounds[..|rounds| - 1];
      n := LatestRound(env, file, front);
      forall m | 0 <= m < |front| ensures Saves(env, file, rounds, m) <==> Saves(env, file, front, m) {
        SavesFront(env, file, rounds, m);
      }
      AtFront(env, file, rounds, n);
    }
  }

  lemma AtFront(env: Env, file: Option<Session>, rounds: seq<Round>, n: nat)
    requires n < |rounds|
    ensures At(env, file, rounds, n) == At(env, file, rounds[..|rounds| - 1], n)
  {
    hide RunOps;
    assert rounds[..|rounds| - 1][..n] == rounds[..n];
  }

  lemma SavesFront(env: Env, file: Option<Session>, rounds: seq<Round>, m: nat)
    requires m < |rounds| - 1
    ensures Saves(env, file, rounds, m) <==> Saves(env, file, rounds[..|rounds| - 1], m)
  {
    hide RunOps;
    AtFront(env, file, rounds, m + 1);
  }

  lemma {:induction false} LaterTotals(env: Env, file: Option<Session>, rounds: seq<Round>, n: nat, k: nat)
    requires n <= k <= |rounds|
    ensures var t, u := At(env, file, rounds, n), At(env, file, rounds, k);
      t.keys <= u.keys && t.hits <= u.hits && t.outcomes <= u.outcomes
  {
    hide RunOps;
    if n == k {
    } else {
      LaterTotals(env, file, rounds, n, k - 1);
      AllOpsStep(env, Start(file), rounds, k - 1);
      TotalsGrow(env, At(env, file, rounds, k - 1), OpsOf(rounds[k - 1]));
    }
  }

  // A checkpoint that was saved persists: whatever the loop meets afterwards, the file never falls behind it.
  lemma SavedPersists(env: Env, file: Option<Session>, a: seq<Op>, b: seq<Op>)
    requires RunOps(env, Start(file), a).exit == Running
    ensures var s, t := RunOps(env, Start(file), a), RunOps(env, Start(file), a + [Checkpoint(true)] + b);
      && t.file.Some?
      && env.base.keys + s.keys <= t.file.value.keys <= env.base.keys + t.keys
      && env.base.hits + s.hits <= t.file.value.hits <= env.base.hits + t.hits
  {
    hide RunOps;
    var s := RunOps(env, Start(file), a);
    RunOpsConcat(env, Start(file), a, [Checkpoint(true)]);
    OneOp(env, s, Checkpoint(true));
    RunOpsConcat(env, Start(file), a + [Checkpoint(true)], b);
    SavedStays(env, s.(file := Some(Total(env, s))), b, s);
  }

  lemma {:induction false} SavedStays(env: Env, t: Trace, ops: seq<Op>, s: Trace)
    requires t.file == Some(Total(env, s)) && s.keys <= t.keys && s.hits <= t.hits
    ensures var u := RunOps(env, t, ops);
      && u.file.Some?
      && env.base.keys + s.keys <= u.file.value.keys <= env.base.keys + u.keys
      && env.base.hits + s.hits <= u.file.value.hits <= env.base.hits + u.hits
  {
    hide P.Process;
    if ops == [] {
    } else {
      SavedStays(env, t, ops[..|ops| - 1], s);
    }
  }

  // ---------- the reported totals ----------

  // Round n ends with a progress report that the run reaches.
  predicate Reported(env: Env, file: Option<Session>, rounds: seq<Round>, n: nat)
    requires n < |rounds|
  {
    rounds[n].Batch? && rounds[n].progressDue && At(env, file, rounds, n + 1).exit == Running
  }

  // Reading the rounds from the latest one back: the total at the first one that reports; 0 when none does.
  function LatestReported(env: Env, file: Option<Session>, rounds: seq<Round>): nat {
    if rounds == [] then 0
    else if Reported(env, file, rounds, |rounds| - 1) then Total(env, At(env, file, rounds, |rounds|)).keys
    else LatestReported(env, file, rounds[..|rounds| - 1])
  }

  // What the latest report leaves out: the keys counted since; without any report the session's own as well.
  lemma {:induction false} LastIsLatestReported(env: Env, file: Option<Session>, rounds: seq<Round>)
    ensures var t := RunOps(env, Start(file), AllOps(rounds));
      Last(t.progress) == LatestReported(env, file, rounds) <= Total(env, t).keys
  {
    hide RunOps, OpsOf;
    if rounds == [] {
      EmptyRun(env, Start(file), rounds);
    } else {
      var n := |rounds| - 1;
      LastIsLatestReported(env, file, rounds[..n]);
      AllOpsStep(env, Start(file), rounds, n);
      assert rounds[..n + 1] == rounds;
      RoundProgress(env, At(env, file, rounds, n), rounds[n]);
      TotalsGrow(env, At(env, file, rounds, n), OpsOf(rounds[n]));
    }
  }

  // A round adds at most one report, of the totals at its end.
  lemma RoundProgress(env: Env, t: Trace, round: Round)
    ensures var u := RunOps(env, t, OpsOf(round));
      u.progress == t.progress
        + if round.Batch? && round.progressDue && u.exit == Running && t.exit == Running then [Total(env, u).keys] else []
    ensures t.exit != Running ==> RunOps(env, t, OpsOf(round)).exit != Running
  {
    hide RunOps, OpsOf, P.Process;
    if t.exit != Running {
      StoppedStays(env, t, OpsOf(round));
    } else if !round.Batch? {
      StopRounds(env, t);
      if AtMax(env, t) && !round.CancelledAtTop? {
        RoundAtMax(env, t, round);
      }
    } else if AtMax(env, t) {
      RoundAtMax(env, t, round);
    } else {
      BatchOps(env, t, round);
      TakesKeepProgress(env, t, TakeOps(round.steps));
    }
  }

  lemma {:induction false} TakesKeepProgress(env: Env, t: Trace, ops: seq<Op>)
    requires forall op | op in ops :: op.Take?
    ensures RunOps(env, t, ops).progress == t.progress
  {
    hide P.Process;
    if ops == [] {
    } else {
      assert ops[|ops| - 1] in ops;
      TakesKeepProgress(env, t, ops[..|ops| - 1]);
    }
  }

  // The last total reported is the session's total exactly when some round reported and no key was counted
  // after the latest such round, or when there is nothing to report.
  lemma NothingUnreportedIff(env: Env, file: Option<Session>, rounds: seq<Round>, saved: bool) returns (n: nat)
    ensures n <= |rounds| && (n > 0 ==> Reported(env, file, rounds, n - 1))
    ensures forall m | n <= m < |rounds| :: !Reported(env, file, rounds, m)
    ensures var t := ForeverSpec(env, file, rounds, saved);
      && Last(t.progress) == (if n == 0 then 0 else env.base.keys + At(env, file, rounds, n).keys)
      && (Last(t.progress) == env.base.keys + t.keys <==>
            if n == 0 then env.base.keys + t.keys == 0 else At(env, file, rounds, n).keys == t.keys)
  {
    hide Reported, RunOps;
    LastIsLatestReported(env, file, rounds);
    n := LatestReportRound(env, file, rounds);
  }

  lemma {:induction false} LatestReportRound(env: Env, file: Option<Session>, rounds: seq<Round>) returns (n: nat)
    ensures n <= |rounds| && (n > 0 ==> Reported(env, file, rounds, n - 1))
    ensures forall m | n <= m < |rounds| :: !Reported(env, file, rounds, m)
    ensures LatestReported(env, file, rounds) == if n == 0 then 0 else env.base.keys + At(env, file, rounds, n).keys
  {
    hide RunOps, Reported, At;
    if rounds == [] {
      n := 0;
    } else if Reported(env, file, rounds, |rounds| - 1) {
      n := |rounds|;
    } else {
      var front := rounds[..|rounds| - 1];
      n := LatestReportRound(env, file, front);
      forall m | 0 <= m < |front| ensures Reported(env, file, rounds, m) <==> Reported(env, file, front, m) {
        ReportedFront(env, file, rounds, m);
      }
      AtFront(env, file, rounds, n);
    }
  }

  lemma ReportedFront(env: Env, file: Option<Session>, rounds: seq<Round>, m: nat)
    requires m < |rounds| - 1
    ensures Reported(env, file, rounds, m) <==> Reported(env, file, rounds[..|rounds| - 1], m)
  {
    hide RunOps;
    AtFront(env, file, rounds, m + 1);
  }

  // ---------- which wallets ----------

  // The wallets of all received batches, in order.
  function Stream(rounds: seq<Round>): seq<Step> {
    if rounds == [] then []
    else
      Stream(rounds[..|rounds| - 1]) + if rounds[|rounds| - 1].Batch? then rounds[|rounds| - 1].steps else []
  }

  function StepsIn(ops: seq<Op>): seq<Step> {
    if ops == [] then []
    else StepsIn(ops[..|ops| - 1]) + if ops[|ops| - 1].Take? then [ops[|ops| - 1].step] else []
  }

  // Call number i was made for wallet number i of the stream, under index base + i + 1.
  ghost predicate Calls(lib: Bloom.Library, sets: Sets, cfg: P.Config, base: nat, outcomes: seq<P.Outcome>, stream: seq<Step>) {
    && |outcomes| <= |stream|
    && forall i | 0 <= i < |outcomes| ::
         outcomes[i] == P.Process(lib, cfg, sets, stream[i].wallet, base + i + 1, stream[i].hookFails)
  }

  // No call was made for a wallet before which cancellation was noticed; a run that still goes on has counted
  // all it received.
  ghost predicate Follows(env: Env, t: Trace, stream: seq<Step>) {
    && Calls(env.lib, env.sets, env.cfg, env.base.keys, t.outcomes, stream)
    && (t.exit == Running ==> |t.outcomes| == |stream|)
    && forall i | 0 <= i < |t.outcomes| :: !stream[i].cancelled
  }

  lemma {:induction false} OpsFollow(env: Env, file: Option<Session>, ops: seq<Op>)
    ensures var t := RunOps(env, Start(file), ops); RunInvariant(env, t) && Follows(env, t, StepsIn(ops))
  {
    hide P.Process, RunInvariant;
    StartInvariant(env, file);
    if ops == [] {
    } else {
      OpsFollow(env, file, ops[..|ops| - 1]);
      var t := RunOps(env, Start(file), ops[..|ops| - 1]);
      ApplyKeepsInvariant(env, t, ops[|ops| - 1]);
      ApplyFollows(env, t, ops[|ops| - 1], StepsIn(ops[..|ops| - 1]));
    }
  }

  lemma ApplyFollows(env: Env, t: Trace, op: Op, stream: seq<Step>)
    requires RunInvariant(env, t) && Follows(env, t, stream)
    ensures Follows(env, Apply(env, t, op), stream + if op.Take? then [op.step] else [])
  {
    hide P.Process, ProgressMonotone, Capped, HitCount;
  }

  lemma {:induction false} StepsInConcat(a: seq<Op>, b: seq<Op>)
    ensures StepsIn(a + b) == StepsIn(a) + StepsIn(b)
  {
    if b == [] {
      assert a + b == a;
    } else {
      assert (a + b)[..|a + b| - 1] == a + b[..|b| - 1];
      StepsInConcat(a, b[..|b| - 1]);
    }
  }

  lemma {:induction false} StepsInTakes(steps: seq<Step>)
    ensures StepsIn(TakeOps(steps)) == steps
  {
    if steps == [] {
    } else {
      var front := steps[..|steps| - 1];
      assert TakeOps(steps)[..|steps| - 1] == TakeOps(front);
      StepsInTakes(front);
      assert steps == front + [steps[|steps| - 1]];
    }
  }

  lemma StepsInRound(round: Round)
    ensures StepsIn(OpsOf(round)) == if round.Batch? then round.steps else []
  {
    if round.Batch? {
      var a := if round.progressDue then [Report] else [];
      var b := if round.checkpointDue then [Checkpoint(round.saved)] else [];
      StepsInBatch(round.steps, a, b);
    } else {
      NoSteps(OpsOf(round));
    }
  }

  lemma StepsInBatch(steps: seq<Step>, a: seq<Op>, b: seq<Op>)
    requires forall op | op in a + b :: !op.Take?
    ensures StepsIn([CheckMax] + TakeOps(steps) + a + b) == steps
  {
    hide StepsIn, TakeOps;
    var takes := TakeOps(steps);
    StepsInConcat([CheckMax] + takes + a, b);
    StepsInConcat([CheckMax] + takes, a);
    StepsInConcat([CheckMax], takes);
    StepsInTakes(steps);
    NoSteps([CheckMax]);
    assert forall op | op in a :: op in a + b;
    assert forall op | op in b :: op in a + b;
    NoSteps(a);
    NoSteps(b);
  }

  lemma {:induction false} NoSteps(ops: seq<Op>)
    requires forall op | op in ops :: !op.Take?
    ensures StepsIn(ops) == []
  {
    if ops == [] {
    } else {
      NoSteps(ops[..|ops| - 1]);
      assert ops[|ops| - 1] in ops;
    }
  }

  lemma {:induction false} StreamIsSteps(rounds: seq<Round>)
    ensures StepsIn(AllOps(rounds)) == Stream(rounds)
  {
    hide OpsOf;
    if rounds == [] {
    } else {
      StreamIsSteps(rounds[..|rounds| - 1]);
      StepsInConcat(AllOps(rounds[..|rounds| - 1]), OpsOf(rounds[|rounds| - 1]));
      StepsInRound(rounds[|rounds| - 1]);
    }
  }

  // The wallets processed are a prefix of the wallets received, in order, each under its own key index, and end
  // where cancellation is noticed.
  lemma ForeverFollowsStream(env: Env, file: Option<Session>, rounds: seq<Round>, saved: bool)
    ensures Follows(env, ForeverSpec(env, file, rounds, saved), Stream(rounds))
  {
    hide RunInvariant, AllOps, P.Process, Stream, StepsIn;
    OpsFollow(env, file, AllOps(rounds));
    StreamIsSteps(rounds);
  }

  // At most one call injects and at most one fires a simulated event; the real events are the hits.
  ghost predicate AtMostOneEach(outcomes: seq<P.Outcome>) {
    && (forall i, j | 0 <= i < |outcomes| && 0 <= j < |outcomes| && outcomes[i].injected && outcomes[j].injected :: i == j)
    && (forall i, j | 0 <= i < |outcomes| && 0 <= j < |outcomes| && Simulated(outcomes[i]) && Simulated(outcomes[j]) :: i == j)
    && (forall i | 0 <= i < |outcomes| :: Real(outcomes[i]) <==> outcomes[i].hit)
  }

  // Key indexes never repeat within a run, of whatever kind it is.
  lemma CallsAtMostOneEach(lib: Bloom.Library, sets: Sets, cfg: P.Config, base: nat, outcomes: seq<P.Outcome>, stream: seq<Step>)
    requires Calls(lib, sets, cfg, base, outcomes, stream)
    ensures AtMostOneEach(outcomes)
  {
    hide P.Process;
    forall i | 0 <= i < |outcomes|
      ensures outcomes[i].injected || Simulated(outcomes[i]) ==> base + i + 1 == cfg.simulateHitAt
      ensures Real(outcomes[i]) <==> outcomes[i].hit
    {
      P.OnlyAtSimulateIndex(lib, cfg, sets, stream[i].wallet, base + i + 1, stream[i].hookFails);
    }
  }

  // Over a whole forever run; a failing hook's own event is not counted as a hit.
  lemma AtMostOneSimulatedOrInjected(env: Env, file: Option<Session>, rounds: seq<Round>, saved: bool)
    ensures var t := ForeverSpec(env, file, rounds, saved);
      AtMostOneEach(t.outcomes) && (t.exit != HookFailed ==> HitCount(t.outcomes) == t.hits)
  {
    hide P.Process, ForeverSpec, HitCount, Stream, AtMostOneEach;
    var t := ForeverSpec(env, file, rounds, saved);
    ForeverConserves(env, file, rounds, saved);
    ForeverFollowsStream(env, file, rounds, saved);
    CallsAtMostOneEach(env.lib, env.sets, env.cfg, env.base.keys, t.outcomes, Stream(rounds));
    if t.exit != HookFailed {
      assert t.outcomes[..t.keys] == t.outcomes;
    }
  }

  // ---------- completion ----------

  predicate CannotCancel(op: Op) {
    op != Cancel && (op.Take? ==> !op.step.cancelled)
  }

  lemma {:induction false} UncancelledOps(env: Env, t: Trace, ops: seq<Op>)
    requires t.exit != Cancelled && forall op | op in ops :: CannotCancel(op)
    ensures RunOps(env, t, ops).exit != Cancelled
  {
    hide P.Process;
    if ops == [] {
    } else {
      assert ops[|ops| - 1] in ops;
      UncancelledOps(env, t, ops[..|ops| - 1]);
    }
  }

  predicate Uncancelled(round: Round) {
    round.Batch? && forall step | step in round.steps :: !step.cancelled
  }

  lemma {:induction false} UncancelledRounds(env: Env, file: Option<Session>, rounds: seq<Round>)
    requires forall r | r in rounds :: Uncancelled(r)
    ensures RunOps(env, Start(file), AllOps(rounds)).exit != Cancelled
  {
    hide RunOps;
    if rounds == [] {
      EmptyRun(env, Start(file), rounds);
    } else {
      var n := |rounds| - 1;
      assert rounds[n] in rounds && rounds[..n + 1] == rounds;
      UncancelledRounds(env, file, rounds[..n]);
      AllOpsStep(env, Start(file), rounds, n);
      UncancelledOps(env, At(env, file, rounds, n), OpsOf(rounds[n]));
    }
  }

  lemma {:induction false} StreamAtLeast(rounds: seq<Round>)
    requires forall r | r in rounds :: r.Batch? && r.steps != []
    ensures |Stream(rounds)| >= |rounds|
  {
    if rounds == [] {
    } else {
      assert rounds[|rounds| - 1] in rounds;
      StreamAtLeast(rounds[..|rounds| - 1]);
    }
  }

  // A capped run that keeps receiving non-empty batches and is never cancelled ends: at exactly the cap, unless a
  // call fails before. Every round counts at least one key, and one more round notices the cap.
  lemma CappedRunEnds(env: Env, file: Option<Session>, rounds: seq<Round>, saved: bool)
    requires 0 < env.maxKeys < |rounds|
    requires forall r | r in rounds :: Uncancelled(r) && r.steps != []
    ensures var t := ForeverSpec(env, file, rounds, saved);
      (t.exit == ReachedMax && t.keys == env.maxKeys) || t.exit == HookFailed
  {
    hide P.Process, RunOps, AllOps, Stream, ProgressMonotone, LatestSaved, HitCount;
    ForeverConserves(env, file, rounds, saved);
    ForeverFollowsStream(env, file, rounds, saved);
    UncancelledRounds(env, file, rounds);
    StreamAtLeast(rounds);
  }
}
