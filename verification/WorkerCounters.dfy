/**
 The counters of one search call of a cluster worker (worker/run.go): the progress hook of the search
 thread, the reporting ticker and the final report share two atomic counters. Every atomic operation
 is one step, and the steps of the threads interleave freely.
 */
module WorkerCounters {
  import opened Common
  import SearchRun

  // The arithmetic of uint64.
  function Add64(a: nat, b: nat): nat {
    (a + b) % TWO_64
  }

  function Sub64(a: nat, b: nat): nat {
    (a - b) % TWO_64
  }

  // Where the hook stands: between calls, before its first addition, or between its two additions.
  datatype Hook = Idle | Computed(delta: nat) | Halfway(delta: nat)

  // Where a reporting thread stands; the delta is the one it took with its swap, the n-th of all swaps.
  datatype Reporter = Ready | Swapped(delta: nat, n: nat) | Loaded(delta: nat, n: nat, run: nat)

  // StatsRequest: KeysTriedDelta and RunKeysTried, with the number of the swap that took the delta.
  datatype Report = Report(delta: nat, n: nat, run: nat)

  // The search runs; it has returned; the final report is under way; it has been posted.
  datatype Phase = Searching | Returned | Reporting | Over(run: nat)

  datatype State = State(
    called: nat,            // calls of the hook so far
    lastTotal: nat,
    hook: Hook,
    runKeys: nat,
    sinceReport: nat,
    ticker: Reporter,
    final: Reporter,
    phase: Phase,
    swaps: seq<nat>,        // what every Swap(0) returned
    posted: seq<Report>)

  const INIT := State(0, 0, Idle, 0, 0, Ready, Ready, Searching, [], [])

  datatype Step =
    | HookStarts | HookAddsRun | HookAddsSince
    | SearchReturns
    | TickSwap | TickLoad | TickPost
    | FinalSwap | FinalLoad | FinalPost

  // totals: what the search passes to its progress hook, call by call.
  predicate Enabled(totals: seq<nat>, s: State, step: Step) {
    match step
    case HookStarts => s.phase.Searching? && s.hook.Idle? && s.called < |totals|
    case HookAddsRun => s.hook.Computed?
    case HookAddsSince => s.hook.Halfway?
    case SearchReturns => s.phase.Searching? && s.hook.Idle? && s.called == |totals|
    case TickSwap => s.ticker.Ready?
    case TickLoad => s.ticker.Swapped?
    case TickPost => s.ticker.Loaded?
    case FinalSwap => s.phase.Returned?
    case FinalLoad => s.phase.Reporting? && s.final.Swapped?
    case FinalPost => s.phase.Reporting? && s.final.Loaded?
  }

  function Do(totals: seq<nat>, s: State, step: Step): State
    requires Enabled(totals, s, step)
  {
    match step
    case HookStarts =>
      s.(called := s.called + 1, hook := Computed(Sub64(totals[s.called], s.lastTotal)), lastTotal := totals[s.called])
    case HookAddsRun => s.(runKeys := Add64(s.runKeys, s.hook.delta), hook := Halfway(s.hook.delta))
    case HookAddsSince => s.(sinceReport := Add64(s.sinceReport, s.hook.delta), hook := Idle)
    case SearchReturns => s.(phase := Returned)
    case TickSwap => Swap(s).(ticker := Swapped(s.sinceReport, |s.swaps| + 1))
    case TickLoad => s.(ticker := Loaded(s.ticker.delta, s.ticker.n, s.runKeys))
    case TickPost => s.(ticker := Ready, posted := s.posted + [Report(s.ticker.delta, s.ticker.n, s.ticker.run)])
    case FinalSwap => Swap(s).(phase := Reporting, final := Swapped(s.sinceReport, |s.swaps| + 1))
    case FinalLoad => s.(final := Loaded(s.final.delta, s.final.n, s.runKeys))
    case FinalPost =>
      s.(final := Ready, phase := Over(s.final.run), posted := s.posted + [Report(s.final.delta, s.final.n, s.final.run)])
  }

  function Swap(s: State): State {
    s.(sinceReport := 0, swaps := s.swaps + [s.sinceReport])
  }

  // ---------- invariant ----------

  function Sum(deltas: seq<nat>): nat {
    if deltas == [] then 0 else Sum(deltas[..|deltas| - 1]) + deltas[|deltas| - 1]
  }

  function PostedSum(reports: seq<Report>): nat {
    if reports == [] then 0 else PostedSum(reports[..|reports| - 1]) + reports[|reports| - 1].delta
  }

  function Held(r: Reporter): nat {
    if r.Ready? then 0 else r.delta
  }

  // Totals never decrease and fit into 64 bits.
  predicate Rising(totals: seq<nat>) {
    && (forall i, j | 0 <= i < j < |totals| :: totals[i] <= totals[j])
    && (forall i | 0 <= i < |totals| :: totals[i] < TWO_64)
  }

  // Nothing wraps: the counters and what is under way add up to the last total.
  predicate Balanced(totals: seq<nat>, s: State) {
    && s.called <= |totals|
    && s.lastTotal == Last(totals[..s.called])
    && s.runKeys + (if s.hook.Computed? then s.hook.delta else 0) == s.lastTotal
    && Sum(s.swaps) + s.sinceReport + (if s.hook.Halfway? then s.hook.delta else 0) == s.runKeys
    && PostedSum(s.posted) + Held(s.ticker) + Held(s.final) == Sum(s.swaps)
  }

  // What a report carries: the delta of its own swap and a count that covers every swap up to it.
  predicate Covered(s: State, delta: nat, n: nat, run: nat) {
    0 < n <= |s.swaps| && delta == s.swaps[n - 1] && Sum(s.swaps[..n]) <= run <= s.runKeys
  }

  predicate ReporterCovered(s: State, r: Reporter) {
    match r
    case Ready => true
    case Swapped(delta, n) => Covered(s, delta, n, s.runKeys)
    case Loaded(delta, n, run) => Covered(s, delta, n, run)
  }

  predicate AllCovered(s: State) {
    && ReporterCovered(s, s.ticker)
    && ReporterCovered(s, s.final)
    && forall i | 0 <= i < |s.posted| :: Covered(s, s.posted[i].delta, s.posted[i].n, s.posted[i].run)
  }

  // After the search has returned the hook is silent, and after the final swap nothing is left.
  predicate Phased(totals: seq<nat>, s: State) {
    && (!s.phase.Searching? ==> s.hook.Idle? && s.called == |totals|)
    && (s.phase.Reporting? <==> !s.final.Ready?)
    && (s.phase.Reporting? || s.phase.Over? ==> s.sinceReport == 0)
    && (s.final.Loaded? ==> s.final.run == s.runKeys)
    && (s.phase.Over? ==> s.phase.run == s.runKeys)
  }

  predicate Invariant(totals: seq<nat>, s: State) {
    Balanced(totals, s) && AllCovered(s) && Phased(totals, s)
  }

  lemma {:induction false} SumPrefix(deltas: seq<nat>, n: nat)
    requires n <= |deltas|
    ensures Sum(deltas[..n]) <= Sum(deltas)
  {
    if n == |deltas| {
      assert deltas[..n] == deltas;
    } else {
      assert deltas[..|deltas| - 1][..n] == deltas[..n];
      SumPrefix(deltas[..|deltas| - 1], n);
    }
  }

  lemma NoWrap(a: nat, b: nat)
    requires a <= b < TWO_64
    ensures a + Sub64(b, a) == b
    ensures forall d: nat {:trigger Add64(a, d)} | a + d <= b :: Add64(a, d) == a + d
  {
  }

  lemma SumAppend(deltas: seq<nat>, delta: nat)
    ensures Sum(deltas + [delta]) == Sum(deltas) + delta
  {
    assert (deltas + [delta])[..|deltas|] == deltas;
  }

  lemma PostedSumAppend(reports: seq<Report>, report: Report)
    ensures PostedSum(reports + [report]) == PostedSum(reports) + report.delta
  {
    assert (reports + [report])[..|reports|] == reports;
  }

  lemma CoveredStays(s: State, u: State, delta: nat, n: nat, run: nat)
    requires Covered(s, delta, n, run) && s.swaps <= u.swaps && s.runKeys <= u.runKeys
    ensures Covered(u, delta, n, run)
  {
    assert u.swaps[..n] == s.swaps[..n];
  }

  lemma BalancedStep(totals: seq<nat>, s: State, step: Step)
    requires Rising(totals) && Balanced(totals, s) && Phased(totals, s) && Enabled(totals, s, step)
    ensures Balanced(totals, Do(totals, s, step))
    ensures s.swaps <= Do(totals, s, step).swaps && s.runKeys <= Do(totals, s, step).runKeys
  {
    hide AllCovered, Sum, PostedSum, Add64, Sub64;
    var u := Do(totals, s, step);
    if step.HookStarts? {
      assert s.lastTotal <= totals[s.called];
      assert totals[..u.called][u.called - 1] == totals[s.called];
      NoWrap(s.lastTotal, totals[s.called]);
    }
    assert s.lastTotal < TWO_64;
    NoWrap(s.runKeys, s.lastTotal);
    NoWrap(s.sinceReport, s.runKeys);
    SumAppend(s.swaps, s.sinceReport);
    if u.posted != s.posted {
      PostedSumAppend(s.posted, u.posted[|s.posted|]);
    }
  }

  lemma CoveredStep(totals: seq<nat>, s: State, step: Step)
    requires Rising(totals) && Invariant(totals, s) && Enabled(totals, s, step)
    requires Balanced(totals, Do(totals, s, step))
    requires s.swaps <= Do(totals, s, step).swaps && s.runKeys <= Do(totals, s, step).runKeys
    ensures AllCovered(Do(totals, s, step))
  {
    hide Sum, PostedSum, Last, Add64, Sub64;
    var u := Do(totals, s, step);
    if !s.ticker.Ready? {
      CoveredStays(s, u, s.ticker.delta, s.ticker.n, if s.ticker.Loaded? then s.ticker.run else s.runKeys);
    }
    if !s.final.Ready? {
      CoveredStays(s, u, s.final.delta, s.final.n, if s.final.Loaded? then s.final.run else s.runKeys);
    }
    forall i | 0 <= i < |s.posted| ensures Covered(u, s.posted[i].delta, s.posted[i].n, s.posted[i].run) {
      CoveredStays(s, u, s.posted[i].delta, s.posted[i].n, s.posted[i].run);
    }
    assert u.swaps[..|u.swaps|] == u.swaps;
  }

  lemma StepKeeps(totals: seq<nat>, s: State, step: Step)
    requires Rising(totals) && Invariant(totals, s) && Enabled(totals, s, step)
    ensures Invariant(totals, Do(totals, s, step))
    ensures s.runKeys <= Do(totals, s, step).runKeys
  {
    BalancedStep(totals, s, step);
    CoveredStep(totals, s, step);
  }

  lemma InitInvariant(totals: seq<nat>)
    ensures Invariant(totals, INIT)
  {
  }

  // ---------- every interleaving ----------

  ghost predicate Run(totals: seq<nat>, states: seq<State>, steps: seq<Step>) {
    && |states| == |steps| + 1
    && states[0] == INIT
    && forall i | 0 <= i < |steps| :: Enabled(totals, states[i], steps[i]) && states[i + 1] == Do(totals, states[i], steps[i])
  }

  lemma {:induction false} RunKeeps(totals: seq<nat>, states: seq<State>, steps: seq<Step>, k: nat)
    requires Rising(totals) && Run(totals, states, steps) && k <= |steps|
    ensures Invariant(totals, states[k])
  {
    hide Invariant, Enabled, Do, Rising;
    if k == 0 {
      InitInvariant(totals);
    } else {
      RunKeeps(totals, states, steps, k - 1);
      StepKeeps(totals, states[k - 1], steps[k - 1]);
    }
  }

  lemma CountersOrdered(totals: seq<nat>, s: State)
    requires Invariant(totals, s)
    ensures PostedSum(s.posted) <= Sum(s.swaps) <= s.runKeys <= s.lastTotal
  {
  }

  // In every interleaving: the deltas swapped out up to a report's own swap never exceed the count posted with it;
  // all deltas swapped out never exceed the keys counted; and once the final swap is made they are
  // equal to the keys counted and to the last total of the search, which the final report carries.
  lemma CountersConserved(totals: seq<nat>, states: seq<State>, steps: seq<Step>, k: nat)
    requires Rising(totals) && Run(totals, states, steps) && k <= |steps|
    ensures var s := states[k];
      && (forall i | 0 <= i < |s.posted| ::
            0 < s.posted[i].n <= |s.swaps|
            && s.posted[i].delta == s.swaps[s.posted[i].n - 1]
            && Sum(s.swaps[..s.posted[i].n]) <= s.posted[i].run <= s.runKeys)
      && PostedSum(s.posted) <= Sum(s.swaps) <= s.runKeys <= s.lastTotal
      && (s.phase.Reporting? || s.phase.Over? ==> Sum(s.swaps) == s.runKeys == Last(totals))
      && (s.phase.Over? && s.ticker.Ready? ==> PostedSum(s.posted) == Last(totals))
      && (s.phase.Over? ==> s.phase.run == Last(totals))
  {
    hide Sum, PostedSum;
    RunKeeps(totals, states, steps, k);
    CountersOrdered(totals, states[k]);
    assert totals[..|totals|] == totals;
  }

  // The count in a report is the one that stood when the reporting thread loaded it.
  ghost predicate LoadedBefore(states: seq<State>, steps: seq<Step>, k: nat, run: nat) {
    exists j :: 0 <= j < k && j < |steps| && j < |states| && (steps[j].TickLoad? || steps[j].FinalLoad?) && states[j].runKeys == run
  }

  lemma {:induction false} ReportsLoaded(totals: seq<nat>, states: seq<State>, steps: seq<Step>, k: nat)
    requires Run(totals, states, steps) && k <= |steps|
    ensures var s := states[k];
      && (s.ticker.Loaded? ==> LoadedBefore(states, steps, k, s.ticker.run))
      && (s.final.Loaded? ==> LoadedBefore(states, steps, k, s.final.run))
      && forall i | 0 <= i < |s.posted| :: LoadedBefore(states, steps, k, s.posted[i].run)
  {
    hide LoadedBefore, Add64, Sub64;
    if k == 0 {
    } else {
      ReportsLoaded(totals, states, steps, k - 1);
      var s, step := states[k - 1], steps[k - 1];
      assert Enabled(totals, s, step) && states[k] == Do(totals, s, step);
      forall run: nat ensures LoadedBefore(states, steps, k, run)
        <==> LoadedBefore(states, steps, k - 1, run) || ((step.TickLoad? || step.FinalLoad?) && s.runKeys == run)
      {
        LoadedStep(states, steps, k, run);
      }
    }
  }

  lemma LoadedStep(states: seq<State>, steps: seq<Step>, k: nat, run: nat)
    requires 0 < k <= |steps| && k < |states|
    ensures LoadedBefore(states, steps, k, run) <==>
      LoadedBefore(states, steps, k - 1, run) || ((steps[k - 1].TickLoad? || steps[k - 1].FinalLoad?) && states[k - 1].runKeys == run)
  {
  }

  // The totals of a forever run never decrease, so the unsigned differences of the hook never wrap, and
  // what one search call reports in the end is at most the session's keys: base included, throttled tail not.
  lemma SearchTotalsRise(env: SearchRun.Env, file: Option<SearchRun.Session>, rounds: seq<SearchRun.Round>, saved: bool)
    requires env.base.keys + SearchRun.ForeverSpec(env, file, rounds, saved).keys < TWO_64
    ensures var t := SearchRun.ForeverSpec(env, file, rounds, saved);
      Rising(t.progress) && Last(t.progress) <= env.base.keys + t.keys && (t.progress != [] ==> env.base.keys <= Last(t.progress))
  {
    hide SearchRun.ForeverSpec, SearchRun.Accounted, SearchRun.Capped;
    SearchRun.ForeverConserves(env, file, rounds, saved);
    var t := SearchRun.ForeverSpec(env, file, rounds, saved);
    assert forall i | 0 <= i < |t.progress| :: t.progress[i] in t.progress;
  }
}
