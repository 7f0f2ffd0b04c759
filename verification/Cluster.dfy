/**
 Workers, network and coordinator together: what the coordinator's total says about the keys that the
 workers' search calls have counted, under every interleaving, reordering, loss and pruning.
 A report may be delivered more than once, because a client repeats a request whose answer was lost.
 */
module Cluster {
  import opened Common
  import opened SearchRun
  import W = WorkerCounters
  import C = Coordinator

  // One search call of a worker, with the totals that its search hands to the progress hook.
  datatype Call = Call(id: string, totals: seq<nat>, state: W.State)

  // A report on its way.
  datatype Message = Message(id: string, report: W.Report)

  // dropped: deltas that were lost, reached no registered worker, or were counted before the latest start of a run;
  // repeated: deltas of deliveries after which the report was still to be delivered or lost.
  datatype System = System(calls: seq<Call>, wire: seq<Message>, account: C.Account, dropped: nat, repeated: nat)

  datatype Event =
    | CallStarts(id: string, totals: seq<nat>)
    | CallSteps(i: nat, step: W.Step)
    | Delivered(k: nat, now: int)
    | Repeated(k: nat, now: int)
    | Lost(k: nat)
    | Served(e: C.Event)

  predicate Enabled(s: System, event: Event) {
    match event
    case CallStarts(_, totals) => W.Rising(totals)
    case CallSteps(i, step) => i < |s.calls| && W.Enabled(s.calls[i].totals, s.calls[i].state, step)
    case Delivered(k, _) => k < |s.wire|
    case Repeated(k, _) => k < |s.wire|
    case Lost(k) => k < |s.wire|
    case Served(e) => !e.RecordStats?
  }

  function Remove(wire: seq<Message>, k: nat): seq<Message>
    requires k < |wire|
  {
    wire[..k] + wire[k + 1..]
  }

  // What the step of a call has posted.
  function NewMessages(c: Call, u: W.State): seq<Message> {
    if |u.posted| == |c.state.posted| + 1 then [Message(c.id, u.posted[|c.state.posted|])] else []
  }

  function Received(s: System, m: Message, now: int): System {
    s.(account := C.Step(s.account, C.RecordStats(m.id, m.report.delta, m.report.run, now)),
       dropped := s.dropped + if m.id in s.account.lobby.workers then 0 else m.report.delta)
  }

  function Next(s: System, event: Event): System
    requires Enabled(s, event)
  {
    match event
    case CallStarts(id, totals) => s.(calls := s.calls + [Call(id, totals, W.INIT)])
    case CallSteps(i, step) =>
      var u := W.Do(s.calls[i].totals, s.calls[i].state, step);
      s.(calls := s.calls[i := s.calls[i].(state := u)], wire := s.wire + NewMessages(s.calls[i], u))
    case Delivered(k, now) => Received(s, s.wire[k], now).(wire := Remove(s.wire, k))
    case Repeated(k, now) => Received(s, s.wire[k], now).(repeated := s.repeated + s.wire[k].report.delta)
    case Lost(k) => s.(wire := Remove(s.wire, k), dropped := s.dropped + s.wire[k].report.delta)
    case Served(e) =>
      s.(account := C.Step(s.account, e), dropped := s.dropped + if e.StartRun? then s.account.accepted else 0)
  }

  // ---------- sums ----------

  function WireSum(wire: seq<Message>): nat {
    if wire == [] then 0 else WireSum(wire[..|wire| - 1]) + wire[|wire| - 1].report.delta
  }

  function Posted(calls: seq<Call>): nat {
    if calls == [] then 0 else Posted(calls[..|calls| - 1]) + W.PostedSum(calls[|calls| - 1].state.posted)
  }

  // Keys counted by all search calls.
  function Counted(calls: seq<Call>): nat {
    if calls == [] then 0 else Counted(calls[..|calls| - 1]) + calls[|calls| - 1].state.runKeys
  }

  // The last totals of all their searches.
  function Totals(calls: seq<Call>): nat {
    if calls == [] then 0 else Totals(calls[..|calls| - 1]) + Last(calls[|calls| - 1].totals)
  }

  lemma {:induction false} WireAppend(a: seq<Message>, b: seq<Message>)
    ensures WireSum(a + b) == WireSum(a) + WireSum(b)
  {
    if b == [] {
      assert a + b == a;
    } else {
      assert (a + b)[..|a + b| - 1] == a + b[..|b| - 1];
      WireAppend(a, b[..|b| - 1]);
    }
  }

  lemma WireRemove(wire: seq<Message>, k: nat)
    requires k < |wire|
    ensures WireSum(Remove(wire, k)) + wire[k].report.delta == WireSum(wire)
  {
    WireAppend(wire[..k], wire[k + 1..]);
    WireAppend(wire[..k + 1], wire[k + 1..]);
    assert wire == wire[..k + 1] + wire[k + 1..];
    assert wire[..k + 1][..k] == wire[..k];
  }

  lemma {:induction false} PostedUpdate(calls: seq<Call>, i: nat, c: Call)
    requires i < |calls|
    ensures Posted(calls[i := c]) + W.PostedSum(calls[i].state.posted) == Posted(calls) + W.PostedSum(c.state.posted)
  {
    var n := |calls| - 1;
    if i < n {
      assert calls[i := c][..n] == calls[..n][i := c];
      PostedUpdate(calls[..n], i, c);
    } else {
      assert calls[i := c][..n] == calls[..n];
    }
  }

  // ---------- invariant ----------

  ghost predicate CallsSound(calls: seq<Call>) {
    forall i | 0 <= i < |calls| :: W.Rising(calls[i].totals) && W.Invariant(calls[i].totals, calls[i].state)
  }

  // Every delta posted or repeated is on its way, counted in this run, or dropped.
  predicate Conserved(s: System) {
    Posted(s.calls) + s.repeated == WireSum(s.wire) + s.account.accepted + s.dropped
  }

  ghost predicate Sound(s: System) {
    CallsSound(s.calls) && Conserved(s) && C.Sound(s.account)
  }

  function Start(maxWorkers: int, log: seq<C.Block>): System {
    System([], [], C.New(maxWorkers, log), 0, 0)
  }

  lemma CallsStep(s: System, i: nat, step: W.Step)
    requires Sound(s) && Enabled(s, CallSteps(i, step))
    ensures Sound(Next(s, CallSteps(i, step)))
  {
    hide W.Do, W.Enabled, W.Rising, W.Invariant, C.Sound;
    var c := s.calls[i];
    var u := W.Do(c.totals, c.state, step);
    W.StepKeeps(c.totals, c.state, step);
    PostedStep(c, step);
    PostedUpdate(s.calls, i, c.(state := u));
    WireAppend(s.wire, NewMessages(c, u));
  }

  lemma PostedStep(c: Call, step: W.Step)
    requires W.Enabled(c.totals, c.state, step)
    ensures var u := W.Do(c.totals, c.state, step);
      W.PostedSum(u.posted) == W.PostedSum(c.state.posted) + WireSum(NewMessages(c, u))
  {
    var u := W.Do(c.totals, c.state, step);
    if |u.posted| == |c.state.posted| + 1 {
      assert u.posted == c.state.posted + [u.posted[|c.state.posted|]];
      W.PostedSumAppend(c.state.posted, u.posted[|c.state.posted|]);
      var m := Message(c.id, u.posted[|c.state.posted|]);
      assert WireSum([m]) == WireSum([]) + m.report.delta;
    }
  }

  // A received delta is accepted or dropped.
  lemma ReceivedCounts(s: System, m: Message, now: int)
    requires C.Sound(s.account)
    ensures var u := Received(s, m, now);
      && C.Sound(u.account) && u.calls == s.calls && u.wire == s.wire && u.repeated == s.repeated
      && u.account.accepted + u.dropped == s.account.accepted + s.dropped + m.report.delta
  {
    hide C.Sound, C.Next;
    C.StepSound(s.account, C.RecordStats(m.id, m.report.delta, m.report.run, now));
  }

  lemma ServedStep(s: System, e: C.Event)
    requires Sound(s) && Enabled(s, Served(e))
    ensures Sound(Next(s, Served(e)))
  {
    hide C.Sound, CallsSound, WireSum, C.Step, Posted;
    C.StepSound(s.account, e);
    AcceptedKept(s.account, e);
  }

  lemma PostedAppend(calls: seq<Call>, c: Call)
    ensures Posted(calls + [c]) == Posted(calls) + W.PostedSum(c.state.posted)
  {
    hide W.PostedSum;
    assert (calls + [c])[..|calls|] == calls;
  }

  lemma CallStartsStep(s: System, id: string, totals: seq<nat>)
    requires Sound(s) && Enabled(s, CallStarts(id, totals))
    ensures Sound(Next(s, CallStarts(id, totals)))
  {
    hide C.Sound, C.Step, WireSum, Posted, W.Rising, W.Invariant, W.Enabled, W.Do, Remove, NewMessages, Received;
    W.InitInvariant(totals);
    PostedAppend(s.calls, Call(id, totals, W.INIT));
    assert W.PostedSum([]) == 0;
  }

  lemma StepSound(s: System, event: Event)
    requires Sound(s) && Enabled(s, event)
    ensures Sound(Next(s, event))
  {
    hide C.Sound, CallsSound, W.Do, W.Enabled, W.Rising, WireSum, Remove, NewMessages, Received, Posted, C.Step;
    match event
    case CallStarts(id, totals) => CallStartsStep(s, id, totals);
    case CallSteps(i, step) => CallsStep(s, i, step);
    case Delivered(k, now) =>
      WireRemove(s.wire, k);
      ReceivedCounts(s, s.wire[k], now);
    case Repeated(k, now) => ReceivedCounts(s, s.wire[k], now);
    case Lost(k) => WireRemove(s.wire, k);
    case Served(e) => ServedStep(s, e);
  }

  lemma AcceptedKept(a: C.Account, e: C.Event)
    requires !e.RecordStats?
    ensures C.Step(a, e).accepted == if e.StartRun? then 0 else a.accepted
  {
  }

  // ---------- every run ----------

  ghost predicate Run(maxWorkers: int, log: seq<C.Block>, states: seq<System>, events: seq<Event>) {
    && |states| == |events| + 1
    && states[0] == Start(maxWorkers, log)
    && forall i | 0 <= i < |events| :: Enabled(states[i], events[i]) && states[i + 1] == Next(states[i], events[i])
  }

  lemma {:induction false} RunSound(maxWorkers: int, log: seq<C.Block>, states: seq<System>, events: seq<Event>, k: nat)
    requires Run(maxWorkers, log, states, events) && k <= |events|
    ensures Sound(states[k])
  {
    hide Sound, Enabled, Next;
    if k == 0 {
      StartSound(maxWorkers, log);
    } else {
      RunSound(maxWorkers, log, states, events, k - 1);
      StepSound(states[k - 1], events[k - 1]);
    }
  }

  lemma StartSound(maxWorkers: int, log: seq<C.Block>)
    ensures Sound(Start(maxWorkers, log))
  {
    C.NewSound(maxWorkers, log);
  }

  // Every call has made its final report and its ticker holds nothing back.
  predicate AllReported(calls: seq<Call>) {
    forall i | 0 <= i < |calls| :: calls[i].state.phase.Over? && calls[i].state.ticker.Ready?
  }

  lemma {:induction false} PostedAtMostCounted(calls: seq<Call>)
    requires CallsSound(calls)
    ensures Posted(calls) <= Counted(calls)
    ensures AllReported(calls) ==> Posted(calls) == Counted(calls) == Totals(calls)
  {
    hide W.PostedSum, Last, W.AllCovered;
    if calls == [] {
    } else {
      var n := |calls| - 1;
      assert forall i | 0 <= i < n :: calls[..n][i] == calls[i];
      PostedAtMostCounted(calls[..n]);
      CallReported(calls[n]);
    }
  }

  lemma CallReported(c: Call)
    requires W.Rising(c.totals) && W.Invariant(c.totals, c.state)
    ensures W.PostedSum(c.state.posted) <= c.state.runKeys
    ensures c.state.phase.Over? && c.state.ticker.Ready? ==>
      W.PostedSum(c.state.posted) == c.state.runKeys == Last(c.totals)
  {
    hide W.PostedSum, Last, W.Sum;
    W.CountersOrdered(c.totals, c.state);
    assert c.totals[..|c.totals|] == c.totals;
  }

  // At every moment the coordinator's total is at most the keys that the search calls have counted, and what was
  // delivered again. Once every call has made its final report and nothing is on its way, total and dropped
  // deltas are exactly those two together - as long as they fit into 64 bits - so the total is what was
  // counted exactly when as much was dropped as repeated.
  lemma ClusterTotal(maxWorkers: int, log: seq<C.Block>, states: seq<System>, events: seq<Event>, k: nat)
    requires Run(maxWorkers, log, states, events) && k <= |events|
    ensures states[k].account.lobby.clusterTotal <= Counted(states[k].calls) + states[k].repeated
    ensures Settled(states[k]) ==>
      && Counted(states[k].calls) == Totals(states[k].calls)
      && states[k].account.lobby.clusterTotal + states[k].dropped == Counted(states[k].calls) + states[k].repeated
  {
    RunSound(maxWorkers, log, states, events, k);
    TotalOf(states[k]);
  }

  // All is reported, nothing is on its way, and nothing has wrapped.
  predicate Settled(s: System) {
    AllReported(s.calls) && s.wire == [] && Counted(s.calls) + s.repeated < TWO_64
  }

  lemma TotalOf(s: System)
    requires Sound(s)
    ensures s.account.lobby.clusterTotal <= Counted(s.calls) + s.repeated
    ensures Settled(s) ==>
      && Counted(s.calls) == Totals(s.calls)
      && s.account.lobby.clusterTotal + s.dropped == Counted(s.calls) + s.repeated
  {
    hide CallsSound, AllReported, C.LobbySound, C.HitsSound;
    PostedAtMostCounted(s.calls);
  }

  // ---------- the keys really tried ----------

  // The search behind a call: its surroundings, its session file and its script.
  datatype Search = Search(env: Env, file: Option<Session>, rounds: seq<Round>, saved: bool)
  {
    function Result(): Trace {
      ForeverSpec(env, file, rounds, saved)
    }

    // What its latest report leaves out.
    function Unreported(): int {
      env.base.keys + Result().keys - LatestReported(env, file, rounds)
    }
  }

  function Tried(searches: seq<Search>): nat {
    if searches == [] then 0 else Tried(searches[..|searches| - 1]) + searches[|searches| - 1].Result().keys
  }

  function Bases(searches: seq<Search>): nat {
    if searches == [] then 0 else Bases(searches[..|searches| - 1]) + searches[|searches| - 1].env.base.keys
  }

  function UnreportedKeys(searches: seq<Search>): int {
    if searches == [] then 0 else UnreportedKeys(searches[..|searches| - 1]) + searches[|searches| - 1].Unreported()
  }

  ghost predicate Performs(calls: seq<Call>, searches: seq<Search>) {
    |calls| == |searches| && forall i | 0 <= i < |calls| :: calls[i].totals == searches[i].Result().progress
  }

  lemma {:induction false} TotalsOfSearches(calls: seq<Call>, searches: seq<Search>)
    requires Performs(calls, searches)
    ensures Totals(calls) + UnreportedKeys(searches) == Bases(searches) + Tried(searches)
    ensures UnreportedKeys(searches) >= 0
  {
    hide ForeverSpec, LatestReported, Last;
    if calls == [] {
    } else {
      var n := |calls| - 1;
      assert forall i | 0 <= i < n :: calls[..n][i] == calls[i] && searches[..n][i] == searches[i];
      TotalsOfSearches(calls[..n], searches[..n]);
      LastOfSearch(searches[n]);
    }
  }

  lemma LastOfSearch(s: Search)
    ensures Last(s.Result().progress) == LatestReported(s.env, s.file, s.rounds)
    ensures s.Unreported() >= 0
  {
    hide RunOps, AllOps, LatestReported, Last;
    LastIsLatestReported(s.env, s.file, s.rounds);
  }

  // The exact gap between the coordinator's total and the keys tried: session bases and repeated deliveries make it
  // greater; dropped deltas and the keys after each search's latest report make it smaller.
  lemma TotalAgainstTried(maxWorkers: int, log: seq<C.Block>, states: seq<System>, events: seq<Event>, k: nat, searches: seq<Search>)
    requires Run(maxWorkers, log, states, events) && k <= |events|
    requires Settled(states[k]) && Performs(states[k].calls, searches)
    ensures states[k].account.lobby.clusterTotal + states[k].dropped + UnreportedKeys(searches)
         == Tried(searches) + Bases(searches) + states[k].repeated
    ensures UnreportedKeys(searches) >= 0
    ensures states[k].account.lobby.clusterTotal == Tried(searches) <==>
      states[k].dropped + UnreportedKeys(searches) == Bases(searches) + states[k].repeated
  {
    hide Settled, Performs, Run, Next, Enabled;
    assert k < |states| by {
      RunLength(maxWorkers, log, states, events);
    }
    ClusterTotal(maxWorkers, log, states, events, k);
    TotalsOfSearches(states[k].calls, searches);
  }

  lemma RunLength(maxWorkers: int, log: seq<C.Block>, states: seq<System>, events: seq<Event>)
    requires Run(maxWorkers, log, states, events)
    ensures |states| == |events| + 1
  {
  }
}
