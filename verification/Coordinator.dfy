/**
 The cluster coordinator: the lobby of registered workers, the run totals and the hit pipeline
 (coordinator/lobby.go, coordinator/hits.go). Every method of the server holds its lock from start to
 end, so a run of the coordinator is a sequence of whole calls; clocks are arguments.
 */
module Coordinator {
  import opened Common

  const STALE_AFTER: int := 30_000_000_000  // thirty seconds

  datatype WorkerState = Waiting | Running | Offline

  datatype Entry = Entry(state: WorkerState, lastSeen: int, runKeys: nat)

  datatype RunState = InLobby | InRun | Stopping | Ended

  // One block of the wallet log; a block that an error cut short is not whole.
  datatype Block = Block(address: string, whole: bool)

  // How appending a block ends: complete; nothing written; cut short; or complete but not synced.
  datatype Append = Written | NotOpened | Torn | NotSynced

  // The state of the server, and the wallet log on disk.
  datatype Lobby = Lobby(
    maxWorkers: int,
    workers: map<string, Entry>,
    runState: RunState,
    clusterTotal: nat,
    clusterHits: nat,
    hitAddresses: seq<string>,
    log: seq<Block>)

  // ---------- what each call does ----------

  predicate Full(l: Lobby) {
    l.maxWorkers > 0 && |l.workers| >= l.maxWorkers
  }

  function Registered(l: Lobby, id: string, now: int): Lobby {
    if Full(l) then l else l.(workers := l.workers[id := Entry(Waiting, now, 0)])
  }

  // A state other than "running" and "waiting" only refreshes the entry.
  function HeartbeatSeen(l: Lobby, id: string, state: string, now: int): Lobby {
    if id !in l.workers then l
    else
      var w := l.workers[id];
      var next := if state == "running" then Running else if state == "waiting" then Waiting else w.state;
      l.(workers := l.workers[id := w.(lastSeen := now, state := next)])
  }

  function StatsRecorded(l: Lobby, id: string, delta: nat, runKeys: nat, now: int): Lobby {
    if id !in l.workers then l
    else l.(workers := l.workers[id := Entry(Running, now, runKeys)], clusterTotal := (l.clusterTotal + delta) % TWO_64)
  }

  function RunStarted(l: Lobby): Lobby {
    l.(runState := InRun, clusterTotal := 0, clusterHits := 0, hitAddresses := [],
       workers := map id | id in l.workers :: l.workers[id].(state := Running, runKeys := 0))
  }

  function LobbyReset(l: Lobby): Lobby {
    l.(runState := InLobby, workers := map id | id in l.workers :: l.workers[id].(state := Waiting))
  }

  predicate Stale(w: Entry, now: int) {
    w.lastSeen < now - STALE_AFTER
  }

  function Pruned(l: Lobby, now: int): Lobby {
    l.(workers := map id | id in l.workers && !Stale(l.workers[id], now) :: l.workers[id])
  }

  function Appended(log: seq<Block>, address: string, outcome: Append): seq<Block> {
    match outcome
    case NotOpened => log
    case Torn => log + [Block(address, false)]
    case Written => log + [Block(address, true)]
    case NotSynced => log + [Block(address, true)]
  }

  // A report is dropped when its worker is unknown or its address, if it has one, was reported before.
  predicate Accepts(l: Lobby, id: string, address: string) {
    id in l.workers && (address == "" || address !in l.hitAddresses)
  }

  function HitHandled(l: Lobby, id: string, address: string, outcome: Append): Lobby {
    if !Accepts(l, id, address) then l
    else
      l.(hitAddresses := if address != "" then l.hitAddresses + [address] else l.hitAddresses,
         log := Appended(l.log, address, outcome),
         clusterHits := l.clusterHits + if outcome == Written then 1 else 0)
  }

  // ---------- the server ----------

  class Server {
    const maxWorkers: int
    var workers: map<string, Entry>
    var runState: RunState
    var clusterTotal: nat
    var clusterHits: nat
    var hitAddresses: seq<string>
    var log: seq<Block>

    ghost function View(): Lobby
      reads this
    {
      Lobby(maxWorkers, workers, runState, clusterTotal, clusterHits, hitAddresses, log)
    }

    constructor (maxWorkers: int, log: seq<Block>)
      ensures View() == Lobby(maxWorkers, map[], InLobby, 0, 0, [], log)
    {
      this.maxWorkers, this.log := maxWorkers, log;
      workers, runState, clusterTotal, clusterHits, hitAddresses := map[], InLobby, 0, 0, [];
    }

    // The worker id is drawn at random; a full lobby answers with an empty one.
    method Register(id: string, now: int) returns (workerID: string)
      modifies `workers
      ensures View() == Registered(old(View()), id, now)
      ensures workerID == if old(Full(View())) then "" else id
    {
      if maxWorkers > 0 && |workers| >= maxWorkers {
        return "";
      }
      workers := workers[id := Entry(Waiting, now, 0)];
      return id;
    }

    method Heartbeat(id: string, state: string, now: int) returns (known: bool)
      modifies `workers
      ensures View() == HeartbeatSeen(old(View()), id, state, now)
      ensures known <==> id in old(workers)
    {
      if id !in workers {
        return false;
      }
      var w := workers[id].(lastSeen := now);
      if state == "running" {
        w := w.(state := Running);
      } else if state == "waiting" {
        w := w.(state := Waiting);
      }
      workers := workers[id := w];
      return true;
    }

    method RecordStats(id: string, delta: nat, runKeys: nat, now: int)
      modifies `workers, `clusterTotal
      ensures View() == StatsRecorded(old(View()), id, delta, runKeys, now)
    {
      if id !in workers {
        return;
      }
      workers := workers[id := workers[id].(lastSeen := now, runKeys := runKeys, state := Running)];
      clusterTotal := (clusterTotal + delta) % TWO_64;
    }

    method StartRun()
      modifies `workers, `runState, `clusterTotal, `clusterHits, `hitAddresses
      ensures View() == RunStarted(old(View()))
    {
      runState := InRun;
      clusterTotal := 0;
      clusterHits := 0;
      hitAddresses := [];
      ghost var before := workers;
      var left := workers.Keys;
      while left != {}
        invariant left <= workers.Keys == before.Keys
        invariant forall id | id in before ::
          workers[id] == if id in left then before[id] else before[id].(state := Running, runKeys := 0)
        decreases |left|
        modifies `workers
      {
        var id :| id in left;
        workers := workers[id := workers[id].(state := Running, runKeys := 0)];
        left := left - {id};
      }
      assert workers == RunStarted(old(View())).workers;
    }

    method StopRun()
      modifies `runState
      ensures runState == Stopping
    {
      runState := Stopping;
    }

    method EndRun()
      modifies `runState
      ensures runState == Ended
    {
      runState := Ended;
    }

    method ResetLobby()
      modifies `workers, `runState
      ensures View() == LobbyReset(old(View()))
    {
      runState := InLobby;
      ghost var before := workers;
      var left := workers.Keys;
      while left != {}
        invariant left <= workers.Keys == before.Keys
        invariant forall id | id in before ::
          workers[id] == if id in left then before[id] else before[id].(state := Waiting)
        decreases |left|
        modifies `workers
      {
        var id :| id in left;
        workers := workers[id := workers[id].(state := Waiting)];
        left := left - {id};
      }
      assert workers == LobbyReset(old(View())).workers;
    }

    method PruneStale(now: int)
      modifies `workers
      ensures View() == Pruned(old(View()), now)
    {
      var cutoff := now - STALE_AFTER;
      ghost var before := workers;
      var left := workers.Keys;
      while left != {}
        invariant left <= workers.Keys <= before.Keys
        invariant forall id | id in before :: id in workers <==> id in left || !Stale(before[id], now)
        invariant forall id | id in workers :: workers[id] == before[id]
        decreases |left|
        modifies `workers
      {
        var id :| id in left;
        if workers[id].lastSeen < cutoff {
          workers := workers - {id};
        }
        left := left - {id};
      }
      assert workers == Pruned(old(View()), now).workers;
    }

    method AppendWalletHit(address: string, outcome: Append) returns (ok: bool)
      modifies `log
      ensures log == Appended(old(log), address, outcome)
      ensures ok <==> outcome == Written
    {
      match outcome {
        case NotOpened =>
        case Torn => log := log + [Block(address, false)];
        case Written => log := log + [Block(address, true)];
        case NotSynced => log := log + [Block(address, true)];
      }
      return outcome == Written;
    }

    // Succeeds on a dropped duplicate as on a written hit.
    method HandleHit(id: string, address: string, outcome: Append) returns (ok: bool)
      modifies `hitAddresses, `log, `clusterHits
      ensures View() == HitHandled(old(View()), id, address, outcome)
      ensures ok <==> id in workers && (old(address != "" && address in hitAddresses) || outcome == Written)
    {
      if id !in workers {
        return false;
      }
      if address != "" {
        for i := 0 to |hitAddresses|
          invariant hitAddresses == old(hitAddresses) && unchanged(`log, `clusterHits)
          invariant address !in hitAddresses[..i]
        {
          if hitAddresses[i] == address {
            return true;
          }
        }
        hitAddresses := hitAddresses + [address];
      }
      ok := AppendWalletHit(address, outcome);
      if ok {
        clusterHits := clusterHits + 1;
      }
    }
  }

  // ---------- every run of the coordinator ----------

  datatype Event =
    | Register(id: string, now: int)
    | Heartbeat(id: string, state: string, now: int)
    | RecordStats(id: string, delta: nat, runKeys: nat, now: int)
    | StartRun
    | StopRun
    | EndRun
    | ResetLobby
    | PruneStale(now: int)
    | HandleHit(id: string, address: string, outcome: Append)

  function Next(l: Lobby, e: Event): Lobby {
    match e
    case Register(id, now) => Registered(l, id, now)
    case Heartbeat(id, state, now) => HeartbeatSeen(l, id, state, now)
    case RecordStats(id, delta, runKeys, now) => StatsRecorded(l, id, delta, runKeys, now)
    case StartRun => RunStarted(l)
    case StopRun => l.(runState := Stopping)
    case EndRun => l.(runState := Ended)
    case ResetLobby => LobbyReset(l)
    case PruneStale(now) => Pruned(l, now)
    case HandleHit(id, address, outcome) => HitHandled(l, id, address, outcome)
  }

  // What happened since the last start of a run, beside the state itself: where the log stood, the deltas of
  // known workers, the blocks written but not synced, and the addresses whose block was not completed.
  datatype Account = Account(lobby: Lobby, mark: nat, accepted: nat, unsynced: nat, broken: set<string>)

  function Step(a: Account, e: Event): Account {
    var l := Next(a.lobby, e);
    match e
    case StartRun => Account(l, |l.log|, 0, 0, {})
    case RecordStats(id, delta, _, _) => a.(lobby := l, accepted := a.accepted + if id in a.lobby.workers then delta else 0)
    case HandleHit(id, address, outcome) =>
      if !Accepts(a.lobby, id, address) then a.(lobby := l)
      else
        a.(lobby := l,
           unsynced := a.unsynced + if outcome.NotSynced? then 1 else 0,
           broken := if outcome.NotOpened? || outcome.Torn? then a.broken + {address} else a.broken)
    case _ => a.(lobby := l)
  }

  function RunFrom(a: Account, events: seq<Event>): Account {
    if events == [] then a else Step(RunFrom(a, events[..|events| - 1]), events[|events| - 1])
  }

  function New(maxWorkers: int, log: seq<Block>): Account {
    Account(Lobby(maxWorkers, map[], InLobby, 0, 0, [], log), |log|, 0, 0, {})
  }

  function WholeBlocks(log: seq<Block>): nat {
    if log == [] then 0 else WholeBlocks(log[..|log| - 1]) + if log[|log| - 1].whole then 1 else 0
  }

  predicate NoRepeats(addresses: seq<string>) {
    "" !in addresses && forall i, j | 0 <= i < j < |addresses| :: addresses[i] != addresses[j]
  }

  // The log of this run.
  function Since(a: Account): seq<Block> {
    if a.mark <= |a.lobby.log| then a.lobby.log[a.mark..] else []
  }

  ghost predicate LoggedOnce(log: seq<Block>) {
    forall i, j | 0 <= i < j < |log| && log[i].address != "" :: log[i].address != log[j].address
  }

  ghost predicate HasBlock(log: seq<Block>, address: string) {
    exists i :: 0 <= i < |log| && log[i] == Block(address, true)
  }

  // The lobby stays within its cap and lists no worker as offline.
  ghost predicate LobbySound(l: Lobby) {
    && (l.maxWorkers > 0 ==> |l.workers| <= l.maxWorkers)
    && (forall id | id in l.workers :: !l.workers[id].state.Offline?)
  }

  // Hits are counted once per synced block; every address is logged at most once and only as a remembered one;
  // a remembered address either has its block or was broken, never both.
  ghost predicate HitsSound(a: Account) {
    a.mark <= |a.lobby.log| && CountSound(a) && LogSound(a) && RememberedSound(a)
  }

  ghost predicate CountSound(a: Account) {
    a.lobby.clusterHits + a.unsynced == WholeBlocks(Since(a))
  }

  ghost predicate LogSound(a: Account) {
    && LoggedOnce(Since(a))
    && forall i | 0 <= i < |Since(a)| && Since(a)[i].address != "" :: Since(a)[i].address in a.lobby.hitAddresses
  }

  ghost predicate RememberedSound(a: Account) {
    && NoRepeats(a.lobby.hitAddresses)
    && (forall address | address in a.lobby.hitAddresses :: HasBlock(Since(a), address) <==> address !in a.broken)
    && (forall address | address in a.broken && address != "" :: address in a.lobby.hitAddresses)
  }

  ghost predicate Sound(a: Account) {
    LobbySound(a.lobby) && HitsSound(a) && a.lobby.clusterTotal == a.accepted % TWO_64
  }

  lemma NewSound(maxWorkers: int, log: seq<Block>)
    ensures Sound(New(maxWorkers, log))
  {
  }

  lemma LobbyStep(l: Lobby, e: Event)
    requires LobbySound(l)
    ensures LobbySound(Next(l, e))
  {
    var u := Next(l, e);
    match e
    case Register(id, now) => AddedKey(l.workers, id, Entry(Waiting, now, 0));
    case Heartbeat(id, _, _) =>
      if id in l.workers {
        AddedKey(l.workers, id, u.workers[id]);
      }
    case RecordStats(id, _, _, _) =>
      if id in l.workers {
        AddedKey(l.workers, id, u.workers[id]);
      }
    case StartRun => FewerKeys(u.workers, l.workers);
    case ResetLobby => FewerKeys(u.workers, l.workers);
    case PruneStale(_) => FewerKeys(u.workers, l.workers);
    case StopRun =>
    case EndRun =>
    case HandleHit(_, _, _) =>
  }

  lemma AddedKey(m: map<string, Entry>, id: string, w: Entry)
    ensures |m[id := w]| == |m| + if id in m then 0 else 1
  {
    assert m[id := w].Keys == m.Keys + {id};
  }

  lemma FewerKeys(m: map<string, Entry>, n: map<string, Entry>)
    requires m.Keys <= n.Keys
    ensures |m| <= |n|
  {
    SubsetSize(m.Keys, n.Keys);
  }

  lemma {:induction false} SubsetSize(a: set<string>, b: set<string>)
    requires a <= b
    ensures |a| <= |b|
  {
    if a == {} {
    } else {
      var x :| x in a;
      SubsetSize(a - {x}, b - {x});
    }
  }

  // An accepted report adds no block, or one at the end.
  lemma SinceStep(a: Account, id: string, address: string, outcome: Append)
    requires a.mark <= |a.lobby.log| && Accepts(a.lobby, id, address)
    ensures Since(Step(a, HandleHit(id, address, outcome)))
         == if outcome.NotOpened? then Since(a) else Since(a) + [Block(address, !outcome.Torn?)]
    ensures a.mark == Step(a, HandleHit(id, address, outcome)).mark <= |Step(a, HandleHit(id, address, outcome)).lobby.log|
  {
  }

  lemma HitStep(a: Account, id: string, address: string, outcome: Append)
    requires HitsSound(a)
    ensures HitsSound(Step(a, HandleHit(id, address, outcome)))
  {
    hide Since, CountSound, LogSound, RememberedSound;
    if Accepts(a.lobby, id, address) {
      SinceStep(a, id, address, outcome);
      CountStep(a, id, address, outcome);
      LogStep(a, id, address, outcome);
      RememberedStep(a, id, address, outcome);
    } else {
      assert Step(a, HandleHit(id, address, outcome)) == a;
    }
  }

  lemma WholeAppend(log: seq<Block>, block: Block)
    ensures WholeBlocks(log + [block]) == WholeBlocks(log) + if block.whole then 1 else 0
  {
    assert (log + [block])[..|log|] == log;
  }

  lemma CountStep(a: Account, id: string, address: string, outcome: Append)
    requires HitsSound(a) && Accepts(a.lobby, id, address)
    ensures CountSound(Step(a, HandleHit(id, address, outcome)))
  {
    hide Since, LogSound, RememberedSound, Appended, WholeBlocks;
    SinceStep(a, id, address, outcome);
    WholeAppend(Since(a), Block(address, !outcome.Torn?));
  }

  lemma LogStep(a: Account, id: string, address: string, outcome: Append)
    requires HitsSound(a) && Accepts(a.lobby, id, address)
    ensures LogSound(Step(a, HandleHit(id, address, outcome)))
  {
    hide Since, CountSound, RememberedSound;
    SinceStep(a, id, address, outcome);
    var u := Step(a, HandleHit(id, address, outcome));
    forall i | 0 <= i < |Since(u)| && Since(u)[i].address != ""
      ensures Since(u)[i].address in u.lobby.hitAddresses
    {
      if i == |Since(a)| {
        assert Since(u)[i].address == address;
      } else {
        assert Since(u)[i] == Since(a)[i];
      }
    }
  }

  // The new address has its block, or is broken; nothing changes for the others.
  lemma RememberedStep(a: Account, id: string, address: string, outcome: Append)
    requires HitsSound(a) && Accepts(a.lobby, id, address)
    ensures RememberedSound(Step(a, HandleHit(id, address, outcome)))
  {
    hide Since, CountSound, HasBlock, LoggedOnce;
    SinceStep(a, id, address, outcome);
    var u := Step(a, HandleHit(id, address, outcome));
    NewAddressHasNoBlock(a, address);
    forall x | x in u.lobby.hitAddresses ensures HasBlock(Since(u), x) <==> x !in u.broken {
      BlockAppend(Since(a), Block(address, !outcome.Torn?), x);
    }
  }

  lemma NewAddressHasNoBlock(a: Account, address: string)
    requires LogSound(a) && (address == "" || address !in a.lobby.hitAddresses)
    ensures address != "" ==> !HasBlock(Since(a), address)
  {
  }

  lemma BlockAppend(log: seq<Block>, block: Block, address: string)
    ensures HasBlock(log + [block], address) <==> HasBlock(log, address) || block == Block(address, true)
  {
    var more := log + [block];
    assert more[|log|] == block;
    if HasBlock(log, address) {
      var i :| 0 <= i < |log| && log[i] == Block(address, true);
      assert more[i] == Block(address, true);
    }
  }

  lemma StepSound(a: Account, e: Event)
    requires Sound(a)
    ensures Sound(Step(a, e))
  {
    hide HitsSound, LobbySound;
    LobbyStep(a.lobby, e);
    if e.HandleHit? {
      HitStep(a, e.id, e.address, e.outcome);
    } else {
      OtherStep(a, e);
    }
    if e.RecordStats? {
      SumWraps(a.accepted, e.delta);
    }
  }

  lemma OtherStep(a: Account, e: Event)
    requires HitsSound(a) && !e.HandleHit?
    ensures HitsSound(Step(a, e))
  {
    hide CountSound, LogSound, RememberedSound, HeartbeatSeen, StatsRecorded;
    var u := Step(a, e);
    if e.StartRun? {
      FreshStart(u);
    } else {
      HitFieldsKept(a.lobby, e);
      SameHits(a, u);
    }
  }

  lemma FreshStart(u: Account)
    requires u.mark == |u.lobby.log| && u.lobby.clusterHits == 0 && u.unsynced == 0
    requires u.lobby.hitAddresses == [] && u.broken == {}
    ensures HitsSound(u)
  {
  }

  lemma HitFieldsKept(l: Lobby, e: Event)
    requires !e.HandleHit? && !e.StartRun?
    ensures var u := Next(l, e); u.log == l.log && u.clusterHits == l.clusterHits && u.hitAddresses == l.hitAddresses
  {
  }

  lemma SameHits(a: Account, u: Account)
    requires HitsSound(a)
    requires u.lobby.log == a.lobby.log && u.lobby.clusterHits == a.lobby.clusterHits
    requires u.lobby.hitAddresses == a.lobby.hitAddresses
    requires u.mark == a.mark && u.unsynced == a.unsynced && u.broken == a.broken
    ensures HitsSound(u)
  {
    hide WholeBlocks, HasBlock, LoggedOnce, NoRepeats;
    assert Since(u) == Since(a);
  }

  lemma SumWraps(total: nat, delta: nat)
    ensures (total % TWO_64 + delta) % TWO_64 == (total + delta) % TWO_64
  {
  }

  lemma {:induction false} RunSound(a: Account, events: seq<Event>)
    requires Sound(a)
    ensures Sound(RunFrom(a, events))
  {
    hide Sound, Step;
    if events == [] {
    } else {
      RunSound(a, events[..|events| - 1]);
      StepSound(RunFrom(a, events[..|events| - 1]), events[|events| - 1]);
    }
  }

  // ---------- what the invariant says ----------

  // Over every run of the coordinator, with appends failing in any way: the lobby keeps its cap; since the last
  // start no address is logged twice; hits equal whole blocks exactly when every whole block was also synced; and
  // the logged addresses are all remembered, with equality exactly when no append of an address broke.
  lemma CoordinatorRuns(maxWorkers: int, log: seq<Block>, events: seq<Event>)
    ensures var a := RunFrom(New(maxWorkers, log), events);
      && (a.lobby.maxWorkers > 0 ==> |a.lobby.workers| <= a.lobby.maxWorkers)
      && NoRepeats(a.lobby.hitAddresses) && LoggedOnce(Since(a))
      && (a.lobby.clusterHits == WholeBlocks(Since(a)) <==> a.unsynced == 0)
      && (forall address | address != "" && HasBlock(Since(a), address) :: address in a.lobby.hitAddresses)
      && ((forall address | address in a.lobby.hitAddresses :: HasBlock(Since(a), address)) <==> a.broken <= {""})
  {
    NewSound(maxWorkers, log);
    RunSound(New(maxWorkers, log), events);
    var a := RunFrom(New(maxWorkers, log), events);
    forall address | address != "" && HasBlock(Since(a), address) ensures address in a.lobby.hitAddresses {
      var i :| 0 <= i < |Since(a)| && Since(a)[i] == Block(address, true);
    }
  }

  // An address whose first append fails is lost: until the next start of a run no event whatsoever gives it a
  // block, because every further report of it, by any worker, changes nothing.
  lemma {:induction false} FailedHitIsLost(a: Account, id: string, address: string, outcome: Append, events: seq<Event>)
    requires Sound(a) && Accepts(a.lobby, id, address) && address != "" && (outcome.NotOpened? || outcome.Torn?)
    requires forall i | 0 <= i < |events| :: !events[i].StartRun?
    ensures var u := RunFrom(Step(a, HandleHit(id, address, outcome)), events);
      && Sound(u) && address in u.broken && !HasBlock(Since(u), address)
      && forall w, o :: Next(u.lobby, HandleHit(w, address, o)) == u.lobby
  {
    hide Sound, HitsSound, LobbySound, HasBlock, Next;
    var first := Step(a, HandleHit(id, address, outcome));
    StepSound(a, HandleHit(id, address, outcome));
    if events == [] {
      BrokenHasNoBlock(first, address);
    } else {
      var n := |events| - 1;
      FailedHitIsLost(a, id, address, outcome, events[..n]);
      StepSound(RunFrom(first, events[..n]), events[n]);
      BrokenHasNoBlock(RunFrom(first, events), address);
    }
  }

  lemma BrokenHasNoBlock(a: Account, address: string)
    requires Sound(a) && address in a.broken && address != ""
    ensures !HasBlock(Since(a), address)
    ensures forall w, o :: Next(a.lobby, HandleHit(w, address, o)) == a.lobby
  {
  }

  lemma RunStep(a: Account, events: seq<Event>, e: Event)
    ensures RunFrom(a, events + [e]) == Step(RunFrom(a, events), e)
  {
    assert (events + [e])[..|events|] == events;
  }

  // A concrete lost hit: the log cannot be opened, the worker reports the address again, and still there is no block.
  lemma LostHit()
    ensures var failed, again := HandleHit("w", "addr", NotOpened), HandleHit("w", "addr", Written);
      var a := RunFrom(New(0, []), [Register("w", 0), failed, again]);
      "addr" in a.lobby.hitAddresses && !HasBlock(Since(a), "addr") && a.lobby.clusterHits == 0
  {
    hide Step;
    var register, failed, again := Register("w", 0), HandleHit("w", "addr", NotOpened), HandleHit("w", "addr", Written);
    RunStep(New(0, []), [], register);
    RunStep(New(0, []), [register], failed);
    RunStep(New(0, []), [register, failed], again);
    assert [] + [register] == [register] && [register] + [failed] == [register, failed];
    assert [register, failed] + [again] == [register, failed, again];
    ThreeSteps(New(0, []), register, failed, again);
  }

  lemma ThreeSteps(a: Account, d: Event, e: Event, f: Event)
    requires a == New(0, []) && d == Register("w", 0)
    requires e == HandleHit("w", "addr", NotOpened) && f == HandleHit("w", "addr", Written)
    ensures var u := Step(Step(Step(a, d), e), f);
      u.lobby.hitAddresses == ["addr"] && Since(u) == [] && u.lobby.clusterHits == 0
  {
  }

  // A concrete uncounted block: the block is written whole, its sync fails.
  lemma UncountedBlock()
    ensures var a := RunFrom(New(0, []), [Register("w", 0), HandleHit("w", "addr", NotSynced)]);
      a.lobby.clusterHits == 0 && WholeBlocks(Since(a)) == 1
  {
    var register, hit := Register("w", 0), HandleHit("w", "addr", NotSynced);
    RunStep(New(0, []), [], register);
    RunStep(New(0, []), [register], hit);
    assert [] + [register] == [register] && [register] + [hit] == [register, hit];
    assert Since(Step(Step(New(0, []), register), hit)) == [] + [Block("addr", true)];
    WholeAppend([], Block("addr", true));
  }

  // ---------- what reaches the log ----------

  // A new hit of a listed worker is logged and counted, in every state of the run.
  lemma NewHitLogged(a: Account, id: string, address: string)
    requires Sound(a) && id in a.lobby.workers && (address == "" || address !in a.lobby.hitAddresses)
    ensures var u := Step(a, HandleHit(id, address, Written));
      && u.lobby.log == a.lobby.log + [Block(address, true)] && HasBlock(Since(u), address)
      && u.lobby.clusterHits == a.lobby.clusterHits + 1
      && u.lobby.hitAddresses == a.lobby.hitAddresses + if address == "" then [] else [address]
  {
    hide CountSound, LogSound, RememberedSound, LobbySound, Since, HasBlock;
    SinceStep(a, id, address, Written);
    BlockAppend(Since(a), Block(address, true), address);
  }

  // A worker that was listed at that time has reported the address since the latest start of a run.
  ghost predicate ReportedSince(maxWorkers: int, log: seq<Block>, events: seq<Event>, address: string) {
    exists i :: 0 <= i < |events| && IsReport(maxWorkers, log, events, i, address) && forall j | i < j < |events| :: !events[j].StartRun?
  }

  predicate IsReport(maxWorkers: int, log: seq<Block>, events: seq<Event>, i: nat, address: string)
    requires i < |events|
  {
    events[i].HandleHit? && events[i].address == address && events[i].id in RunFrom(New(maxWorkers, log), events[..i]).lobby.workers
  }

  // Exactly the addresses reported since the latest start are remembered, whatever became of their appends.
  lemma {:induction false} RememberedIff(maxWorkers: int, log: seq<Block>, events: seq<Event>, address: string)
    requires address != ""
    ensures address in RunFrom(New(maxWorkers, log), events).lobby.hitAddresses <==> ReportedSince(maxWorkers, log, events, address)
  {
    hide Step, ReportedSince;
    if events == [] {
      NothingReported(maxWorkers, log, address);
    } else {
      var n := |events| - 1;
      RememberedIff(maxWorkers, log, events[..n], address);
      ReportedStep(maxWorkers, log, events, address);
      NextRemembers(RunFrom(New(maxWorkers, log), events[..n]), events[n], address);
    }
  }

  lemma NothingReported(maxWorkers: int, log: seq<Block>, address: string)
    ensures !ReportedSince(maxWorkers, log, [], address)
  {
  }

  lemma NextRemembers(a: Account, e: Event, address: string)
    requires address != ""
    ensures address in Step(a, e).lobby.hitAddresses <==>
      && !e.StartRun?
      && (address in a.lobby.hitAddresses || (e.HandleHit? && e.address == address && e.id in a.lobby.workers))
  {
    if !e.HandleHit? && !e.StartRun? {
      HitFieldsKept(a.lobby, e);
    }
  }

  lemma ReportedStep(maxWorkers: int, log: seq<Block>, events: seq<Event>, address: string)
    requires events != []
    ensures var n := |events| - 1;
      ReportedSince(maxWorkers, log, events, address) <==>
        || IsReport(maxWorkers, log, events, n, address)
        || (!events[n].StartRun? && ReportedSince(maxWorkers, log, events[..n], address))
  {
    hide RunFrom;
    var n := |events| - 1;
    assert forall i | 0 <= i < n :: events[..n][i] == events[i] && events[..n][..i] == events[..i];
    if ReportedSince(maxWorkers, log, events, address) {
      var i :| 0 <= i <= n && IsReport(maxWorkers, log, events, i, address) && forall j | i < j <= n :: !events[j].StartRun?;
      if i < n {
        assert IsReport(maxWorkers, log, events[..n], i, address);
        assert !events[n].StartRun?;
      }
    }
    if IsReport(maxWorkers, log, events, n, address) {
      assert ReportedSince(maxWorkers, log, events, address);
    }
    if ReportedSince(maxWorkers, log, events[..n], address) && !events[n].StartRun? {
      var i :| 0 <= i < n && IsReport(maxWorkers, log, events[..n], i, address) && forall j | i < j < n :: !events[..n][j].StartRun?;
      assert IsReport(maxWorkers, log, events, i, address);
    }
  }

  // Over every run: the first report of an address since the latest start, by a worker that is listed, is logged and counted.
  lemma FirstReportLogged(maxWorkers: int, log: seq<Block>, events: seq<Event>, id: string, address: string)
    requires id in RunFrom(New(maxWorkers, log), events).lobby.workers
    requires address != "" && !ReportedSince(maxWorkers, log, events, address)
    ensures var a, u := RunFrom(New(maxWorkers, log), events), RunFrom(New(maxWorkers, log), events + [HandleHit(id, address, Written)]);
      && u.lobby.log == a.lobby.log + [Block(address, true)] && HasBlock(Since(u), address)
      && u.lobby.clusterHits == a.lobby.clusterHits + 1
  {
    hide RunFrom, Step, Sound, Since, HasBlock;
    NewSound(maxWorkers, log);
    RunSound(New(maxWorkers, log), events);
    RememberedIff(maxWorkers, log, events, address);
    RunStep(New(maxWorkers, log), events, HandleHit(id, address, Written));
    NewHitLogged(RunFrom(New(maxWorkers, log), events), id, address);
  }

  // ---------- the state of the run ----------

  // Reading the calls from the latest one back.
  function LatestRunState(events: seq<Event>): RunState {
    if events == [] then InLobby
    else
      match events[|events| - 1]
      case StartRun => InRun
      case StopRun => Stopping
      case EndRun => Ended
      case ResetLobby => InLobby
      case _ => LatestRunState(events[..|events| - 1])
  }

  lemma {:induction false} RunStateIsLatest(maxWorkers: int, log: seq<Block>, events: seq<Event>)
    ensures RunFrom(New(maxWorkers, log), events).lobby.runState == LatestRunState(events)
    ensures RunFrom(New(maxWorkers, log), events).lobby.maxWorkers == maxWorkers
  {
    if events == [] {
    } else {
      RunStateIsLatest(maxWorkers, log, events[..|events| - 1]);
    }
  }

  // Over every run: a worker that registers is listed as waiting, with no keys, exactly when there is no cap or
  // the lobby is below it; every other worker stays as it was, and so does everything else.
  lemma RegisterAdmits(maxWorkers: int, log: seq<Block>, events: seq<Event>, id: string, now: int)
    requires id !in RunFrom(New(maxWorkers, log), events).lobby.workers
    ensures var before := RunFrom(New(maxWorkers, log), events).lobby;
      var after := RunFrom(New(maxWorkers, log), events + [Register(id, now)]).lobby;
      && (id in after.workers <==> maxWorkers <= 0 || |before.workers| < maxWorkers)
      && (id in after.workers ==> after.workers[id] == Entry(Waiting, now, 0))
      && (forall other | other != id :: other in after.workers <==> other in before.workers)
      && (forall other | other in before.workers :: after.workers[other] == before.workers[other])
      && after == before.(workers := after.workers)
  {
    hide RunFrom;
    RunStep(New(maxWorkers, log), events, Register(id, now));
    RunStateIsLatest(maxWorkers, log, events);
  }

  // ---------- what the lobby knows of one worker ----------

  // Calls in which this worker is heard of.
  predicate HeardIn(e: Event, id: string) {
    match e
    case Register(who, _) => who == id
    case Heartbeat(who, _, _) => who == id
    case RecordStats(who, _, _, _) => who == id
    case _ => false
  }

  // Each reads the calls from the latest one back, down to what is known at the start.
  function LatestTime(first: int, events: seq<Event>, id: string): int {
    if events == [] then first
    else
      var e := events[|events| - 1];
      if HeardIn(e, id) then e.now else LatestTime(first, events[..|events| - 1], id)
  }

  function LatestRunKeys(first: nat, events: seq<Event>, id: string): nat {
    if events == [] then first
    else
      var e := events[|events| - 1];
      if e.StartRun? then 0
      else if e.RecordStats? && e.id == id then e.runKeys
      else LatestRunKeys(first, events[..|events| - 1], id)
  }

  // A start, a report and a "running" heartbeat make a worker run; a reset and a "waiting" heartbeat make it wait.
  function LatestState(first: WorkerState, events: seq<Event>, id: string): WorkerState {
    if events == [] then first
    else
      var e := events[|events| - 1];
      if e.StartRun? || (e.RecordStats? && e.id == id) || (e.Heartbeat? && e.id == id && e.state == "running") then Running
      else if e.ResetLobby? || (e.Heartbeat? && e.id == id && e.state == "waiting") then Waiting
      else LatestState(first, events[..|events| - 1], id)
  }

  function LobbyAfter(l: Lobby, events: seq<Event>): Lobby {
    if events == [] then l else Next(LobbyAfter(l, events[..|events| - 1]), events[|events| - 1])
  }

  // At every pruning the worker had been heard of within the last thirty seconds.
  ghost predicate NeverSilent(first: int, events: seq<Event>, id: string) {
    forall i | 0 <= i < |events| && events[i].PruneStale? :: LatestTime(first, events[..i], id) >= events[i].now - 30_000_000_000
  }

  // A registered worker whose id is not drawn again is listed exactly as long as it was never silent for thirty
  // seconds at a pruning; and while it is listed, its entry holds what the latest call about it said.
  lemma {:induction false} ListedWhileHeard(l: Lobby, id: string, events: seq<Event>)
    requires id in l.workers && forall e | e in events && e.Register? :: e.id != id
    ensures var u, w := LobbyAfter(l, events), l.workers[id];
      && (id in u.workers <==> NeverSilent(w.lastSeen, events, id))
      && (id in u.workers ==> u.workers[id] == Entry(LatestState(w.state, events, id),
                                LatestTime(w.lastSeen, events, id), LatestRunKeys(w.runKeys, events, id)))
  {
    if events == [] {
    } else {
      var n := |events| - 1;
      var front, e := events[..n], events[n];
      assert e in events;
      ListedWhileHeard(l, id, front);
      SilentStep(l.workers[id].lastSeen, events, id);
      EntryStep(LobbyAfter(l, front), e, id);
    }
  }

  lemma SilentStep(first: int, events: seq<Event>, id: string)
    requires events != []
    ensures var n := |events| - 1;
      NeverSilent(first, events, id) <==>
        && NeverSilent(first, events[..n], id)
        && (events[n].PruneStale? ==> LatestTime(first, events[..n], id) >= events[n].now - STALE_AFTER)
  {
    hide LatestTime;
    var n := |events| - 1;
    assert forall i | 0 <= i < n :: events[..n][i] == events[i] && events[..n][..i] == events[..i];
  }

  // One call and one entry.
  lemma EntryStep(l: Lobby, e: Event, id: string)
    requires e.Register? ==> e.id != id
    ensures id in Next(l, e).workers <==> id in l.workers && !(e.PruneStale? && Stale(l.workers[id], e.now))
    ensures id in Next(l, e).workers ==>
      var w, u := l.workers[id], Next(l, e).workers[id];
      && u.lastSeen == (if HeardIn(e, id) then e.now else w.lastSeen)
      && u.runKeys == (if e.StartRun? then 0 else if e.RecordStats? && e.id == id then e.runKeys else w.runKeys)
      && u.state ==
        (if e.StartRun? || (e.RecordStats? && e.id == id) || (e.Heartbeat? && e.id == id && e.state == "running") then Running
         else if e.ResetLobby? || (e.Heartbeat? && e.id == id && e.state == "waiting") then Waiting
         else w.state)
  {
  }
}
