/**
 The generator goroutines and their bounded channel (search/workers.go), with the consumer that
 receives batches and processes their wallets (search/run.go), as a step system. Batches live in
 a heap and are passed by reference, so a batch that two parties could touch would show.
 */
module WorkerPool {
  import opened Bitcoin

  const KEY_BATCH_SIZE: nat := 128

  // A generated wallet, tagged with the generator it comes from.
  datatype Item = Item(gen: nat, wallet: LookupKeys)

  // The consumer's batch and how many of its wallets are processed.
  datatype Hand = Empty | Holding(batch: nat, done: nat)

  datatype State = State(
    heap: map<nat, seq<Item>>,   // batches by reference
    next: nat,                   // references from here on are unused
    gens: seq<nat>,              // each generator's current batch
    chan: seq<nat>,              // sent batches, in order
    hand: Hand,
    processed: seq<Item>,        // what ProcessWallet has seen
    generated: seq<seq<Item>>,   // what each generator has produced
    count: nat)                  // how many wallets were produced in all

  datatype Step =
    | Generate(g: nat, wallet: LookupKeys)
    | Send(g: nat)
    | Receive
    | Process
    | Release

  function EmptyHeap(n: nat): (heap: map<nat, seq<Item>>)
    ensures forall r: nat :: r in heap <==> r < n
    ensures forall r: nat | r < n :: heap[r] == []
  {
    if n == 0 then map[] else EmptyHeap(n - 1)[n - 1 := []]
  }

  // n empty batches, an empty channel of capacity n.
  function Init(n: nat): State {
    State(EmptyHeap(n), n, seq(n, g => g), [], Empty, [], seq(n, _ => []), 0)
  }

  predicate Enabled(n: nat, s: State, step: Step) {
    match step
    case Generate(g, _) => g < |s.gens| && g < |s.generated| && s.gens[g] in s.heap && |s.heap[s.gens[g]]| < KEY_BATCH_SIZE
    case Send(g) => g < |s.gens| && s.gens[g] in s.heap && |s.heap[s.gens[g]]| >= KEY_BATCH_SIZE && |s.chan| < n
    case Receive => s.hand.Empty? && s.chan != []
    case Process => s.hand.Holding? && s.hand.batch in s.heap && s.hand.done < |s.heap[s.hand.batch]|
    case Release => s.hand.Holding? && s.hand.batch in s.heap && s.hand.done >= |s.heap[s.hand.batch]|
  }

  function Do(n: nat, s: State, step: Step): State
    requires Enabled(n, s, step)
  {
    match step
    case Generate(g, wallet) =>
      var item := Item(g, wallet);
      var b := s.gens[g];
      s.(heap := s.heap[b := s.heap[b] + [item]], generated := s.generated[g := s.generated[g] + [item]], count := s.count + 1)
    case Send(g) =>
      s.(chan := s.chan + [s.gens[g]], heap := s.heap[s.next := []], gens := s.gens[g := s.next], next := s.next + 1)
    case Receive =>
      s.(hand := Holding(s.chan[0], 0), chan := s.chan[1..])
    case Process =>
      s.(processed := s.processed + [s.heap[s.hand.batch][s.hand.done]], hand := s.hand.(done := s.hand.done + 1))
    case Release =>
      s.(hand := Empty)
  }

  // ---------- invariant ----------

  // The items of one generator, in order.
  function Of(items: seq<Item>, g: nat): seq<Item> {
    if items == [] then []
    else Of(items[..|items| - 1], g) + if items[|items| - 1].gen == g then [items[|items| - 1]] else []
  }

  function Contents(heap: map<nat, seq<Item>>, refs: seq<nat>): seq<Item>
    requires forall r | r in refs :: r in heap
  {
    if refs == [] then [] else heap[refs[0]] + Contents(heap, refs[1..])
  }

  // References out of the generators' hands: in the consumer's, then in the channel.
  function Sent(s: State): seq<nat> {
    (if s.hand.Holding? then [s.hand.batch] else []) + s.chan
  }

  predicate Distinct(refs: seq<nat>) {
    forall i, j | 0 <= i < j < |refs| :: refs[i] != refs[j]
  }

  // Nobody shares a batch, and nobody holds a reference that is not yet in use.
  predicate Unshared(n: nat, s: State) {
    && |s.gens| == |s.generated| == n && |s.chan| <= n
    && Distinct(Sent(s) + s.gens)
    && forall r | r in Sent(s) + s.gens :: r in s.heap && r < s.next
  }

  // Batches of a generator hold only its own items, and only full batches are sent.
  predicate Owned(n: nat, s: State)
    requires Unshared(n, s)
  {
    && (forall g | 0 <= g < n :: |s.heap[s.gens[g]]| <= KEY_BATCH_SIZE && AllFrom(s.heap[s.gens[g]], g))
    && (forall r | r in Sent(s) :: |s.heap[r]| == KEY_BATCH_SIZE)
    && (s.hand.Holding? ==> s.hand.done <= KEY_BATCH_SIZE)
  }

  predicate AllFrom(items: seq<Item>, g: nat) {
    forall item | item in items :: item.gen == g
  }

  // What the consumer has received but not processed, then what is in the channel.
  function InFlight(n: nat, s: State): seq<Item>
    requires Unshared(n, s) && Owned(n, s)
  {
    (if s.hand.Holding? then s.heap[s.hand.batch][s.hand.done..] else []) + Contents(s.heap, s.chan)
  }

  // Every generator's output is, in order: processed, in flight, and still in its own batch.
  ghost predicate Conserved(n: nat, s: State)
    requires Unshared(n, s) && Owned(n, s)
  {
    forall g | 0 <= g < n :: s.generated[g] == Of(s.processed, g) + Of(InFlight(n, s), g) + s.heap[s.gens[g]]
  }

  function BatchTotal(n: nat, s: State, k: nat): nat
    requires Unshared(n, s) && k <= n
  {
    if k == 0 then 0 else BatchTotal(n, s, k - 1) + |s.heap[s.gens[k - 1]]|
  }

  ghost predicate Counted(n: nat, s: State)
    requires Unshared(n, s) && Owned(n, s)
  {
    s.count == |s.processed| + |InFlight(n, s)| + BatchTotal(n, s, n)
  }

  ghost predicate Invariant(n: nat, s: State) {
    Unshared(n, s) && Owned(n, s) && Conserved(n, s) && Counted(n, s)
  }

  // ---------- lemmas on sequences ----------

  lemma {:induction false} OfAppend(a: seq<Item>, b: seq<Item>, g: nat)
    ensures Of(a + b, g) == Of(a, g) + Of(b, g)
  {
    if b == [] {
      assert a + b == a;
    } else {
      assert (a + b)[..|a + b| - 1] == a + b[..|b| - 1];
      OfAppend(a, b[..|b| - 1], g);
    }
  }

  lemma {:induction false} OfOwn(items: seq<Item>, owner: nat, g: nat)
    requires AllFrom(items, owner)
    ensures Of(items, g) == if g == owner then items else []
  {
    if items == [] {
    } else {
      assert items[|items| - 1] in items;
      OfOwn(items[..|items| - 1], owner, g);
      assert items == items[..|items| - 1] + [items[|items| - 1]];
    }
  }

  lemma {:induction false} ContentsAppend(heap: map<nat, seq<Item>>, refs: seq<nat>, r: nat)
    requires r in heap && forall x | x in refs :: x in heap
    ensures Contents(heap, refs + [r]) == Contents(heap, refs) + heap[r]
  {
    if refs == [] {
      assert refs + [r] == [r];
      assert Contents(heap, [r]) == heap[r] + Contents(heap, []);
    } else {
      assert (refs + [r])[1..] == refs[1..] + [r];
      ContentsAppend(heap, refs[1..], r);
    }
  }

  lemma {:induction false} ContentsFrame(heap: map<nat, seq<Item>>, heap': map<nat, seq<Item>>, refs: seq<nat>)
    requires forall r | r in refs :: r in heap && r in heap' && heap'[r] == heap[r]
    ensures Contents(heap', refs) == Contents(heap, refs)
  {
    if refs == [] {
    } else {
      ContentsFrame(heap, heap', refs[1..]);
    }
  }

  lemma {:induction false} BatchTotalStep(n: nat, s: State, u: State, g: nat, k: nat)
    requires Unshared(n, s) && Unshared(n, u) && g < n && k <= n
    requires forall i | 0 <= i < n && i != g :: |u.heap[u.gens[i]]| == |s.heap[s.gens[i]]|
    ensures BatchTotal(n, u, k) + (if g < k then |s.heap[s.gens[g]]| else 0)
         == BatchTotal(n, s, k) + (if g < k then |u.heap[u.gens[g]]| else 0)
  {
    if k == 0 {
    } else {
      BatchTotalStep(n, s, u, g, k - 1);
    }
  }

  lemma {:induction false} BatchTotalFrame(n: nat, s: State, u: State, k: nat)
    requires Unshared(n, s) && Unshared(n, u) && k <= n
    requires forall i | 0 <= i < n :: u.heap[u.gens[i]] == s.heap[s.gens[i]]
    ensures BatchTotal(n, u, k) == BatchTotal(n, s, k)
  {
    if k == 0 {
    } else {
      BatchTotalFrame(n, s, u, k - 1);
    }
  }

  lemma {:induction false} BatchTotalBound(n: nat, s: State, k: nat)
    requires Unshared(n, s) && Owned(n, s) && k <= n
    ensures BatchTotal(n, s, k) <= KEY_BATCH_SIZE * k
  {
    if k == 0 {
    } else {
      BatchTotalBound(n, s, k - 1);
    }
  }

  lemma {:induction false} ContentsBound(heap: map<nat, seq<Item>>, refs: seq<nat>)
    requires forall r | r in refs :: r in heap && |heap[r]| == KEY_BATCH_SIZE
    ensures |Contents(heap, refs)| == KEY_BATCH_SIZE * |refs|
  {
    if refs == [] {
    } else {
      ContentsBound(heap, refs[1..]);
    }
  }

  lemma DistinctConcat(a: seq<nat>, b: seq<nat>)
    ensures Distinct(a + b) <==> Distinct(a) && Distinct(b) && forall x | x in a :: x !in b
  {
    var c := a + b;
    if Distinct(c) {
      forall i, j | 0 <= i < j < |a| ensures a[i] != a[j] {
        assert c[i] != c[j];
      }
      forall i, j | 0 <= i < j < |b| ensures b[i] != b[j] {
        assert c[|a| + i] != c[|a| + j];
      }
      forall i, j | 0 <= i < |a| && 0 <= j < |b| ensures a[i] != b[j] {
        assert c[i] != c[|a| + j];
      }
    }
    if Distinct(a) && Distinct(b) && forall x | x in a :: x !in b {
      forall i, j | 0 <= i < j < |c| ensures c[i] != c[j] {
        if i < |a| <= j {
          assert a[i] in a && b[j - |a|] in b;
        }
      }
    }
  }

  // ---------- every step keeps the invariant ----------

  // A sent batch is out of reach: no step of any generator or of the consumer changes its contents.
  lemma SentBatchesFixed(n: nat, s: State, step: Step)
    requires Unshared(n, s) && Enabled(n, s, step)
    ensures forall r | r in Sent(s) :: r in Do(n, s, step).heap && Do(n, s, step).heap[r] == s.heap[r]
  {
    DistinctConcat(Sent(s), s.gens);
    assert forall r | r in Sent(s) :: r in Sent(s) + s.gens;
    if step.Generate? {
      assert s.gens[step.g] in s.gens;
    }
  }

  lemma Refs(n: nat, s: State)
    requires Unshared(n, s)
    ensures Distinct(Sent(s)) && Distinct(s.gens) && (forall r | r in Sent(s) :: r !in s.gens)
    ensures forall r | r in Sent(s) :: r in s.heap && r < s.next
    ensures forall r | r in s.gens :: r in s.heap && r < s.next
    ensures forall r | r in s.chan :: r in Sent(s)
  {
    DistinctConcat(Sent(s), s.gens);
    assert forall r | r in Sent(s) :: r in Sent(s) + s.gens;
    assert forall r | r in s.gens :: r in Sent(s) + s.gens;
  }

  lemma GenerateKeeps(n: nat, s: State, g: nat, wallet: LookupKeys)
    requires Invariant(n, s) && Enabled(n, s, Generate(g, wallet))
    ensures Invariant(n, Do(n, s, Generate(g, wallet)))
  {
    hide Of, Contents, Distinct, BatchTotal;
    var u := Do(n, s, Generate(g, wallet));
    var b, item := s.gens[g], Item(g, wallet);
    Refs(n, s);
    assert Sent(u) == Sent(s) && b in s.gens;
    assert forall i | 0 <= i < n && i != g :: s.gens[i] != b by {
      DistinctAt(s.gens, g);
    }
    assert Unshared(n, u);
    assert Owned(n, u);
    ContentsFrame(s.heap, u.heap, s.chan);
    assert InFlight(n, u) == InFlight(n, s);
    BatchTotalStep(n, s, u, g, n);
    assert s.generated[g] + [item] == Of(s.processed, g) + Of(InFlight(n, s), g) + (s.heap[b] + [item]);
  }

  lemma DistinctAt(refs: seq<nat>, g: nat)
    requires Distinct(refs) && g < |refs|
    ensures forall i | 0 <= i < |refs| && i != g :: refs[i] != refs[g]
  {
  }

  lemma SendUnshared(n: nat, s: State, g: nat)
    requires Unshared(n, s) && Enabled(n, s, Send(g))
    ensures Unshared(n, Do(n, s, Send(g)))
    ensures Sent(Do(n, s, Send(g))) == Sent(s) + [s.gens[g]]
  {
    var u := Do(n, s, Send(g));
    Refs(n, s);
    assert s.gens[g] in s.gens && s.next !in s.gens && s.next !in Sent(s);
    DistinctAt(s.gens, g);
    assert Sent(u) == Sent(s) + [s.gens[g]];
    assert Distinct(u.gens);
    DistinctConcat(Sent(s), [s.gens[g]]);
    DistinctConcat(Sent(u), u.gens);
    assert forall r | r in u.gens :: r == s.next || (r in s.gens && r != s.gens[g]);
    assert forall r | r in Sent(u) :: r in Sent(s) || r == s.gens[g];
  }

  lemma SendKeeps(n: nat, s: State, g: nat)
    requires Invariant(n, s) && Enabled(n, s, Send(g))
    ensures Invariant(n, Do(n, s, Send(g)))
  {
    hide Of, Contents, Distinct, BatchTotal;
    var u := Do(n, s, Send(g));
    var b := s.gens[g];
    Refs(n, s);
    SendUnshared(n, s, g);
    assert Owned(n, u);
    ContentsFrame(s.heap, u.heap, s.chan);
    ContentsAppend(u.heap, s.chan, b);
    assert InFlight(n, u) == InFlight(n, s) + s.heap[b];
    BatchTotalStep(n, s, u, g, n);
    forall k | 0 <= k < n ensures u.generated[k] == Of(u.processed, k) + Of(InFlight(n, u), k) + u.heap[u.gens[k]] {
      OfAppend(InFlight(n, s), s.heap[b], k);
      OfOwn(s.heap[b], g, k);
      assert s.generated[k] == Of(s.processed, k) + Of(InFlight(n, s), k) + s.heap[s.gens[k]];
      if k == g {
        Regroup(Of(s.processed, k), Of(InFlight(n, s), k), s.heap[b]);
      } else {
        assert Of(InFlight(n, s), k) + [] == Of(InFlight(n, s), k);
      }
    }
  }

  lemma Regroup(a: seq<Item>, b: seq<Item>, c: seq<Item>)
    ensures a + b + c == a + (b + c) + []
  {
  }

  // The consumer's steps only move wallets from what is in flight to what is processed.
  lemma ConsumerFlight(n: nat, s: State, step: Step)
    requires Unshared(n, s) && Owned(n, s) && Enabled(n, s, step)
    requires step.Receive? || step.Process? || step.Release?
    ensures var u := Do(n, s, step);
      && Unshared(n, u) && Owned(n, u)
      && u.processed + InFlight(n, u) == s.processed + InFlight(n, s)
      && u.heap == s.heap && u.gens == s.gens && u.generated == s.generated && u.count == s.count
  {
    hide Distinct;
    var u := Do(n, s, step);
    Refs(n, s);
    ConsumerUnshared(n, s, step);
    if step.Process? {
      var batch, done := s.heap[s.hand.batch], s.hand.done;
      assert batch[done..] == [batch[done]] + batch[done + 1..];
      assert InFlight(n, s) == [batch[done]] + InFlight(n, u);
    } else {
      assert InFlight(n, u) == InFlight(n, s);
    }
  }

  lemma ConsumerKeeps(n: nat, s: State, step: Step)
    requires Invariant(n, s) && Enabled(n, s, step)
    requires step.Receive? || step.Process? || step.Release?
    ensures Invariant(n, Do(n, s, step))
  {
    hide Of, BatchTotal, Distinct, Owned, InFlight, Enabled, Do;
    var u := Do(n, s, step);
    ConsumerFlight(n, s, step);
    BatchTotalFrame(n, s, u, n);
    forall g | 0 <= g < n ensures u.generated[g] == Of(u.processed, g) + Of(InFlight(n, u), g) + u.heap[u.gens[g]] {
      OfAppend(s.processed, InFlight(n, s), g);
      OfAppend(u.processed, InFlight(n, u), g);
    }
    assert |u.processed + InFlight(n, u)| == |s.processed + InFlight(n, s)|;
  }

  lemma ConsumerUnshared(n: nat, s: State, step: Step)
    requires Unshared(n, s) && Enabled(n, s, step)
    requires step.Receive? || step.Process? || step.Release?
    ensures Unshared(n, Do(n, s, step))
    ensures forall r | r in Sent(Do(n, s, step)) :: r in Sent(s)
  {
    hide Distinct;
    var u := Do(n, s, step);
    Refs(n, s);
    if step.Receive? {
      assert Sent(u) == s.chan == Sent(s);
    } else if step.Release? {
      assert Sent(s) == [s.hand.batch] + s.chan;
      DistinctConcat([s.hand.batch], s.chan);
      assert Sent(u) == s.chan;
      DistinctConcat(Sent(u), u.gens);
    } else {
      assert Sent(u) == Sent(s);
    }
  }

  lemma StepKeeps(n: nat, s: State, step: Step)
    requires Invariant(n, s) && Enabled(n, s, step)
    ensures Invariant(n, Do(n, s, step))
  {
    hide Invariant, Enabled, Do;
    match step
    case Generate(g, wallet) => GenerateKeeps(n, s, g, wallet);
    case Send(g) => SendKeeps(n, s, g);
    case _ => ConsumerKeeps(n, s, step);
  }

  lemma InitShape(n: nat)
    ensures Unshared(n, Init(n)) && Owned(n, Init(n))
    ensures forall g | 0 <= g < n :: Init(n).heap[Init(n).gens[g]] == []
  {
    var s := Init(n);
    assert Sent(s) == [];
    assert Sent(s) + s.gens == s.gens;
  }

  lemma InitHolds(n: nat)
    ensures Invariant(n, Init(n))
  {
    hide Unshared, Owned, Distinct, Of, BatchTotal;
    var s := Init(n);
    InitShape(n);
    OfNothing();
    BatchTotalZero(n, s, n);
    assert InFlight(n, s) == [];
    forall g | 0 <= g < n ensures s.generated[g] == Of(s.processed, g) + Of(InFlight(n, s), g) + s.heap[s.gens[g]] {
      assert Of([], g) == [];
    }
  }

  lemma OfNothing()
    ensures forall g :: Of([], g) == []
  {
  }

  lemma {:induction false} BatchTotalZero(n: nat, s: State, k: nat)
    requires Unshared(n, s) && k <= n && forall g | 0 <= g < n :: s.heap[s.gens[g]] == []
    ensures BatchTotal(n, s, k) == 0
  {
    if k == 0 {
    } else {
      BatchTotalZero(n, s, k - 1);
    }
  }

  // ---------- every interleaving ----------

  // A run: any interleaving of enabled steps from the initial state.
  ghost predicate IsRun(n: nat, states: seq<State>, steps: seq<Step>) {
    && |states| == |steps| + 1
    && states[0] == Init(n)
    && forall i | 0 <= i < |steps| :: Enabled(n, states[i], steps[i]) && states[i + 1] == Do(n, states[i], steps[i])
  }

  lemma {:induction false} RunKeeps(n: nat, states: seq<State>, steps: seq<Step>, i: nat)
    requires IsRun(n, states, steps) && i <= |steps|
    ensures Invariant(n, states[i])
  {
    hide Invariant, Enabled, Do, Init;
    if i == 0 {
      InitHolds(n);
    } else {
      RunKeeps(n, states, steps, i - 1);
      StepKeeps(n, states[i - 1], steps[i - 1]);
    }
  }

  // The count is the number of wallets in all outputs together.
  function TotalGenerated(generated: seq<seq<Item>>): nat {
    if generated == [] then 0 else TotalGenerated(generated[..|generated| - 1]) + |generated[|generated| - 1]|
  }

  lemma {:induction false} TotalUpdate(generated: seq<seq<Item>>, g: nat, item: Item)
    requires g < |generated|
    ensures TotalGenerated(generated[g := generated[g] + [item]]) == TotalGenerated(generated) + 1
  {
    var after := generated[g := generated[g] + [item]];
    var last := |generated| - 1;
    if g == last {
      assert after[..last] == generated[..last];
    } else {
      assert after[..last] == generated[..last][g := generated[g] + [item]];
      TotalUpdate(generated[..last], g, item);
    }
  }

  lemma {:induction false} TotalEmpty(generated: seq<seq<Item>>)
    requires forall i | 0 <= i < |generated| :: generated[i] == []
    ensures TotalGenerated(generated) == 0
  {
    if generated == [] {
    } else {
      TotalEmpty(generated[..|generated| - 1]);
    }
  }

  lemma {:induction false} CountIsTotal(n: nat, states: seq<State>, steps: seq<Step>, i: nat)
    requires IsRun(n, states, steps) && i <= |steps|
    ensures states[i].count == TotalGenerated(states[i].generated)
  {
    hide TotalGenerated;
    if i == 0 {
      TotalEmpty(states[0].generated);
    } else {
      CountIsTotal(n, states, steps, i - 1);
      if steps[i - 1].Generate? {
        TotalUpdate(states[i - 1].generated, steps[i - 1].g, Item(steps[i - 1].g, steps[i - 1].wallet));
      }
    }
  }

  // Every wallet anywhere comes from one of the n generators.
  predicate Genuine(n: nat, s: State) {
    && (forall item | item in s.processed :: item.gen < n)
    && (forall r | r in s.heap :: forall item | item in s.heap[r] :: item.gen < n)
  }

  lemma GenuineStep(n: nat, s: State, step: Step)
    requires Genuine(n, s) && |s.gens| == n && Enabled(n, s, step)
    ensures Genuine(n, Do(n, s, step))
  {
  }

  lemma {:induction false} RunGenuine(n: nat, states: seq<State>, steps: seq<Step>, i: nat)
    requires IsRun(n, states, steps) && i <= |steps|
    ensures Genuine(n, states[i])
  {
    hide Genuine, Enabled, Do, Init, Owned, Conserved, Counted;
    if i == 0 {
      InitGenuine(n);
    } else {
      RunGenuine(n, states, steps, i - 1);
      RunKeeps(n, states, steps, i - 1);
      GenuineStep(n, states[i - 1], steps[i - 1]);
    }
  }

  lemma InitGenuine(n: nat)
    ensures Genuine(n, Init(n))
  {
    var s := Init(n);
    forall r | r in s.heap ensures s.heap[r] == [] {
      assert r < n;
    }
  }

  // At every point of every interleaving: a generator can add to its batch exactly while it holds less than 128 wallets, and
  // send it exactly when it is full and the channel has room; the consumer receives when it can, processes all 128
  // wallets and then lets go of the batch. So a generator only ever waits for a consumer that can go on.
  lemma PoolProgress(n: nat, states: seq<State>, steps: seq<Step>, i: nat, g: nat)
    requires IsRun(n, states, steps) && i <= |steps| && g < n
    ensures var s := states[i];
      && g < |s.gens| && s.gens[g] in s.heap
      && (forall wallet :: Enabled(n, s, Generate(g, wallet)) <==> |s.heap[s.gens[g]]| < 128)
      && (Enabled(n, s, Send(g)) <==> |s.heap[s.gens[g]]| == 128 && |s.chan| < n)
      && (Enabled(n, s, Receive) <==> s.hand.Empty? && s.chan != [])
      && (s.hand.Holding? ==> (Enabled(n, s, Process) <==> s.hand.done < 128) && (Enabled(n, s, Release) <==> s.hand.done == 128))
      && (|s.heap[s.gens[g]]| == 128 && !Enabled(n, s, Send(g)) ==>
            Enabled(n, s, Receive) || Enabled(n, s, Process) || Enabled(n, s, Release))
  {
    hide Distinct, Conserved, Counted;
    RunKeeps(n, states, steps, i);
    Refs(n, states[i]);
    HandIsFull(n, states[i]);
  }

  lemma HandIsFull(n: nat, s: State)
    requires Unshared(n, s) && Owned(n, s)
    ensures s.hand.Holding? ==> s.hand.batch in s.heap && |s.heap[s.hand.batch]| == KEY_BATCH_SIZE
  {
    if s.hand.Holding? {
      assert Sent(s)[0] == s.hand.batch;
    }
  }

  // At every point of every interleaving: the wallets processed from a generator are a prefix of what it
  // generated, in order and without loss, every processed wallet comes from one of the generators, and the
  // wallets generated but not yet processed fit into one batch per generator, n channel slots and the consumer.
  lemma PoolSafety(n: nat, states: seq<State>, steps: seq<Step>, i: nat)
    requires IsRun(n, states, steps) && i <= |steps|
    ensures |states[i].generated| == n
    ensures forall g | 0 <= g < n :: Of(states[i].processed, g) <= states[i].generated[g]
    ensures forall item | item in states[i].processed :: item.gen < n
    ensures 0 <= TotalGenerated(states[i].generated) - |states[i].processed| <= 128 * (2 * n + 1)
  {
    hide Of, Contents, Distinct, BatchTotal, TotalGenerated;
    var s := states[i];
    RunKeeps(n, states, steps, i);
    RunGenuine(n, states, steps, i);
    CountIsTotal(n, states, steps, i);
    Refs(n, s);
    BatchTotalBound(n, s, n);
    ContentsBound(s.heap, s.chan);
    forall g | 0 <= g < n ensures Of(s.processed, g) <= s.generated[g] {
      assert s.generated[g] == Of(s.processed, g) + (Of(InFlight(n, s), g) + s.heap[s.gens[g]]);
    }
  }
}
