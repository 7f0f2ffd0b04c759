/** Accumulating parsed TSV rows into per-kind maps and turning them into the sorted index (funded/builder.go). */
module Builder {
  import opened Common
  import opened Bytes
  import opened Bitcoin
  import opened FundedSets
  import Bloom

  // DecodeFundedAddressForLoad, with every error folded into None.
  type Decoder = string -> Option<(AddressKind, Hash)>

  datatype Row = Row(addr: string, balance: nat)

  datatype Maps = Maps(
    legacy: map<Hash, nat>,
    p2sh: map<Hash, nat>,
    segwit: map<Hash, nat>,
    taproot: map<Hash, nat>)
  {
    function At(kind: AddressKind): map<Hash, nat> {
      match kind
      case KindLegacy => legacy
      case KindP2SH => p2sh
      case KindSegwitV0 => segwit
      case KindTaprootV1 => taproot
    }
  }

  // ---------- reference meaning of a list of rows ----------

  predicate Qualifies(decode: Decoder, minBalance: nat, row: Row, kind: AddressKind, h: Hash) {
    row.balance >= minBalance && decode(row.addr) == Some((kind, h)) && |h| == Width(kind)
  }

  ghost predicate Funded(decode: Decoder, minBalance: nat, rows: seq<Row>, kind: AddressKind, h: Hash) {
    exists i | 0 <= i < |rows| :: Qualifies(decode, minBalance, rows[i], kind, h)
  }

  ghost predicate IsMaxBalance(decode: Decoder, minBalance: nat, rows: seq<Row>, kind: AddressKind, h: Hash, b: nat) {
    && (exists i | 0 <= i < |rows| :: Qualifies(decode, minBalance, rows[i], kind, h) && rows[i].balance == b)
    && (forall i | 0 <= i < |rows| && Qualifies(decode, minBalance, rows[i], kind, h) :: rows[i].balance <= b)
  }

  ghost predicate Summarizes(decode: Decoder, minBalance: nat, rows: seq<Row>, maps: Maps) {
    forall kind, h ::
      && (h in maps.At(kind) <==> Funded(decode, minBalance, rows, kind, h))
      && (h in maps.At(kind) ==> IsMaxBalance(decode, minBalance, rows, kind, h, maps.At(kind)[h]))
  }

  function Undecodable(decode: Decoder, minBalance: nat, rows: seq<Row>): multiset<string> {
    if rows == [] then multiset{}
    else
      var last := rows[|rows| - 1];
      Undecodable(decode, minBalance, rows[..|rows| - 1])
      + if last.balance >= minBalance && decode(last.addr).None? then multiset{last.addr} else multiset{}
  }

  // ---------- the builder ----------

  class Builder {
    var legacy: map<Hash, nat>
    var p2sh: map<Hash, nat>
    var segwit: map<Hash, nat>
    var taproot: map<Hash, nat>
    var other: multiset<string>
    const minBalance: nat
    const decode: Decoder

    ghost var rows: seq<Row>  // everything passed to Add so far

    ghost function Contents(): Maps
      reads this
    {
      Maps(legacy, p2sh, segwit, taproot)
    }

    ghost predicate Valid()
      reads this
    {
      && Summarizes(decode, minBalance, rows, Contents())
      && other == Undecodable(decode, minBalance, rows)
      && forall kind :: |Contents().At(kind)| <= |rows|
    }

    constructor (decode: Decoder, minBalance: nat)
      ensures Valid() && rows == [] && this.decode == decode && this.minBalance == minBalance
    {
      legacy, p2sh, segwit, taproot := map[], map[], map[], map[];
      other := multiset{};
      this.decode, this.minBalance := decode, minBalance;
      rows := [];
    }

    method Add(addr: string, balance: nat)
      requires Valid()
      modifies this
      ensures Valid() && rows == old(rows) + [Row(addr, balance)]
    {
      ghost var before := Contents();
      AddEntry(addr, balance);
      MapsStep(decode, minBalance, old(rows), Row(addr, balance), before, Contents());
      forall kind ensures |Contents().At(kind)| <= |before.At(kind)| + 1 {
        GrowsByOne(decode, minBalance, Row(addr, balance), before, Contents(), kind);
      }
    }

    // The body of Add, apart from the argument that the summary is kept.
    method AddEntry(addr: string, balance: nat)
      modifies this
      ensures rows == old(rows) + [Row(addr, balance)]
      ensures MergedRow(decode, minBalance, Row(addr, balance), old(Contents()), Contents())
      ensures old(other == Undecodable(decode, minBalance, rows)) ==> other == Undecodable(decode, minBalance, rows)
    {
      rows := rows + [Row(addr, balance)];
      assert rows[..|rows| - 1] == old(rows);
      if balance < minBalance {
        return;
      }
      match decode(addr) {
        case None =>
          other := other + multiset{addr};
        case Some((kind, hash)) => MergeEntry(kind, hash, balance);
      }
    }

    method MergeEntry(kind: AddressKind, hash: Hash, balance: nat)
      modifies `legacy, `p2sh, `segwit, `taproot
      ensures forall k :: Contents().At(k) ==
                if k == kind then MergeBalance(old(Contents().At(k)), Width(k), hash, balance) else old(Contents().At(k))
    {
      match kind {
        case KindLegacy => legacy := MergeBalance(legacy, 20, hash, balance);
        case KindP2SH => p2sh := MergeBalance(p2sh, 20, hash, balance);
        case KindSegwitV0 => segwit := MergeBalance(segwit, 20, hash, balance);
        case KindTaprootV1 => taproot := MergeBalance(taproot, 32, hash, balance);
      }
    }

    // Sets over the accumulated entries.
    method Build() returns (sets: Sets)
      requires Valid()
      ensures forall kind :: Aligned(sets.At(kind), Contents().At(kind)) && sets.At(kind).bloom.None?
      ensures sets.other == Undecodable(decode, minBalance, rows)
      ensures sets.minBalance == minBalance
    {
      var l := BuildBucket(legacy);
      var p := BuildBucket(p2sh);
      var s := BuildBucket(segwit);
      var t := BuildBucket(taproot);
      sets := Sets(l, p, s, t, other, minBalance);
      forall kind ensures Aligned(sets.At(kind), Contents().At(kind)) && sets.At(kind).bloom.None? {
        match kind
        case KindLegacy =>
        case KindP2SH =>
        case KindSegwitV0 =>
        case KindTaprootV1 =>
      }
    }
  }

  // Hashes and balances come from two independent traversals and sorts of the same map.
  method BuildBucket(m: map<Hash, nat>) returns (bucket: Bucket)
    ensures Aligned(bucket, m) && bucket.bloom.None?
  {
    var hashes := SortedKeys(m);
    var balances := SortedBalances(m);
    bucket := Bucket(hashes, balances, None);
  }

  function MergeBalance(m: map<Hash, nat>, width: nat, hash: Hash, balance: nat): map<Hash, nat> {
    if |hash| != width then m
    else if hash !in m || balance > m[hash] then m[hash := balance]
    else m
  }

  // What one row may do to the maps: nothing, or one merge into the map of its own kind.
  ghost predicate MergedRow(decode: Decoder, minBalance: nat, row: Row, before: Maps, after: Maps) {
    forall kind ::
      after.At(kind) ==
        match decode(row.addr)
        case None => before.At(kind)
        case Some((k, h)) =>
          if row.balance >= minBalance && k == kind then MergeBalance(before.At(kind), Width(kind), h, row.balance)
          else before.At(kind)
  }

  lemma MergeGrowsByOne(m: map<Hash, nat>, width: nat, hash: Hash, balance: nat)
    ensures |MergeBalance(m, width, hash, balance)| <= |m| + 1
  {
    assert m[hash := balance].Keys == m.Keys + {hash};
  }

  lemma GrowsByOne(decode: Decoder, minBalance: nat, row: Row, before: Maps, after: Maps, kind: AddressKind)
    requires MergedRow(decode, minBalance, row, before, after)
    ensures |after.At(kind)| <= |before.At(kind)| + 1
  {
    hide MergeBalance;
    if decode(row.addr).Some? {
      MergeGrowsByOne(before.At(kind), Width(kind), decode(row.addr).value.1, row.balance);
    }
  }

  lemma MapsStep(decode: Decoder, minBalance: nat, rows: seq<Row>, row: Row, before: Maps, after: Maps)
    requires Summarizes(decode, minBalance, rows, before)
    requires MergedRow(decode, minBalance, row, before, after)
    ensures Summarizes(decode, minBalance, rows + [row], after)
  {
    hide Funded, IsMaxBalance;
    forall kind, h
      ensures h in after.At(kind) <==> Funded(decode, minBalance, rows + [row], kind, h)
      ensures h in after.At(kind) ==> IsMaxBalance(decode, minBalance, rows + [row], kind, h, after.At(kind)[h])
    {
      FundedStep(decode, minBalance, rows, row, kind, h);
      if h in before.At(kind) {
        MaxBalanceStep(decode, minBalance, rows, row, kind, h, before.At(kind)[h]);
      }
    }
  }

  lemma FundedStep(decode: Decoder, minBalance: nat, rows: seq<Row>, row: Row, kind: AddressKind, h: Hash)
    ensures Funded(decode, minBalance, rows + [row], kind, h)
       <==> Funded(decode, minBalance, rows, kind, h) || Qualifies(decode, minBalance, row, kind, h)
    ensures !Funded(decode, minBalance, rows, kind, h) && Qualifies(decode, minBalance, row, kind, h)
        ==> IsMaxBalance(decode, minBalance, rows + [row], kind, h, row.balance)
  {
    var all := rows + [row];
    assert all[|rows|] == row;
    if Funded(decode, minBalance, rows, kind, h) {
      var i :| 0 <= i < |rows| && Qualifies(decode, minBalance, rows[i], kind, h);
      assert Qualifies(decode, minBalance, all[i], kind, h);
    }
    if Qualifies(decode, minBalance, row, kind, h) {
      assert Qualifies(decode, minBalance, all[|rows|], kind, h);
    }
    forall i | 0 <= i < |rows| ensures all[i] == rows[i] {}
  }

  lemma MaxBalanceStep(decode: Decoder, minBalance: nat, rows: seq<Row>, row: Row, kind: AddressKind, h: Hash, b: nat)
    requires IsMaxBalance(decode, minBalance, rows, kind, h, b)
    ensures IsMaxBalance(decode, minBalance, rows + [row], kind, h,
              if Qualifies(decode, minBalance, row, kind, h) then Max(b, row.balance) else b)
  {
    var all := rows + [row];
    var i :| 0 <= i < |rows| && Qualifies(decode, minBalance, rows[i], kind, h) && rows[i].balance == b;
    assert Qualifies(decode, minBalance, all[i], kind, h) && all[i].balance == b;
    assert all[|rows|] == row;
    forall j | 0 <= j < |rows| ensures all[j] == rows[j] {}
  }

  // The keys of m in order, gathered in an arbitrary iteration order and sorted.
  method SortedKeys(m: map<Hash, nat>) returns (keys: seq<Hash>)
    ensures StrictlySorted(keys) && SameElements(keys, m.Keys) && |keys| == |m|
  {
    var gathered: seq<Hash> := [];
    var rest := m.Keys;
    while rest != {}
      invariant forall h :: h in m <==> h in gathered || h in rest
      invariant forall h | h in gathered :: h !in rest
      invariant |gathered| + |rest| == |m.Keys|
      invariant forall i, j | 0 <= i < j < |gathered| :: gathered[i] != gathered[j]
      decreases rest
    {
      var k :| k in rest;
      gathered, rest := gathered + [k], rest - {k};
    }
    keys := SortHashes(gathered);
    SortedDistinctPermutation(gathered, keys);
  }

  // Sorts the keys afresh. Element i is the balance of key i in every sorted enumeration of the keys.
  method SortedBalances(m: map<Hash, nat>) returns (balances: seq<nat>)
    ensures forall keys | StrictlySorted(keys) && SameElements(keys, m.Keys) ::
              |balances| == |keys| && forall i | 0 <= i < |keys| :: keys[i] in m && balances[i] == m[keys[i]]
  {
    var sorted := SortedKeys(m);
    var filled := new nat[|sorted|];
    for i := 0 to |sorted|
      invariant forall j | 0 <= j < i :: sorted[j] in m && filled[j] == m[sorted[j]]
    {
      assert sorted[i] in sorted;
      filled[i] := m[sorted[i]];
    }
    balances := filled[..];
    forall keys | StrictlySorted(keys) && SameElements(keys, m.Keys) ensures keys == sorted {
      StrictlySortedUnique(keys, sorted);
    }
  }

  // ---------- index refinement ----------

  ghost predicate Indexes(lib: Bloom.Library, sets: Sets, maps: Maps) {
    forall kind :: BucketIndexes(lib, sets.At(kind), maps.At(kind))
  }

  // An enabled kind whose key is listed in some row with enough balance.
  ghost predicate Hit(decode: Decoder, minBalance: nat, rows: seq<Row>, keys: LookupKeys, mask: FormatMask, kind: MatchKind) {
    mask.Enabled(kind) && Funded(decode, minBalance, rows, BucketKind(kind), keys.KeyFor(kind))
  }

  // Match reports kind exactly when it is the first enabled listed kind in the fixed order.
  ghost predicate MatchCorrect(lib: Bloom.Library, decode: Decoder, minBalance: nat, rows: seq<Row>, sets: Sets,
                               keys: LookupKeys, mask: FormatMask, kind: MatchKind) {
    Match(lib, sets, keys, mask) == Some(kind) <==>
      && Hit(decode, minBalance, rows, keys, mask, kind)
      && forall earlier | Rank(earlier) < Rank(kind) :: !Hit(decode, minBalance, rows, keys, mask, earlier)
  }

  // BalanceForMatch is the greatest balance over duplicate rows, and 0 for a hash in no row.
  ghost predicate BalanceCorrect(decode: Decoder, minBalance: nat, rows: seq<Row>, sets: Sets,
                                 keys: LookupKeys, kind: MatchKind) {
    if Funded(decode, minBalance, rows, BucketKind(kind), keys.KeyFor(kind))
    then IsMaxBalance(decode, minBalance, rows, BucketKind(kind), keys.KeyFor(kind), BalanceForMatch(sets, kind, keys))
    else BalanceForMatch(sets, kind, keys) == 0
  }

  // The index answers every question as the rows themselves would.
  ghost predicate Answers(lib: Bloom.Library, decode: Decoder, minBalance: nat, rows: seq<Row>, sets: Sets) {
    && (forall keys, mask, kind :: MatchCorrect(lib, decode, minBalance, rows, sets, keys, mask, kind))
    && (forall keys, kind :: BalanceCorrect(decode, minBalance, rows, sets, keys, kind))
  }

  lemma IndexRefinement(lib: Bloom.Library, decode: Decoder, minBalance: nat, rows: seq<Row>, maps: Maps, sets: Sets)
    requires Summarizes(decode, minBalance, rows, maps)
    requires Indexes(lib, sets, maps)
    ensures Answers(lib, decode, minBalance, rows, sets)
  {
    forall keys, mask, kind ensures MatchCorrect(lib, decode, minBalance, rows, sets, keys, mask, kind) {
      MatchRefinement(lib, decode, minBalance, rows, maps, sets, keys, mask, kind);
    }
    forall keys, kind ensures BalanceCorrect(decode, minBalance, rows, sets, keys, kind) {
      LookupRefinement(lib, decode, minBalance, rows, maps, sets, keys, kind);
    }
  }

  lemma MatchRefinement(lib: Bloom.Library, decode: Decoder, minBalance: nat, rows: seq<Row>, maps: Maps, sets: Sets,
                        keys: LookupKeys, mask: FormatMask, kind: MatchKind)
    requires Summarizes(decode, minBalance, rows, maps)
    requires Indexes(lib, sets, maps)
    ensures MatchCorrect(lib, decode, minBalance, rows, sets, keys, mask, kind)
  {
    MatchIsFirst(lib, sets, keys, mask, kind);
    forall k: MatchKind
      ensures Hit(decode, minBalance, rows, keys, mask, k)
        <==> mask.Enabled(k) && MaybeFunded(lib, sets.At(BucketKind(k)), keys.KeyFor(k))
    {
      LookupRefinement(lib, decode, minBalance, rows, maps, sets, keys, k);
    }
  }

  // One kind at a time: the bucket lookup is membership in the rows, its balance their maximum.
  lemma LookupRefinement(lib: Bloom.Library, decode: Decoder, minBalance: nat, rows: seq<Row>, maps: Maps, sets: Sets,
                         keys: LookupKeys, kind: MatchKind)
    requires Summarizes(decode, minBalance, rows, maps)
    requires Indexes(lib, sets, maps)
    ensures MaybeFunded(lib, sets.At(BucketKind(kind)), keys.KeyFor(kind))
       <==> Funded(decode, minBalance, rows, BucketKind(kind), keys.KeyFor(kind))
    ensures BalanceCorrect(decode, minBalance, rows, sets, keys, kind)
  {
    var bucket, m, key := sets.At(BucketKind(kind)), maps.At(BucketKind(kind)), keys.KeyFor(kind);
    BucketLookup(lib, bucket, m, key);
    assert BalanceForMatch(sets, kind, keys) == BalanceAt(bucket.hashes, bucket.balances, key);
  }

  predicate Wins(lib: Bloom.Library, sets: Sets, keys: LookupKeys, mask: FormatMask, kind: MatchKind) {
    mask.Enabled(kind) && MaybeFunded(lib, sets.At(BucketKind(kind)), keys.KeyFor(kind))
  }

  lemma MatchIsFirst(lib: Bloom.Library, sets: Sets, keys: LookupKeys, mask: FormatMask, kind: MatchKind)
    ensures Match(lib, sets, keys, mask) == Some(kind) <==>
              Wins(lib, sets, keys, mask, kind) && forall k | Rank(k) < Rank(kind) :: !Wins(lib, sets, keys, mask, k)
  {
    MatchInOrder(lib, sets, keys, mask);
    assert Rank(MatchLegacyCompressed) < Rank(MatchLegacyUncompressed) < Rank(MatchSegwitV0)
         < Rank(MatchP2SH) < Rank(MatchTaproot);
  }

  lemma MatchInOrder(lib: Bloom.Library, sets: Sets, keys: LookupKeys, mask: FormatMask)
    ensures Match(lib, sets, keys, mask) ==
      if Wins(lib, sets, keys, mask, MatchLegacyCompressed) then Some(MatchLegacyCompressed)
      else if Wins(lib, sets, keys, mask, MatchLegacyUncompressed) then Some(MatchLegacyUncompressed)
      else if Wins(lib, sets, keys, mask, MatchSegwitV0) then Some(MatchSegwitV0)
      else if Wins(lib, sets, keys, mask, MatchP2SH) then Some(MatchP2SH)
      else if Wins(lib, sets, keys, mask, MatchTaproot) then Some(MatchTaproot)
      else None
  {
  }
}
