/** The searchable index: sorted hash slices, balances beside them, and Bloom filters in front (funded/sets.go). */
module FundedSets {
  import opened Common
  import opened Bytes
  import opened Bitcoin
  import Bloom

  const DEFAULT_MIN_BALANCE_SATS: nat := 30000

  // One address kind: hashes, the balance of the hash at the same index, and an optional filter.
  datatype Bucket = Bucket(hashes: seq<Hash>, balances: seq<nat>, bloom: Option<Bloom.Filter>)

  datatype Sets = Sets(
    legacy: Bucket,
    p2sh: Bucket,
    segwit: Bucket,
    taproot: Bucket,
    other: multiset<string>,  // addresses that did not decode; only how many there are is ever used
    minBalance: nat)
  {
    function At(kind: AddressKind): Bucket {
      match kind
      case KindLegacy => legacy
      case KindP2SH => p2sh
      case KindSegwitV0 => segwit
      case KindTaprootV1 => taproot
    }
  }

  // ---------- lookup ----------

  // sort.Search: the least index in lo..hi whose hash is not below key.
  function Search(hashes: seq<Hash>, key: Hash, lo: nat, hi: nat): (idx: nat)
    requires lo <= hi <= |hashes|
    ensures lo <= idx <= hi
    decreases hi - lo
  {
    if lo == hi then lo
    else
      var mid := (lo + hi) / 2;
      if Less(hashes[mid], key) then Search(hashes, key, mid + 1, hi) else Search(hashes, key, lo, mid)
  }

  predicate InFunded(hashes: seq<Hash>, key: Hash) {
    var idx := Search(hashes, key, 0, |hashes|);
    idx < |hashes| && hashes[idx] == key
  }

  function BalanceAt(hashes: seq<Hash>, balances: seq<nat>, key: Hash): nat {
    var idx := Search(hashes, key, 0, |hashes|);
    if idx < |hashes| && hashes[idx] == key && idx < |balances| then balances[idx] else 0
  }

  predicate MaybeFunded(lib: Bloom.Library, bucket: Bucket, key: Hash) {
    if bucket.bloom.Some? && !Bloom.Test(lib, bucket.bloom.value, key) then false
    else InFunded(bucket.hashes, key)
  }

  function BalanceForMatch(sets: Sets, kind: MatchKind, keys: LookupKeys): nat {
    match kind
    case MatchLegacyCompressed => BalanceAt(sets.legacy.hashes, sets.legacy.balances, keys.compressedHash)
    case MatchLegacyUncompressed => BalanceAt(sets.legacy.hashes, sets.legacy.balances, keys.uncompressedHash)
    case MatchSegwitV0 => BalanceAt(sets.segwit.hashes, sets.segwit.balances, keys.compressedHash)
    case MatchP2SH => BalanceAt(sets.p2sh.hashes, sets.p2sh.balances, keys.p2shHash)
    case MatchTaproot => BalanceAt(sets.taproot.hashes, sets.taproot.balances, keys.taprootKey)
  }

  function Match(lib: Bloom.Library, sets: Sets, keys: LookupKeys, mask: FormatMask): Option<MatchKind> {
    if mask.legacyCompressed && MaybeFunded(lib, sets.legacy, keys.compressedHash) then Some(MatchLegacyCompressed)
    else if mask.legacyUncompressed && MaybeFunded(lib, sets.legacy, keys.uncompressedHash) then Some(MatchLegacyUncompressed)
    else if mask.segwit && MaybeFunded(lib, sets.segwit, keys.compressedHash) then Some(MatchSegwitV0)
    else if mask.p2sh && MaybeFunded(lib, sets.p2sh, keys.p2shHash) then Some(MatchP2SH)
    else if mask.taproot && MaybeFunded(lib, sets.taproot, keys.taprootKey) then Some(MatchTaproot)
    else None
  }

  // ---------- what the index means ----------

  // The bucket lists exactly the keys of m, in order and once, each with its own value.
  ghost predicate Aligned(bucket: Bucket, m: map<Hash, nat>) {
    && |bucket.hashes| == |m|
    && StrictlySorted(bucket.hashes)
    && |bucket.balances| == |bucket.hashes|
    && SameElements(bucket.hashes, m.Keys)
    && (forall i | 0 <= i < |bucket.hashes| :: bucket.hashes[i] in m && bucket.balances[i] == m[bucket.hashes[i]])
  }

  // ... and a filter in front of it that loses none of them.
  ghost predicate BucketIndexes(lib: Bloom.Library, bucket: Bucket, m: map<Hash, nat>) {
    Aligned(bucket, m) && Bloom.Covers(lib, bucket.bloom, bucket.hashes)
  }

  lemma {:induction false} SearchFinds(hashes: seq<Hash>, key: Hash, lo: nat, hi: nat, i: nat)
    requires StrictlySorted(hashes) && lo <= i < hi <= |hashes| && hashes[i] == key
    ensures Search(hashes, key, lo, hi) == i
    decreases hi - lo
  {
    var mid := (lo + hi) / 2;
    LessTotal(hashes[mid], key);
    if Less(hashes[mid], key) {
      SearchFinds(hashes, key, mid + 1, hi, i);
    } else if i < mid {
      SearchFinds(hashes, key, lo, mid, i);
    } else {
      assert i == mid;
      SearchStopsAt(hashes, key, lo, mid);
    }
  }

  // When everything in lo..hi is below key, the search runs off the end.
  lemma {:induction false} SearchStopsAt(hashes: seq<Hash>, key: Hash, lo: nat, hi: nat)
    requires lo <= hi <= |hashes|
    requires forall i | lo <= i < hi :: Less(hashes[i], key)
    ensures Search(hashes, key, lo, hi) == hi
    decreases hi - lo
  {
    if lo == hi {
    } else {
      SearchStopsAt(hashes, key, (lo + hi) / 2 + 1, hi);
    }
  }

  // Binary search with or without the filter is membership, and finds the balance stored for the key.
  lemma BucketLookup(lib: Bloom.Library, bucket: Bucket, m: map<Hash, nat>, key: Hash)
    requires BucketIndexes(lib, bucket, m)
    ensures MaybeFunded(lib, bucket, key) <==> key in m
    ensures InFunded(bucket.hashes, key) <==> key in m
    ensures BalanceAt(bucket.hashes, bucket.balances, key) == if key in m then m[key] else 0
  {
    if key in m {
      assert key in bucket.hashes;
      var i :| 0 <= i < |bucket.hashes| && bucket.hashes[i] == key;
      SearchFinds(bucket.hashes, key, 0, |bucket.hashes|, i);
    } else {
      assert key !in bucket.hashes;
    }
  }

  // ---------- Bloom filters ----------

  predicate BloomReady(bucket: Bucket) {
    bucket.hashes == [] || bucket.bloom.Some?
  }

  predicate BloomsComplete(sets: Sets) {
    BloomReady(sets.legacy) && BloomReady(sets.p2sh) && BloomReady(sets.segwit) && BloomReady(sets.taproot)
  }

  function AllPositions(lib: Bloom.Library, m: Bloom.pos, k: Bloom.pos, hashes: seq<Hash>): set<nat> {
    set i, p | 0 <= i < |hashes| && p in Bloom.Positions(lib, m, k, hashes[i]) :: p
  }

  // The filter over these hashes: sized for their number, its bits exactly their positions.
  ghost predicate IsFilterOf(lib: Bloom.Library, bloom: Option<Bloom.Filter>, hashes: seq<Hash>) {
    && (bloom.None? <==> hashes == [])
    && (bloom.Some? ==>
          && (bloom.value.m, bloom.value.k) == lib.sizing(|hashes|)
          && bloom.value.bits == AllPositions(lib, bloom.value.m, bloom.value.k, hashes))
  }

  method BuildBloom(lib: Bloom.Library, hashes: seq<Hash>) returns (bloom: Option<Bloom.Filter>)
    ensures IsFilterOf(lib, bloom, hashes)
  {
    if |hashes| == 0 {
      return None;
    }
    var (m, k) := lib.sizing(|hashes|);
    var bf := Bloom.Filter(m, k, {});
    for n := 0 to |hashes|
      invariant bf.m == m && bf.k == k
      invariant bf.bits == AllPositions(lib, m, k, hashes[..n])
    {
      var before := bf.bits;
      bf := Bloom.Add(lib, bf, hashes[n]);
      AllPositionsStep(lib, m, k, hashes, n);
    }
    assert hashes[..|hashes|] == hashes;
    bloom := Some(bf);
  }

  // A filter built over the hashes of a bucket has no false negatives on them.
  lemma FilterCovers(lib: Bloom.Library, bloom: Option<Bloom.Filter>, hashes: seq<Hash>)
    requires IsFilterOf(lib, bloom, hashes)
    ensures Bloom.Covers(lib, bloom, hashes)
  {
    if bloom.Some? {
      forall h | h in hashes ensures Bloom.Test(lib, bloom.value, h) {
        var i :| 0 <= i < |hashes| && hashes[i] == h;
      }
    }
  }

  lemma AllPositionsStep(lib: Bloom.Library, m: Bloom.pos, k: Bloom.pos, hashes: seq<Hash>, n: nat)
    requires n < |hashes|
    ensures AllPositions(lib, m, k, hashes[..n + 1])
         == AllPositions(lib, m, k, hashes[..n]) + Bloom.Positions(lib, m, k, hashes[n])
  {
    var front, all := hashes[..n], hashes[..n + 1];
    forall p ensures p in AllPositions(lib, m, k, all)
               <==> p in AllPositions(lib, m, k, front) || p in Bloom.Positions(lib, m, k, hashes[n])
    {
      if p in AllPositions(lib, m, k, front) {
        var i :| 0 <= i < |front| && p in Bloom.Positions(lib, m, k, front[i]);
        assert p in Bloom.Positions(lib, m, k, all[i]);
      }
      if p in Bloom.Positions(lib, m, k, hashes[n]) {
        assert all[n] == hashes[n];
      }
    }
  }

  // Same hashes and balances; every filter either the old one or the one built over the hashes.
  ghost predicate BloomsUpgraded(lib: Bloom.Library, before: Sets, after: Sets) {
    && after.other == before.other && after.minBalance == before.minBalance
    && forall kind ::
         && after.At(kind).hashes == before.At(kind).hashes
         && after.At(kind).balances == before.At(kind).balances
         && (after.At(kind).bloom == before.At(kind).bloom || IsFilterOf(lib, after.At(kind).bloom, before.At(kind).hashes))
  }

  // The four filters are built side by side in the source; each writes its own field.
  method BuildBlooms(lib: Bloom.Library, sets: Sets) returns (built: Sets)
    ensures BloomsUpgraded(lib, sets, built) && BloomsComplete(built)
    ensures forall kind :: IsFilterOf(lib, built.At(kind).bloom, sets.At(kind).hashes)
  {
    var l := BuildBloom(lib, sets.legacy.hashes);
    var p := BuildBloom(lib, sets.p2sh.hashes);
    var s := BuildBloom(lib, sets.segwit.hashes);
    var t := BuildBloom(lib, sets.taproot.hashes);
    built := sets.(legacy := sets.legacy.(bloom := l), p2sh := sets.p2sh.(bloom := p),
                   segwit := sets.segwit.(bloom := s), taproot := sets.taproot.(bloom := t));
  }

  method EnsureBlooms(lib: Bloom.Library, sets: Sets) returns (ensured: Sets)
    ensures BloomsUpgraded(lib, sets, ensured) && BloomsComplete(ensured)
    ensures BloomsComplete(sets) ==> ensured == sets
  {
    if BloomsComplete(sets) {
      return sets;
    }
    ensured := BuildBlooms(lib, sets);
  }

  // ---------- sorting ----------

  // Stands for sort.Slice with bytes.Compare: callers rely on the contract alone.
  method SortSlice(a: array<Hash>)
    modifies a
    ensures Sorted(a[..])
    ensures multiset(a[..]) == multiset(old(a[..]))
  {
    for i := 0 to a.Length
      invariant SortedUpTo(a, i)
      invariant multiset(a[..]) == multiset(old(a[..]))
    {
      Insert(a, i);
    }
  }

  predicate SortedUpTo(a: array<Hash>, n: nat)
    requires n <= a.Length
    reads a
  {
    forall p, q | 0 <= p < q < n :: !Less(a[q], a[p])
  }

  // Moves element i left to its place among the sorted elements before it.
  method Insert(a: array<Hash>, i: nat)
    requires i < a.Length && SortedUpTo(a, i)
    modifies a
    ensures SortedUpTo(a, i + 1)
    ensures multiset(a[..]) == multiset(old(a[..]))
  {
    hide Less;
    var j := i;
    while 0 < j && Less(a[j], a[j - 1])
      invariant 0 <= j <= i
      invariant forall p, q | 0 <= p < q <= i && q != j :: !Less(a[q], a[p])
      invariant multiset(a[..]) == multiset(old(a[..]))
    {
      LessTotal(a[j], a[j - 1]);
      a[j], a[j - 1] := a[j - 1], a[j];
      j := j - 1;
    }
    forall p | 0 <= p < j - 1 ensures !Less(a[j], a[p]) {
      NotLessTransitive(a[p], a[j - 1], a[j]);
    }
  }

  lemma NotLessTransitive(a: Hash, b: Hash, c: Hash)
    requires !Less(b, a) && !Less(c, b)
    ensures !Less(c, a)
  {
    LessTotal(a, b);
    LessTotal(b, c);
    LessTotal(a, c);
    if Less(a, b) && Less(b, c) { LessTransitive(a, b, c); }
  }

  method SortHashes(hashes: seq<Hash>) returns (sorted: seq<Hash>)
    ensures Sorted(sorted) && multiset(sorted) == multiset(hashes) && |sorted| == |hashes|
  {
    var a := new Hash[|hashes|](i requires 0 <= i < |hashes| => hashes[i]);
    assert a[..] == hashes;
    SortSlice(a);
    sorted := a[..];
    assert |sorted| == |multiset(sorted)| == |multiset(hashes)|;
  }

  // Sort reorders hashes but leaves the balances where they are.
  method Sort(sets: Sets) returns (sorted: Sets)
    ensures forall kind :: Sorted(sorted.At(kind).hashes)
                        && multiset(sorted.At(kind).hashes) == multiset(sets.At(kind).hashes)
                        && sorted.At(kind).balances == sets.At(kind).balances
                        && sorted.At(kind).bloom == sets.At(kind).bloom
    ensures sorted.other == sets.other && sorted.minBalance == sets.minBalance
    ensures (forall kind :: StrictlySorted(sets.At(kind).hashes)) ==> sorted == sets
  {
    var l := SortHashes(sets.legacy.hashes);
    var p := SortHashes(sets.p2sh.hashes);
    var s := SortHashes(sets.segwit.hashes);
    var t := SortHashes(sets.taproot.hashes);
    sorted := sets.(legacy := sets.legacy.(hashes := l), p2sh := sets.p2sh.(hashes := p),
                    segwit := sets.segwit.(hashes := s), taproot := sets.taproot.(hashes := t));
    if forall kind :: StrictlySorted(sets.At(kind).hashes) {
      SortIsIdentity(sets.At(KindLegacy).hashes, l);
      SortIsIdentity(sets.At(KindP2SH).hashes, p);
      SortIsIdentity(sets.At(KindSegwitV0).hashes, s);
      SortIsIdentity(sets.At(KindTaprootV1).hashes, t);
    }
  }

  // Sorting distinct hashes, whatever the algorithm and the starting order, leaves one possible result.
  lemma SortedDistinctPermutation(s: seq<Hash>, t: seq<Hash>)
    requires forall i, j | 0 <= i < j < |s| :: s[i] != s[j]
    requires Sorted(t) && multiset(t) == multiset(s)
    ensures StrictlySorted(t) && forall h :: h in s <==> h in t
  {
    forall h ensures h in s <==> h in t {
      assert h in s <==> h in multiset(s);
      assert h in t <==> h in multiset(t);
    }
    forall i, j | 0 <= i < j < |t| ensures t[i] != t[j] {
      if t[i] == t[j] {
        CountTwice(t, i, j);
        OccursOnce(s, t[i]);
      }
    }
    SortedDistinctIsStrict(t);
  }

  // Any sorted rearrangement of a strictly sorted slice is the slice itself.
  lemma SortIsIdentity(s: seq<Hash>, t: seq<Hash>)
    requires StrictlySorted(s) && Sorted(t) && multiset(t) == multiset(s)
    ensures t == s
  {
    forall i, j | 0 <= i < j < |s| ensures s[i] != s[j] {
      LessTotal(s[i], s[j]);
    }
    SortedDistinctPermutation(s, t);
    StrictlySortedUnique(s, t);
  }

  lemma CountTwice(t: seq<Hash>, i: nat, j: nat)
    requires i < j < |t| && t[i] == t[j]
    ensures multiset(t)[t[i]] >= 2
  {
    assert t == t[..j] + t[j..];
    assert t[..j][i] == t[i];
    assert t[j..][0] == t[i];
    assert t[i] in multiset(t[..j]) && t[i] in multiset(t[j..]);
  }

  lemma {:induction false} OccursOnce(s: seq<Hash>, h: Hash)
    requires forall i, j | 0 <= i < j < |s| :: s[i] != s[j]
    ensures multiset(s)[h] <= 1
  {
    if s == [] {
    } else {
      OccursOnce(s[1..], h);
      assert s == [s[0]] + s[1..];
      assert s[0] !in s[1..];
    }
  }
}
