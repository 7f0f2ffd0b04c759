/**
 The cache format as the decoder reads it (funded/cache.go, funded/mmap.go): which bytes it accepts at
 all, whoever wrote them, and what stands where.
 */
module CacheFormat {
  import opened Common
  import opened Bytes
  import opened Bitcoin
  import opened FundedSets
  import opened CacheCodec
  import Bloom

  // Magic, version, modification time and threshold.
  predicate HeaderHolds(data: seq<byte>, mtime: Nanos, minBalance: nat) {
    && |data| >= 40
    && data[..4] == [0x42, 0x46, 0x4E, 0x44]
    && FromLE(data[4..8]) == 3
    && SignedNanos(FromLE(data[8..16])) == mtime
    && FromLE(data[16..24]) == minBalance
  }

  // Position of a kind in the file.
  function Place(kind: AddressKind): nat {
    match kind
    case KindLegacy => 0
    case KindP2SH => 1
    case KindSegwitV0 => 2
    case KindTaprootV1 => 3
  }

  function Entries(n: Counts, kind: AddressKind): nat {
    match kind
    case KindLegacy => n.legacy
    case KindP2SH => n.p2sh
    case KindSegwitV0 => n.segwit
    case KindTaprootV1 => n.taproot
  }

  function CountsIn(data: seq<byte>): Counts
    requires |data| >= 40
  {
    Counts(FromLE(data[24..28]), FromLE(data[28..32]), FromLE(data[32..36]), FromLE(data[36..40]))
  }

  // Where the hashes of a kind start: legacy, P2SH, segwit and taproot follow the header in this order.
  function HashesAt(n: Counts, kind: AddressKind): nat {
    match kind
    case KindLegacy => 40
    case KindP2SH => 40 + 20 * n.legacy
    case KindSegwitV0 => 40 + 20 * n.legacy + 20 * n.p2sh
    case KindTaprootV1 => 40 + 20 * n.legacy + 20 * n.p2sh + 20 * n.segwit
  }

  // Where the balances start, and those of a kind: in the same order, after all hashes.
  function BalancesStart(n: Counts): nat {
    40 + 20 * n.legacy + 20 * n.p2sh + 20 * n.segwit + 32 * n.taproot
  }

  function BalancesAt(n: Counts, kind: AddressKind): nat {
    match kind
    case KindLegacy => BalancesStart(n)
    case KindP2SH => BalancesStart(n) + 8 * n.legacy
    case KindSegwitV0 => BalancesStart(n) + 8 * n.legacy + 8 * n.p2sh
    case KindTaprootV1 => BalancesStart(n) + 8 * n.legacy + 8 * n.p2sh + 8 * n.segwit
  }

  function FiltersStart(n: Counts): nat {
    BalancesStart(n) + 8 * n.legacy + 8 * n.p2sh + 8 * n.segwit + 8 * n.taproot
  }

  // A filter record: its length in four bytes and, unless that is zero, what the library reads as a filter.
  predicate RecordHolds(lib: Bloom.Library, data: seq<byte>, at: nat) {
    && at + 4 <= |data|
    && var n := FromLE(data[at..at + 4]);
       n == 0 || (at + 4 + n <= |data| && lib.unmarshal(data[at + 4..at + 4 + n]).Some?)
  }

  function RecordEnd(data: seq<byte>, at: nat): nat {
    if at + 4 <= |data| then at + 4 + FromLE(data[at..at + 4]) else at
  }

  // Where the filter record of a kind starts, the first of them at the given place.
  function FilterAt(data: seq<byte>, first: nat, kind: AddressKind): nat {
    match kind
    case KindLegacy => first
    case KindP2SH => RecordEnd(data, first)
    case KindSegwitV0 => RecordEnd(data, RecordEnd(data, first))
    case KindTaprootV1 => RecordEnd(data, RecordEnd(data, RecordEnd(data, first)))
  }

  function FilterOf(lib: Bloom.Library, data: seq<byte>, at: nat): Option<Bloom.Filter>
    requires RecordHolds(lib, data, at)
  {
    var n := FromLE(data[at..at + 4]);
    if n == 0 then None else lib.unmarshal(data[at + 4..at + 4 + n])
  }

  // The entries are there, and so are four filter records.
  predicate BodyReadable(lib: Bloom.Library, data: seq<byte>, n: Counts) {
    && FiltersStart(n) <= |data|
    && RecordHolds(lib, data, FilterAt(data, FiltersStart(n), KindLegacy))
    && RecordHolds(lib, data, FilterAt(data, FiltersStart(n), KindP2SH))
    && RecordHolds(lib, data, FilterAt(data, FiltersStart(n), KindSegwitV0))
    && RecordHolds(lib, data, FilterAt(data, FiltersStart(n), KindTaprootV1))
  }

  predicate Readable(lib: Bloom.Library, data: seq<byte>, mtime: Nanos, minBalance: nat) {
    HeaderHolds(data, mtime, minBalance) && BodyReadable(lib, data, CountsIn(data))
  }

  // The bucket holds the entries and the filter that stand at its places.
  ghost predicate BucketFrom(lib: Bloom.Library, data: seq<byte>, n: Counts, kind: AddressKind, bucket: Bucket) {
    && |bucket.hashes| == |bucket.balances| == Entries(n, kind)
    && (forall i | 0 <= i < Entries(n, kind) :: EntryAt(data, HashesAt(n, kind), Width(kind), i, bucket.hashes[i]))
    && (forall i | 0 <= i < Entries(n, kind) :: BalanceEntryAt(data, BalancesAt(n, kind), i, bucket.balances[i]))
    && RecordHolds(lib, data, FilterAt(data, FiltersStart(n), kind))
    && bucket.bloom == FilterOf(lib, data, FilterAt(data, FiltersStart(n), kind))
  }

  // Entry number i of a region of equal-sized entries.
  predicate EntryAt(data: seq<byte>, start: nat, width: nat, i: nat, entry: seq<byte>) {
    start + i * width + width <= |data| && entry == data[start + i * width..start + i * width + width]
  }

  predicate BalanceEntryAt(data: seq<byte>, start: nat, i: nat, balance: nat) {
    start + i * 8 + 8 <= |data| && balance == FromLE(data[start + i * 8..start + i * 8 + 8])
  }

  // Whatever the bytes: they are accepted exactly when they are readable, and the result is what stands in them.
  lemma DecodesExactly(lib: Bloom.Library, data: seq<byte>, mtime: Nanos, minBalance: nat)
    ensures var r := DecodeCache(lib, data, mtime, minBalance);
      && (r.Success? <==> Readable(lib, data, mtime, minBalance))
      && (r.Success? ==> r.value.other == multiset{} && r.value.minBalance == minBalance)
      && (r.Success? ==> forall kind :: BucketFrom(lib, data, CountsIn(data), kind, r.value.At(kind)))
  {
    hide DecodeBody, FromLE, BodyReadable, BucketFrom;
    assert |data| >= 40 ==> data[..4] == data[0..4];
    if HeaderHolds(data, mtime, minBalance) {
      BodyExactly(lib, data, ParseCacheHeader(data).value);
    }
  }

  lemma BodyExactly(lib: Bloom.Library, data: seq<byte>, header: Header)
    requires |data| >= 40
    ensures var r := DecodeBody(lib, data, header);
      && (r.Success? <==> BodyReadable(lib, data, header.counts))
      && (r.Success? ==> r.value.0.other == multiset{} && r.value.0.minBalance == header.minBalance)
      && (r.Success? ==> forall kind :: BucketFrom(lib, data, header.counts, kind, r.value.0.At(kind)))
  {
    hide ReadSections, ReadBlooms, RecordHolds, RecordEnd, FilterOf, BucketFrom, SectionFrom, ShapesOf, Total, Assemble;
    var n := header.counts;
    EightTotals(n);
    SectionsRead(data, 40, ShapesOf(n));
    var sections := ReadSections(data, 40, ShapesOf(n));
    if sections.Success? {
      FourRecords(lib, data, FiltersStart(n));
      var filters := ReadBlooms(lib, data, FiltersStart(n), 4);
      if filters.Success? {
        AssembleParts(sections.value.0, filters.value.0, header.minBalance);
        forall kind ensures BucketFrom(lib, data, n, kind, Assemble(sections.value.0, filters.value.0, header.minBalance).At(kind)) {
          BucketRead(lib, data, n, header.minBalance, kind, sections.value.0, filters.value.0);
        }
      }
    }
  }

  lemma AssembleParts(x: seq<Section>, f: seq<Option<Bloom.Filter>>, minBalance: nat)
    requires |x| == 8 && |f| == 4
    ensures Assemble(x, f, minBalance).other == multiset{} && Assemble(x, f, minBalance).minBalance == minBalance
  {
  }

  // ---------- sections ----------

  function Total(shapes: seq<Shape>): nat {
    if shapes == [] then 0 else shapes[0].count * shapes[0].width + Total(shapes[1..])
  }

  lemma EightTotals(n: Counts)
    ensures var shapes := ShapesOf(n);
      && Total(shapes[..0]) == 0 && Total(shapes[..1]) == 20 * n.legacy
      && Total(shapes[..2]) == 20 * n.legacy + 20 * n.p2sh
      && Total(shapes[..3]) == 20 * n.legacy + 20 * n.p2sh + 20 * n.segwit
      && Total(shapes[..4]) == 20 * n.legacy + 20 * n.p2sh + 20 * n.segwit + 32 * n.taproot
      && Total(shapes[..5]) == Total(shapes[..4]) + 8 * n.legacy
      && Total(shapes[..6]) == Total(shapes[..5]) + 8 * n.p2sh
      && Total(shapes[..7]) == Total(shapes[..6]) + 8 * n.segwit
      && Total(shapes) == Total(shapes[..7]) + 8 * n.taproot
  {
    hide Total;
    var shapes := ShapesOf(n);
    TotalStart(shapes);
    TotalStep(shapes, 0);
    TotalStep(shapes, 1);
    TotalStep(shapes, 2);
    TotalStep(shapes, 3);
    TotalStep(shapes, 4);
    TotalStep(shapes, 5);
    TotalStep(shapes, 6);
    TotalStep(shapes, 7);
    assert shapes[..8] == shapes;
  }

  lemma TotalStart(shapes: seq<Shape>)
    ensures Total(shapes[..0]) == 0
  {
  }

  lemma {:induction false} TotalStep(shapes: seq<Shape>, k: nat)
    requires k < |shapes|
    ensures Total(shapes[..k + 1]) == Total(shapes[..k]) + shapes[k].count * shapes[k].width
  {
    if k == 0 {
      assert shapes[..1][1..] == [];
    } else {
      TotalStep(shapes[1..], k - 1);
      assert shapes[..k + 1][1..] == shapes[1..][..k] && shapes[..k][1..] == shapes[1..][..k - 1];
    }
  }

  // Sections are read exactly when the data reach to their end, each from where the one before ends.
  lemma {:induction false} SectionsRead(data: seq<byte>, offset: nat, shapes: seq<Shape>)
    requires offset <= |data|
    ensures var r := ReadSections(data, offset, shapes);
      && (r.Success? <==> offset + Total(shapes) <= |data|)
      && (r.Success? ==> r.value.1 == offset + Total(shapes))
      && (r.Success? ==> forall k | 0 <= k < |shapes| :: SectionFrom(data, offset + Total(shapes[..k]), shapes[k], r.value.0[k]))
    decreases shapes
  {
    hide ViewAt, SectionFrom;
    if shapes == [] {
    } else {
      ViewRead(data, offset, shapes[0]);
      var view := ViewAt(data, offset, shapes[0]);
      if view.Success? {
        SectionsRead(data, view.value.1, shapes[1..]);
        forall k | 0 < k < |shapes| ensures Total(shapes[..k]) == shapes[0].count * shapes[0].width + Total(shapes[1..][..k - 1]) {
          assert shapes[..k][1..] == shapes[1..][..k - 1];
        }
      }
    }
  }

  ghost predicate SectionFrom(data: seq<byte>, at: nat, shape: Shape, words: Section) {
    |words| == shape.count && forall i | 0 <= i < shape.count :: EntryAt(data, at, shape.width, i, words[i])
  }

  lemma ViewRead(data: seq<byte>, offset: nat, shape: Shape)
    requires offset <= |data|
    ensures var r := ViewAt(data, offset, shape);
      && (r.Success? <==> offset + shape.count * shape.width <= |data|)
      && (r.Success? ==> r.value.1 == offset + shape.count * shape.width && SectionFrom(data, offset, shape, r.value.0))
  {
    var need := shape.count * shape.width;
    if shape.count != 0 && offset + need <= |data| {
      SplitEntries(data, offset, shape.count, shape.width);
    }
  }

  lemma {:induction false} SplitEntries(data: seq<byte>, offset: nat, count: nat, width: Bloom.pos)
    requires offset + count * width <= |data|
    ensures var words := Split(data[offset..offset + count * width], width);
      |words| == count && forall i | 0 <= i < count :: EntryAt(data, offset, width, i, words[i])
    decreases count
  {
    var region := data[offset..offset + count * width];
    if count == 0 {
    } else {
      MultiplySuccessor(count - 1, width);
      assert region[width..] == data[offset + width..offset + width + (count - 1) * width];
      SplitEntries(data, offset + width, count - 1, width);
      var words := Split(region, width);
      forall i | 0 <= i < count ensures EntryAt(data, offset, width, i, words[i]) {
        if i > 0 {
          MultiplySuccessor(i - 1, width);
          assert EntryAt(data, offset + width, width, i - 1, words[1..][i - 1]);
        }
      }
    }
  }

  // ---------- filter records and buckets ----------

  lemma RecordRead(lib: Bloom.Library, data: seq<byte>, at: nat)
    requires at <= |data|
    ensures var r := ReadBloomAt(lib, data, at);
      && (r.Success? <==> RecordHolds(lib, data, at))
      && (r.Success? ==> r.value == (FilterOf(lib, data, at), RecordEnd(data, at)))
  {
    hide FromLE;
  }

  lemma FourRecords(lib: Bloom.Library, data: seq<byte>, a: nat)
    requires a <= |data|
    ensures var b := RecordEnd(data, a);
      var c := RecordEnd(data, b);
      var d := RecordEnd(data, c);
      var r := ReadBlooms(lib, data, a, 4);
      && (r.Success? <==>
            RecordHolds(lib, data, a) && RecordHolds(lib, data, b) && RecordHolds(lib, data, c) && RecordHolds(lib, data, d))
      && (r.Success? ==>
            r.value.0 == [FilterOf(lib, data, a), FilterOf(lib, data, b), FilterOf(lib, data, c), FilterOf(lib, data, d)])
  {
    hide ReadBloomAt, ReadBlooms, RecordHolds, RecordEnd, FilterOf;
    var b := RecordEnd(data, a);
    var c := RecordEnd(data, b);
    var d := RecordEnd(data, c);
    RecordRead(lib, data, a);
    OneRecord(lib, data, a, 3);
    if RecordHolds(lib, data, a) {
      RecordRead(lib, data, b);
      OneRecord(lib, data, b, 2);
      if RecordHolds(lib, data, b) {
        RecordRead(lib, data, c);
        OneRecord(lib, data, c, 1);
        if RecordHolds(lib, data, c) {
          RecordRead(lib, data, d);
          OneRecord(lib, data, d, 0);
          if RecordHolds(lib, data, d) {
            NoRecord(lib, data, RecordEnd(data, d));
          }
        }
      }
    }
  }

  lemma OneRecord(lib: Bloom.Library, data: seq<byte>, at: nat, n: nat)
    requires at <= |data|
    ensures var first := ReadBloomAt(lib, data, at);
      ReadBlooms(lib, data, at, n + 1)
      == if first.Failure? then Failure(first.error)
         else
           var others := ReadBlooms(lib, data, first.value.1, n);
           if others.Failure? then Failure(others.error) else Success(([first.value.0] + others.value.0, others.value.1))
  {
    hide ReadBloomAt;
  }

  lemma NoRecord(lib: Bloom.Library, data: seq<byte>, at: nat)
    requires at <= |data|
    ensures ReadBlooms(lib, data, at, 0) == Success(([], at))
  {
  }

  lemma BucketRead(lib: Bloom.Library, data: seq<byte>, n: Counts, minBalance: nat, kind: AddressKind,
                   x: seq<Section>, f: seq<Option<Bloom.Filter>>)
    requires |x| == 8 && |f| == 4 && BodyReadable(lib, data, n)
    requires forall k | 0 <= k < 8 :: SectionFrom(data, 40 + Total(ShapesOf(n)[..k]), ShapesOf(n)[k], x[k])
    requires var a := FiltersStart(n);
      f == [FilterOf(lib, data, FilterAt(data, a, KindLegacy)), FilterOf(lib, data, FilterAt(data, a, KindP2SH)),
            FilterOf(lib, data, FilterAt(data, a, KindSegwitV0)), FilterOf(lib, data, FilterAt(data, a, KindTaprootV1))]
    ensures BucketFrom(lib, data, n, kind, Assemble(x, f, minBalance).At(kind))
  {
    hide RecordHolds, EntryAt, FilterOf, Total, RecordEnd, FromLE, SectionFrom, FilterAt;
    EightTotals(n);
    var k := Place(kind);
    assert SectionFrom(data, 40 + Total(ShapesOf(n)[..k]), ShapesOf(n)[k], x[k]);
    assert SectionFrom(data, 40 + Total(ShapesOf(n)[..k + 4]), ShapesOf(n)[k + 4], x[k + 4]);
    assert 40 + Total(ShapesOf(n)[..k]) == HashesAt(n, kind) && ShapesOf(n)[k] == Shape(Entries(n, kind), Width(kind));
    assert 40 + Total(ShapesOf(n)[..k + 4]) == BalancesAt(n, kind) && ShapesOf(n)[k + 4] == Shape(Entries(n, kind), 8);
    BucketOfSections(lib, data, n, kind, x[k], x[k + 4], f[k]);
  }

  lemma BucketOfSections(lib: Bloom.Library, data: seq<byte>, n: Counts, kind: AddressKind,
                         hashes: Section, words: Section, bf: Option<Bloom.Filter>)
    requires SectionFrom(data, HashesAt(n, kind), Shape(Entries(n, kind), Width(kind)), hashes)
    requires SectionFrom(data, BalancesAt(n, kind), Shape(Entries(n, kind), 8), words)
    requires RecordHolds(lib, data, FilterAt(data, FiltersStart(n), kind))
    requires bf == FilterOf(lib, data, FilterAt(data, FiltersStart(n), kind))
    ensures BucketFrom(lib, data, n, kind, Bucket(hashes, FromWords(words), bf))
  {
    hide RecordHolds, EntryAt, BalanceEntryAt, FilterOf, RecordEnd, FromLE, FilterAt;
    forall i | 0 <= i < Entries(n, kind) ensures BalanceEntryAt(data, BalancesAt(n, kind), i, FromWords(words)[i]) {
      assert EntryAt(data, BalancesAt(n, kind), 8, i, words[i]);
      BalanceOfEntry(data, BalancesAt(n, kind), i, words[i]);
    }
  }

  lemma BalanceOfEntry(data: seq<byte>, start: nat, i: nat, word: seq<byte>)
    requires EntryAt(data, start, 8, i, word)
    ensures BalanceEntryAt(data, start, i, FromLE(word))
  {
  }
}
