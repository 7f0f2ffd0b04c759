/** The binary cache format: writing sets to bytes and decoding them again (funded/cache.go, funded/mmap.go). */
module CacheCodec {
  import opened Common
  import opened Bytes
  import opened FundedSets
  import Bloom

  const HEADER_SIZE: nat := 40
  const CACHE_MAGIC: seq<byte> := [0x42, 0x46, 0x4E, 0x44]  // BFND
  const CACHE_VERSION: nat := 3

  // Nanoseconds since the epoch, a signed 64-bit count.
  type Nanos = t: int | -0x8000_0000_0000_0000 <= t < 0x8000_0000_0000_0000

  datatype DecodeError = TooSmall | BadMagic | BadVersion | MtimeMismatch | MinBalanceMismatch | Truncated | BadBloom

  datatype Counts = Counts(legacy: nat, p2sh: nat, segwit: nat, taproot: nat)

  datatype Header = Header(mtime: Nanos, minBalance: nat, counts: Counts)

  // One array of equal-sized entries in the file: four of hashes, then four of balances.
  type Section = seq<seq<byte>>

  datatype Shape = Shape(count: nat, width: Bloom.pos)

  // ---------- layout ----------

  function Flat(words: Section): seq<byte> {
    if words == [] then [] else words[0] + Flat(words[1..])
  }

  function ToWords(balances: seq<nat>): (words: Section)
    ensures |words| == |balances|
  {
    seq(|balances|, i requires 0 <= i < |balances| => LE(balances[i], 8))
  }

  function FromWords(words: Section): seq<nat> {
    seq(|words|, i requires 0 <= i < |words| => FromLE(words[i]))
  }

  // The sections of a file in the order they are written.
  function SectionsOf(sets: Sets): (sections: seq<Section>)
    ensures |sections| == 8
  {
    [sets.legacy.hashes, sets.p2sh.hashes, sets.segwit.hashes, sets.taproot.hashes,
     ToWords(sets.legacy.balances), ToWords(sets.p2sh.balances), ToWords(sets.segwit.balances), ToWords(sets.taproot.balances)]
  }

  function ShapesOf(n: Counts): (shapes: seq<Shape>)
    ensures |shapes| == 8
  {
    [Shape(n.legacy, 20), Shape(n.p2sh, 20), Shape(n.segwit, 20), Shape(n.taproot, 32),
     Shape(n.legacy, 8), Shape(n.p2sh, 8), Shape(n.segwit, 8), Shape(n.taproot, 8)]
  }

  function FiltersOf(sets: Sets): seq<Option<Bloom.Filter>> {
    [sets.legacy.bloom, sets.p2sh.bloom, sets.segwit.bloom, sets.taproot.bloom]
  }

  function CountsOf(sets: Sets): Counts {
    Counts(|sets.legacy.hashes|, |sets.p2sh.hashes|, |sets.segwit.hashes|, |sets.taproot.hashes|)
  }

  // The sections one after another, followed by rest.
  function SectionsThen(sections: seq<Section>, rest: seq<byte>): seq<byte> {
    if sections == [] then rest else Flat(sections[0]) + SectionsThen(sections[1..], rest)
  }

  function FilterBytes(lib: Bloom.Library, bf: Option<Bloom.Filter>): seq<byte> {
    match bf
    case None => LE(0, 4)
    case Some(b) => LE(|lib.marshal(b)|, 4) + lib.marshal(b)
  }

  function FiltersThen(lib: Bloom.Library, filters: seq<Option<Bloom.Filter>>, rest: seq<byte>): seq<byte> {
    if filters == [] then rest else FilterBytes(lib, filters[0]) + FiltersThen(lib, filters[1..], rest)
  }

  function NormalizedMin(minBalance: nat): nat {
    if minBalance == 0 then DEFAULT_MIN_BALANCE_SATS else minBalance
  }

  function UnsignedNanos(t: Nanos): nat {
    t % TWO_64
  }

  function SignedNanos(u: nat): Nanos {
    var v := u % TWO_64;
    if v < TWO_63 then v else v - TWO_64
  }

  function PreambleBytes(sets: Sets, mtime: Nanos): (h: seq<byte>)
    ensures |h| == 24
  {
    CACHE_MAGIC + (LE(CACHE_VERSION, 4) + (LE(UnsignedNanos(mtime), 8) + LE(NormalizedMin(sets.minBalance), 8)))
  }

  function CountBytes(n: Counts): (h: seq<byte>)
    ensures |h| == 16
  {
    LE(n.legacy, 4) + (LE(n.p2sh, 4) + (LE(n.segwit, 4) + LE(n.taproot, 4)))
  }

  function HeaderBytes(sets: Sets, mtime: Nanos): (h: seq<byte>)
    ensures |h| == HEADER_SIZE
  {
    PreambleBytes(sets, mtime) + CountBytes(CountsOf(sets))
  }

  // A whole file, followed by rest.
  function FileThen(lib: Bloom.Library, sets: Sets, mtime: Nanos, rest: seq<byte>): seq<byte> {
    HeaderBytes(sets, mtime) + SectionsThen(SectionsOf(sets), FiltersThen(lib, FiltersOf(sets), rest))
  }

  function EncodeCache(lib: Bloom.Library, sets: Sets, mtime: Nanos): seq<byte> {
    FileThen(lib, sets, mtime, [])
  }

  // ---------- writing ----------

  // Fills one buffer of |words| entries of the given width.
  method WriteSlice(words: Section, width: nat) returns (written: seq<byte>)
    requires forall w | w in words :: |w| == width
    ensures written == Flat(words)
  {
    hide Flat;
    FlatLength(words, width);
    var buf := new byte[|words| * width];
    ghost var left := words;
    var at := 0;
    for i := 0 to |words|
      invariant left == words[i..]
      invariant 0 <= at && at + |Flat(left)| == buf.Length
      invariant buf[..at] + Flat(left) == Flat(words)
    {
      FlatHead(words, i);
      Associative(buf[..at], words[i], Flat(words[i + 1..]));
      CopyEntry(buf, at, words[i]);
      at := at + |words[i]|;
      left := words[i + 1..];
    }
    FlatEmpty();
    assert buf[..at] == buf[..];
    written := buf[..];
  }

  lemma Associative(a: seq<byte>, b: seq<byte>, c: seq<byte>)
    ensures a + (b + c) == a + b + c
  {
  }

  lemma FlatEmpty()
    ensures Flat([]) == []
  {
  }

  lemma FlatHead(words: Section, i: nat)
    requires i < |words|
    ensures Flat(words[i..]) == words[i] + Flat(words[i + 1..])
  {
    assert words[i..][1..] == words[i + 1..];
  }

  method CopyEntry(buf: array<byte>, at: nat, entry: seq<byte>)
    requires at + |entry| <= buf.Length
    modifies buf
    ensures buf[..at + |entry|] == old(buf[..at]) + entry
  {
    for j := 0 to |entry|
      invariant buf[..at + j] == old(buf[..at]) + entry[..j]
    {
      buf[at + j] := entry[j];
      assert buf[..at + j + 1] == buf[..at + j] + [entry[j]];
    }
  }

  // The bytes that reach the temporary file when no write fails.
  method WriteCache(lib: Bloom.Library, sets: Sets, mtime: Nanos) returns (file: seq<byte>)
    requires Widths(sets)
    ensures file == EncodeCache(lib, sets, mtime)
  {
    var l := WriteSlice(sets.legacy.hashes, 20);
    var p := WriteSlice(sets.p2sh.hashes, 20);
    var s := WriteSlice(sets.segwit.hashes, 20);
    var t := WriteSlice(sets.taproot.hashes, 32);
    var lb := WriteSlice(ToWords(sets.legacy.balances), 8);
    var pb := WriteSlice(ToWords(sets.p2sh.balances), 8);
    var sb := WriteSlice(ToWords(sets.segwit.balances), 8);
    var tb := WriteSlice(ToWords(sets.taproot.balances), 8);
    var filters := FiltersThen(lib, FiltersOf(sets), []);
    EightSections(SectionsOf(sets), filters);
    file := HeaderBytes(sets, mtime) + (l + (p + (s + (t + (lb + (pb + (sb + (tb + filters))))))));
  }

  lemma EightSections(x: seq<Section>, rest: seq<byte>)
    requires |x| == 8
    ensures SectionsThen(x, rest) ==
      Flat(x[0]) + (Flat(x[1]) + (Flat(x[2]) + (Flat(x[3]) + (Flat(x[4]) + (Flat(x[5]) + (Flat(x[6]) + (Flat(x[7]) + rest)))))))
  {
    assert SectionsThen(x[7..], rest) == Flat(x[7]) + SectionsThen(x[7..][1..], rest);
    SectionStep(x, 6, rest);
    SectionStep(x, 5, rest);
    SectionStep(x, 4, rest);
    SectionStep(x, 3, rest);
    SectionStep(x, 2, rest);
    SectionStep(x, 1, rest);
    SectionStep(x, 0, rest);
    assert x[0..] == x;
  }

  lemma SectionStep(x: seq<Section>, i: nat, rest: seq<byte>)
    requires i < |x|
    ensures SectionsThen(x[i..], rest) == Flat(x[i]) + SectionsThen(x[i + 1..], rest)
  {
    assert x[i..][1..] == x[i + 1..];
  }

  // ---------- reading ----------

  function Split(region: seq<byte>, width: Bloom.pos): Section {
    if |region| < width then [] else [region[..width]] + Split(region[width..], width)
  }

  // viewHash20At, viewHash32At and viewBalanceAt, before the words of a balance array are read as numbers.
  function ViewAt(data: seq<byte>, offset: nat, shape: Shape): (r: Result<(Section, nat), DecodeError>)
    requires offset <= |data|
    ensures r.Success? ==> offset <= r.value.1 <= |data|
  {
    if shape.count == 0 then Success(([], offset))
    else
      var need := shape.count * shape.width;
      if offset + need > |data| then Failure(Truncated)
      else Success((Split(data[offset..offset + need], shape.width), offset + need))
  }

  function ReadBloomAt(lib: Bloom.Library, data: seq<byte>, offset: nat): (r: Result<(Option<Bloom.Filter>, nat), DecodeError>)
    requires offset <= |data|
    ensures r.Success? ==> offset <= r.value.1 <= |data|
  {
    if offset + 4 > |data| then Failure(Truncated)
    else
      var n := FromLE(data[offset..offset + 4]);
      var start := offset + 4;
      if n == 0 then Success((None, start))
      else if start + n > |data| then Failure(Truncated)
      else
        match lib.unmarshal(data[start..start + n])
        case None => Failure(BadBloom)
        case Some(bf) => Success((Some(bf), start + n))
  }

  function ReadSections(data: seq<byte>, offset: nat, shapes: seq<Shape>): (r: Result<(seq<Section>, nat), DecodeError>)
    requires offset <= |data|
    ensures r.Success? ==> |r.value.0| == |shapes| && offset <= r.value.1 <= |data|
    decreases shapes
  {
    if shapes == [] then Success(([], offset))
    else
      var (first, next) :- ViewAt(data, offset, shapes[0]);
      var (others, end) :- ReadSections(data, next, shapes[1..]);
      Success(([first] + others, end))
  }

  function ReadBlooms(lib: Bloom.Library, data: seq<byte>, offset: nat, n: nat)
    : (r: Result<(seq<Option<Bloom.Filter>>, nat), DecodeError>)
    requires offset <= |data|
    ensures r.Success? ==> |r.value.0| == n && offset <= r.value.1 <= |data|
    decreases n
  {
    if n == 0 then Success(([], offset))
    else
      var (first, next) :- ReadBloomAt(lib, data, offset);
      var (others, end) :- ReadBlooms(lib, data, next, n - 1);
      Success(([first] + others, end))
  }

  function ParseCacheHeader(data: seq<byte>): Result<Header, DecodeError> {
    if |data| < HEADER_SIZE then Failure(TooSmall)
    else if data[0..4] != CACHE_MAGIC then Failure(BadMagic)
    else if FromLE(data[4..8]) != CACHE_VERSION then Failure(BadVersion)
    else Success(Header(
      SignedNanos(FromLE(data[8..16])),
      FromLE(data[16..24]),
      Counts(FromLE(data[24..28]), FromLE(data[28..32]), FromLE(data[32..36]), FromLE(data[36..40]))))
  }

  function Assemble(x: seq<Section>, f: seq<Option<Bloom.Filter>>, minBalance: nat): Sets
    requires |x| == 8 && |f| == 4
  {
    Sets(Bucket(x[0], FromWords(x[4]), f[0]), Bucket(x[1], FromWords(x[5]), f[1]),
         Bucket(x[2], FromWords(x[6]), f[2]), Bucket(x[3], FromWords(x[7]), f[3]), multiset{}, minBalance)
  }

  // The part of the decoder behind the header, with the offset at which it stops reading.
  function DecodeBody(lib: Bloom.Library, data: seq<byte>, header: Header): (r: Result<(Sets, nat), DecodeError>)
    requires |data| >= HEADER_SIZE
    ensures r.Success? ==> HEADER_SIZE <= r.value.1 <= |data|
  {
    var (sections, o) :- ReadSections(data, HEADER_SIZE, ShapesOf(header.counts));
    var (filters, end) :- ReadBlooms(lib, data, o, 4);
    Success((Assemble(sections, filters, header.minBalance), end))
  }

  function DecodeTo(lib: Bloom.Library, data: seq<byte>, expectedMtime: Nanos, minBalance: nat)
    : (r: Result<(Sets, nat), DecodeError>)
    ensures r.Success? ==> HEADER_SIZE <= r.value.1 <= |data|
  {
    var header :- ParseCacheHeader(data);
    if header.mtime != expectedMtime then Failure(MtimeMismatch)
    else if header.minBalance != minBalance then Failure(MinBalanceMismatch)
    else DecodeBody(lib, data, header)
  }

  function DecodeCache(lib: Bloom.Library, data: seq<byte>, expectedMtime: Nanos, minBalance: nat): Result<Sets, DecodeError> {
    var (sets, _) :- DecodeTo(lib, data, expectedMtime, minBalance);
    Success(sets)
  }

  // Needs nothing but the file: mtime and threshold come from its own header.
  function LoadFromCacheFile(lib: Bloom.Library, data: seq<byte>): Result<Sets, DecodeError> {
    var header :- ParseCacheHeader(data);
    DecodeCache(lib, data, header.mtime, header.minBalance)
  }

  // ---------- round trip ----------

  predicate HashWidths(hashes: seq<Hash>, width: nat) {
    forall h | h in hashes :: |h| == width
  }

  predicate Widths(sets: Sets) {
    && HashWidths(sets.legacy.hashes, 20) && HashWidths(sets.p2sh.hashes, 20)
    && HashWidths(sets.segwit.hashes, 20) && HashWidths(sets.taproot.hashes, 32)
  }

  // Aligned balances of 64 bits, counts of 32 bits, a filter the library can store.
  predicate BucketEncodable(lib: Bloom.Library, bucket: Bucket) {
    && |bucket.balances| == |bucket.hashes| < TWO_32
    && (forall b | b in bucket.balances :: b < TWO_64)
    && Bloom.Storable(lib, bucket.bloom)
  }

  predicate Encodable(lib: Bloom.Library, sets: Sets) {
    && Widths(sets) && sets.minBalance < TWO_64
    && BucketEncodable(lib, sets.legacy) && BucketEncodable(lib, sets.p2sh)
    && BucketEncodable(lib, sets.segwit) && BucketEncodable(lib, sets.taproot)
  }

  // What survives a trip to disk: everything but the undecodable addresses, with threshold 0 made explicit.
  function Persisted(sets: Sets): Sets {
    sets.(other := multiset{}, minBalance := NormalizedMin(sets.minBalance))
  }

  lemma MultiplySuccessor(n: nat, w: nat)
    ensures (n + 1) * w == n * w + w
  {
  }

  lemma {:induction false} FlatLength(words: Section, width: nat)
    requires forall w | w in words :: |w| == width
    ensures |Flat(words)| == |words| * width
  {
    if words == [] {
    } else {
      assert words[0] in words;
      FlatLength(words[1..], width);
      MultiplySuccessor(|words| - 1, width);
    }
  }

  lemma {:induction false} SplitFlat(words: Section, width: Bloom.pos)
    requires forall w | w in words :: |w| == width
    ensures Split(Flat(words), width) == words
  {
    if words == [] {
    } else {
      var region := Flat(words);
      assert words[0] in words;
      assert region[..width] == words[0];
      assert region[width..] == Flat(words[1..]);
      SplitFlat(words[1..], width);
    }
  }

  predicate HasShape(words: Section, shape: Shape) {
    |words| == shape.count && forall w | w in words :: |w| == shape.width
  }

  // Where the data from offset on is front followed by rest, it continues as rest at |data| - |rest|.
  lemma TailOf(data: seq<byte>, offset: nat, front: seq<byte>, rest: seq<byte>)
    requires offset <= |data| && data[offset..] == front + rest
    ensures offset + |front| == |data| - |rest|
    ensures data[offset..offset + |front|] == front && data[offset + |front|..] == rest
  {
    assert |data| - offset == |front| + |rest|;
    assert data[offset + |front|..] == data[offset..][|front|..];
    assert data[offset..offset + |front|] == data[offset..][..|front|];
  }

  lemma ViewFlat(data: seq<byte>, offset: nat, words: Section, shape: Shape, rest: seq<byte>)
    requires HasShape(words, shape)
    requires offset <= |data| && data[offset..] == Flat(words) + rest
    ensures ViewAt(data, offset, shape) == Success((words, |data| - |rest|))
  {
    TailOf(data, offset, Flat(words), rest);
    FlatLength(words, shape.width);
    SplitFlat(words, shape.width);
  }

  lemma {:induction false} ReadSectionsThen(data: seq<byte>, offset: nat, sections: seq<Section>, shapes: seq<Shape>, rest: seq<byte>)
    requires |sections| == |shapes| && forall i | 0 <= i < |sections| :: HasShape(sections[i], shapes[i])
    requires offset <= |data| && data[offset..] == SectionsThen(sections, rest)
    ensures ReadSections(data, offset, shapes) == Success((sections, |data| - |rest|))
    ensures |rest| <= |data| && data[|data| - |rest|..] == rest
    decreases sections
  {
    hide ViewAt, Flat, HasShape;
    if sections == [] {
    } else {
      var after := SectionsThen(sections[1..], rest);
      ViewFlat(data, offset, sections[0], shapes[0], after);
      TailOf(data, offset, Flat(sections[0]), after);
      ReadSectionsThen(data, |data| - |after|, sections[1..], shapes[1..], rest);
      assert [sections[0]] + sections[1..] == sections;
    }
  }

  lemma ReadFilterBytes(lib: Bloom.Library, data: seq<byte>, offset: nat, bf: Option<Bloom.Filter>, rest: seq<byte>)
    requires Bloom.Storable(lib, bf)
    requires offset <= |data| && data[offset..] == FilterBytes(lib, bf) + rest
    ensures ReadBloomAt(lib, data, offset) == Success((bf, |data| - |rest|))
  {
    hide LE, FromLE, Pow256;
    var body := if bf.Some? then lib.marshal(bf.value) else [];
    var prefix := LE(|body|, 4);
    Pow256Values();
    LERoundTrip(|body|, 4);
    assert data[offset..] == prefix + (body + rest);
    TailOf(data, offset, prefix, body + rest);
    TailOf(data, offset + 4, body, rest);
  }

  lemma {:induction false} ReadFiltersThen(lib: Bloom.Library, data: seq<byte>, offset: nat,
                                   filters: seq<Option<Bloom.Filter>>, rest: seq<byte>)
    requires forall bf | bf in filters :: Bloom.Storable(lib, bf)
    requires offset <= |data| && data[offset..] == FiltersThen(lib, filters, rest)
    ensures ReadBlooms(lib, data, offset, |filters|) == Success((filters, |data| - |rest|))
    decreases filters
  {
    hide ReadBloomAt, FilterBytes;
    if filters == [] {
    } else {
      var after := FiltersThen(lib, filters[1..], rest);
      ReadFilterBytes(lib, data, offset, filters[0], after);
      TailOf(data, offset, FilterBytes(lib, filters[0]), after);
      ReadFiltersThen(lib, data, |data| - |after|, filters[1..], rest);
      assert [filters[0]] + filters[1..] == filters;
    }
  }

  lemma NanosRoundTrip(t: Nanos)
    ensures SignedNanos(UnsignedNanos(t)) == t
  {
    if t < 0 {
      assert (t + TWO_64) % TWO_64 == t + TWO_64;
    }
  }

  lemma FourParts(a: seq<byte>, b: seq<byte>, c: seq<byte>, d: seq<byte>)
    ensures var x := a + (b + (c + d));
      && x[..|a|] == a
      && x[|a|..|a| + |b|] == b
      && x[|a| + |b|..|a| + |b| + |c|] == c
      && x[|a| + |b| + |c|..] == d
  {
  }

  predicate HeaderEncodable(sets: Sets) {
    && sets.minBalance < TWO_64
    && |sets.legacy.hashes| < TWO_32 && |sets.p2sh.hashes| < TWO_32
    && |sets.segwit.hashes| < TWO_32 && |sets.taproot.hashes| < TWO_32
  }

  // The header that a file starts with is read back field by field.
  lemma HeaderRoundTrip(sets: Sets, mtime: Nanos, data: seq<byte>)
    requires HeaderEncodable(sets)
    requires |data| >= HEADER_SIZE && data[..HEADER_SIZE] == HeaderBytes(sets, mtime)
    ensures ParseCacheHeader(data) == Success(Header(mtime, NormalizedMin(sets.minBalance), CountsOf(sets)))
  {
    PreambleRoundTrip(sets, mtime, data);
    assert data[24..40] == data[..40][24..] == CountBytes(CountsOf(sets));
    CountsRoundTrip(CountsOf(sets), data);
  }

  lemma PreambleRoundTrip(sets: Sets, mtime: Nanos, data: seq<byte>)
    requires sets.minBalance < TWO_64
    requires |data| >= HEADER_SIZE && data[..HEADER_SIZE] == HeaderBytes(sets, mtime)
    ensures data[0..4] == CACHE_MAGIC && FromLE(data[4..8]) == CACHE_VERSION
    ensures SignedNanos(FromLE(data[8..16])) == mtime && FromLE(data[16..24]) == NormalizedMin(sets.minBalance)
  {
    var x := data[0..24];
    assert x == data[..40][..24] == PreambleBytes(sets, mtime);
    FourParts(CACHE_MAGIC, LE(CACHE_VERSION, 4), LE(UnsignedNanos(mtime), 8), LE(NormalizedMin(sets.minBalance), 8));
    SliceOfSlice(data, 0, 24, 0, 4);
    SliceOfSlice(data, 0, 24, 4, 8);
    SliceOfSlice(data, 0, 24, 8, 16);
    SliceOfSlice(data, 0, 24, 16, 24);
    Pow256Values();
    LERoundTrip(CACHE_VERSION, 4);
    LERoundTrip(UnsignedNanos(mtime), 8);
    LERoundTrip(NormalizedMin(sets.minBalance), 8);
    NanosRoundTrip(mtime);
  }

  lemma CountsRoundTrip(n: Counts, data: seq<byte>)
    requires n.legacy < TWO_32 && n.p2sh < TWO_32 && n.segwit < TWO_32 && n.taproot < TWO_32
    requires |data| >= HEADER_SIZE && data[24..40] == CountBytes(n)
    ensures Counts(FromLE(data[24..28]), FromLE(data[28..32]), FromLE(data[32..36]), FromLE(data[36..40])) == n
  {
    var x := data[24..40];
    FourParts(LE(n.legacy, 4), LE(n.p2sh, 4), LE(n.segwit, 4), LE(n.taproot, 4));
    SliceOfSlice(data, 24, 40, 0, 4);
    SliceOfSlice(data, 24, 40, 4, 8);
    SliceOfSlice(data, 24, 40, 8, 12);
    SliceOfSlice(data, 24, 40, 12, 16);
    Pow256Values();
    LERoundTrip(n.legacy, 4);
    LERoundTrip(n.p2sh, 4);
    LERoundTrip(n.segwit, 4);
    LERoundTrip(n.taproot, 4);
  }

  lemma WordsRoundTrip(balances: seq<nat>)
    requires forall b | b in balances :: b < TWO_64
    ensures FromWords(ToWords(balances)) == balances
  {
    Pow256Values();
    forall i | 0 <= i < |balances| ensures FromLE(LE(balances[i], 8)) == balances[i] {
      assert balances[i] in balances;
      LERoundTrip(balances[i], 8);
    }
  }

  lemma SectionShapes(lib: Bloom.Library, sets: Sets)
    requires Encodable(lib, sets)
    ensures forall i | 0 <= i < 8 :: HasShape(SectionsOf(sets)[i], ShapesOf(CountsOf(sets))[i])
  {
    hide LE;
  }

  lemma AssembleInverse(lib: Bloom.Library, sets: Sets)
    requires Encodable(lib, sets)
    ensures Assemble(SectionsOf(sets), FiltersOf(sets), NormalizedMin(sets.minBalance)) == Persisted(sets)
  {
    WordsRoundTrip(sets.legacy.balances);
    WordsRoundTrip(sets.p2sh.balances);
    WordsRoundTrip(sets.segwit.balances);
    WordsRoundTrip(sets.taproot.balances);
  }

  lemma DecodeBodyThen(lib: Bloom.Library, data: seq<byte>, sets: Sets, mtime: Nanos, rest: seq<byte>)
    requires Encodable(lib, sets)
    requires |data| >= HEADER_SIZE
    requires data[HEADER_SIZE..] == SectionsThen(SectionsOf(sets), FiltersThen(lib, FiltersOf(sets), rest))
    ensures DecodeBody(lib, data, Header(mtime, NormalizedMin(sets.minBalance), CountsOf(sets)))
         == Success((Persisted(sets), |data| - |rest|))
  {
    hide ReadSections, ReadBlooms, SectionsThen, FiltersThen, HasShape, Assemble;
    var filters := FiltersThen(lib, FiltersOf(sets), rest);
    SectionShapes(lib, sets);
    ReadSectionsThen(data, HEADER_SIZE, SectionsOf(sets), ShapesOf(CountsOf(sets)), filters);
    ReadFiltersThen(lib, data, |data| - |filters|, FiltersOf(sets), rest);
    AssembleInverse(lib, sets);
  }

  lemma DecodeUnderOwnHeader(lib: Bloom.Library, data: seq<byte>, header: Header, mtime: Nanos, minBalance: nat)
    requires ParseCacheHeader(data) == Success(header)
    ensures |data| >= HEADER_SIZE
    ensures if header.mtime == mtime && header.minBalance == minBalance
      then DecodeTo(lib, data, mtime, minBalance) == DecodeBody(lib, data, header)
      else DecodeTo(lib, data, mtime, minBalance).Failure?
  {
  }

  // What the decoder makes of a file, whatever follows it: its own header, and under that header the
  // sets that were written, reading stopping exactly at the end of the file.
  ghost predicate ReadsBack(lib: Bloom.Library, sets: Sets, mtime: Nanos, data: seq<byte>, end: int) {
    && ParseCacheHeader(data) == Success(Header(mtime, NormalizedMin(sets.minBalance), CountsOf(sets)))
    && DecodeTo(lib, data, mtime, NormalizedMin(sets.minBalance)) == Success((Persisted(sets), end))
  }

  lemma DecodeFileThen(lib: Bloom.Library, sets: Sets, mtime: Nanos, rest: seq<byte>)
    requires Encodable(lib, sets)
    ensures var data := FileThen(lib, sets, mtime, rest); ReadsBack(lib, sets, mtime, data, |data| - |rest|)
  {
    hide ParseCacheHeader, DecodeTo, SectionsThen, FiltersThen, HeaderBytes, SectionsOf;
    var body := SectionsThen(SectionsOf(sets), FiltersThen(lib, FiltersOf(sets), rest));
    DecodeHeadAndBody(lib, sets, mtime, HeaderBytes(sets, mtime), body, rest);
  }

  lemma DecodeHeadAndBody(lib: Bloom.Library, sets: Sets, mtime: Nanos, head: seq<byte>, body: seq<byte>, rest: seq<byte>)
    requires Encodable(lib, sets)
    requires head == HeaderBytes(sets, mtime)
    requires body == SectionsThen(SectionsOf(sets), FiltersThen(lib, FiltersOf(sets), rest))
    ensures ReadsBack(lib, sets, mtime, head + body, |head + body| - |rest|)
  {
    hide ParseCacheHeader, DecodeTo, DecodeBody, SectionsThen, FiltersThen, HeaderBytes, SectionsOf;
    var data := head + body;
    var header := Header(mtime, NormalizedMin(sets.minBalance), CountsOf(sets));
    assert data[..HEADER_SIZE] == head && data[HEADER_SIZE..] == body;
    assert ParseCacheHeader(data) == Success(header) by {
      HeaderRoundTrip(sets, mtime, data);
    }
    assert DecodeBody(lib, data, header) == Success((Persisted(sets), |data| - |rest|)) by {
      DecodeBodyThen(lib, data, sets, mtime, rest);
    }
    DecodeUnderOwnHeader(lib, data, header, mtime, header.minBalance);
  }

  lemma FileThenIsAppend(lib: Bloom.Library, sets: Sets, mtime: Nanos, rest: seq<byte>)
    ensures FileThen(lib, sets, mtime, rest) == EncodeCache(lib, sets, mtime) + rest
  {
    FiltersAppend(lib, FiltersOf(sets), [], rest);
    assert [] + rest == rest;
    SectionsAppend(SectionsOf(sets), FiltersThen(lib, FiltersOf(sets), []), rest);
  }

  lemma {:induction false} FiltersAppend(lib: Bloom.Library, filters: seq<Option<Bloom.Filter>>, x: seq<byte>, rest: seq<byte>)
    ensures FiltersThen(lib, filters, x + rest) == FiltersThen(lib, filters, x) + rest
  {
    if filters == [] {
    } else {
      FiltersAppend(lib, filters[1..], x, rest);
    }
  }

  lemma {:induction false} SectionsAppend(sections: seq<Section>, x: seq<byte>, rest: seq<byte>)
    ensures SectionsThen(sections, x + rest) == SectionsThen(sections, x) + rest
  {
    if sections == [] {
    } else {
      SectionsAppend(sections[1..], x, rest);
    }
  }

  lemma CacheRoundTrip(lib: Bloom.Library, sets: Sets, mtime: Nanos, suffix: seq<byte>)
    requires Encodable(lib, sets)
    ensures DecodeCache(lib, EncodeCache(lib, sets, mtime) + suffix, mtime, NormalizedMin(sets.minBalance)) == Success(Persisted(sets))
    ensures LoadFromCacheFile(lib, EncodeCache(lib, sets, mtime) + suffix) == Success(Persisted(sets))
  {
    FileThenIsAppend(lib, sets, mtime, suffix);
    DecodeFileThen(lib, sets, mtime, suffix);
  }

  // A file is accepted under its own mtime and threshold and under no other.
  lemma AcceptedOnlyUnderOwnHeader(lib: Bloom.Library, sets: Sets, mtime: Nanos, expectedMtime: Nanos, minBalance: nat)
    requires Encodable(lib, sets)
    ensures DecodeTo(lib, EncodeCache(lib, sets, mtime), expectedMtime, minBalance) ==
      if expectedMtime == mtime && minBalance == NormalizedMin(sets.minBalance)
      then Success((Persisted(sets), |EncodeCache(lib, sets, mtime)|))
      else Failure(if expectedMtime == mtime then MinBalanceMismatch else MtimeMismatch)
  {
    hide ParseCacheHeader, DecodeBody, FileThen;
    DecodeFileThen(lib, sets, mtime, []);
  }

  // ---------- truncation and appending ----------

  lemma ViewLocal(data: seq<byte>, offset: nat, shape: Shape, suffix: seq<byte>)
    requires offset <= |data| && ViewAt(data, offset, shape).Success?
    ensures ViewAt(data + suffix, offset, shape) == ViewAt(data, offset, shape)
  {
    if shape.count != 0 {
      var end := ViewAt(data, offset, shape).value.1;
      assert (data + suffix)[offset..end] == data[offset..end];
    }
  }

  lemma ReadBloomLocal(lib: Bloom.Library, data: seq<byte>, offset: nat, suffix: seq<byte>)
    requires offset <= |data| && ReadBloomAt(lib, data, offset).Success?
    ensures ReadBloomAt(lib, data + suffix, offset) == ReadBloomAt(lib, data, offset)
  {
    var n := FromLE(data[offset..offset + 4]);
    assert (data + suffix)[offset..offset + 4] == data[offset..offset + 4];
    if n != 0 {
      assert (data + suffix)[offset + 4..offset + 4 + n] == data[offset + 4..offset + 4 + n];
    }
  }

  lemma {:induction false} ReadSectionsLocal(data: seq<byte>, offset: nat, shapes: seq<Shape>, suffix: seq<byte>)
    requires offset <= |data| && ReadSections(data, offset, shapes).Success?
    ensures ReadSections(data + suffix, offset, shapes) == ReadSections(data, offset, shapes)
    decreases shapes
  {
    if shapes == [] {
    } else {
      ViewLocal(data, offset, shapes[0], suffix);
      ReadSectionsLocal(data, ViewAt(data, offset, shapes[0]).value.1, shapes[1..], suffix);
    }
  }

  lemma {:induction false} ReadBloomsLocal(lib: Bloom.Library, data: seq<byte>, offset: nat, n: nat, suffix: seq<byte>)
    requires offset <= |data| && ReadBlooms(lib, data, offset, n).Success?
    ensures ReadBlooms(lib, data + suffix, offset, n) == ReadBlooms(lib, data, offset, n)
    decreases n
  {
    if n == 0 {
    } else {
      ReadBloomLocal(lib, data, offset, suffix);
      ReadBloomsLocal(lib, data, ReadBloomAt(lib, data, offset).value.1, n - 1, suffix);
    }
  }

  lemma HeaderLocal(data: seq<byte>, suffix: seq<byte>)
    requires |data| >= HEADER_SIZE
    ensures ParseCacheHeader(data + suffix) == ParseCacheHeader(data)
  {
    var all := data + suffix;
    assert all[0..4] == data[0..4] && all[4..8] == data[4..8] && all[8..16] == data[8..16];
    assert all[16..24] == data[16..24] && all[24..28] == data[24..28] && all[28..32] == data[28..32];
    assert all[32..36] == data[32..36] && all[36..40] == data[36..40];
  }

  // Appending bytes to anything the decoder accepts changes neither the result nor where it stops.
  lemma AppendInvariant(lib: Bloom.Library, data: seq<byte>, mtime: Nanos, minBalance: nat, suffix: seq<byte>)
    requires DecodeTo(lib, data, mtime, minBalance).Success?
    ensures DecodeTo(lib, data + suffix, mtime, minBalance) == DecodeTo(lib, data, mtime, minBalance)
  {
    HeaderLocal(data, suffix);
    var shapes := ShapesOf(ParseCacheHeader(data).value.counts);
    ReadSectionsLocal(data, HEADER_SIZE, shapes, suffix);
    ReadBloomsLocal(lib, data, ReadSections(data, HEADER_SIZE, shapes).value.1, 4, suffix);
  }

  // A cache file cut short anywhere is rejected, under every expected mtime and threshold.
  lemma StrictPrefixRejected(lib: Bloom.Library, sets: Sets, mtime: Nanos, cut: nat, expectedMtime: Nanos, minBalance: nat)
    requires Encodable(lib, sets) && cut < |EncodeCache(lib, sets, mtime)|
    ensures DecodeCache(lib, EncodeCache(lib, sets, mtime)[..cut], expectedMtime, minBalance).Failure?
  {
    var file := EncodeCache(lib, sets, mtime);
    AcceptedOnlyUnderOwnHeader(lib, sets, mtime, expectedMtime, minBalance);
    TruncationRejected(lib, file, cut, expectedMtime, minBalance);
  }

  // If the decoder reads data to its end, or rejects it, then it rejects every strict prefix of it.
  lemma TruncationRejected(lib: Bloom.Library, data: seq<byte>, cut: nat, mtime: Nanos, minBalance: nat)
    requires cut < |data|
    requires var r := DecodeTo(lib, data, mtime, minBalance); r.Success? ==> r.value.1 == |data|
    ensures DecodeTo(lib, data[..cut], mtime, minBalance).Failure?
  {
    if DecodeTo(lib, data[..cut], mtime, minBalance).Success? {
      AppendInvariant(lib, data[..cut], mtime, minBalance, data[cut..]);
      SplitAt(data, cut);
    }
  }
}
