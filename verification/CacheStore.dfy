/**
 Loading the index through the on-disk cache (funded/load.go), over every history of table
 downloads, cache removals, loads at any threshold, and cache writes that fail or crash half-way.
 */
module CacheStore {
  import opened Common
  import opened Bytes
  import opened Bitcoin
  import opened FundedSets
  import opened Builder
  import opened CacheCodec
  import Bloom
  import Decimal
  import TsvParse

  // What scanning the table file yields: its lines, header first, and whether the scan then failed.
  datatype Table = Table(lines: seq<string>, scanError: bool)

  // The surroundings of a directory. The modification time of a table determines its content;
  // no table has more than limit lines.
  datatype Context = Context(lib: Bloom.Library, decode: Decoder, tableAt: Nanos -> Table, limit: nat)

  // The table, known by its modification time, and every other file.
  datatype Disk = Disk(tsv: Option<Nanos>, files: map<string, seq<byte>>)

  datatype LoadError = NoTable | ScanFailed

  // How writing the cache ends: renamed into place; the temporary file not created; failed and cleaned up;
  // or stopped with k bytes in the temporary file.
  datatype WriteOutcome = Renamed | NotCreated | Failed | Stopped(k: nat)

  // ---------- file names ----------

  function CachePath(minBalance: nat): string {
    if minBalance == 0 || minBalance == DEFAULT_MIN_BALANCE_SATS then "funded.cache"
    else "funded." + Decimal.Numeral(minBalance) + ".cache"
  }

  function TmpPath(path: string): string {
    path + ".tmp"
  }

  ghost predicate IsCachePath(path: string) {
    exists b: nat :: path == CachePath(b)
  }

  // Two thresholds share a file exactly when they are the same threshold, 0 standing for the default.
  lemma CachePathInjective(a: nat, b: nat)
    ensures CachePath(a) == CachePath(b) <==> NormalizedMin(a) == NormalizedMin(b)
  {
    if CachePath(a) == CachePath(b) {
      NamedPath(NormalizedMin(a));
      NamedPath(NormalizedMin(b));
      var x, y := Decimal.Numeral(NormalizedMin(a)), Decimal.Numeral(NormalizedMin(b));
      if NormalizedMin(a) != DEFAULT_MIN_BALANCE_SATS && NormalizedMin(b) != DEFAULT_MIN_BALANCE_SATS {
        assert x == CachePath(a)[7..|CachePath(a)| - 6] == CachePath(b)[7..|CachePath(b)| - 6] == y;
        Decimal.NumeralInjective(NormalizedMin(a), NormalizedMin(b));
      }
    }
  }

  // Past "funded.", the default path continues with a letter and every other one with its numeral.
  lemma NamedPath(b: nat)
    ensures var p := CachePath(b);
      && |p| > 7
      && if NormalizedMin(b) == DEFAULT_MIN_BALANCE_SATS then p[7] == 'c'
         else |p| > 13 && p[7..|p| - 6] == Decimal.Numeral(b) && Decimal.IsDigit(p[7])
  {
    var n := Decimal.Numeral(b);
    if NormalizedMin(b) != DEFAULT_MIN_BALANCE_SATS {
      var p := "funded." + n + ".cache";
      assert p == "funded." + (n + ".cache");
      assert p[7..|p| - 6] == n;
      assert p[7] == n[0];
      assert n[0] in n;
    }
  }

  lemma CachePathExamples()
    ensures CachePath(0) == CachePath(30000) == "funded.cache" && CachePath(546) == "funded.546.cache"
  {
    assert Decimal.Numeral(5) == "5" && Decimal.Numeral(54) == "5" + "4" && Decimal.Numeral(546) == "54" + "6";
    assert "funded." + "546" + ".cache" == "funded.546.cache";
  }

  // A temporary file is never taken for a cache.
  lemma TmpIsNoCache(path: string)
    ensures !IsCachePath(TmpPath(path))
  {
    var p := TmpPath(path);
    assert p[|p| - 1] == 'p';
    forall b: nat ensures CachePath(b) != p {
      var q := CachePath(b);
      assert q[|q| - 1] == 'e';
    }
  }

  // ---------- parsing ----------

  function Rows(lines: seq<string>): seq<Row> {
    if lines == [] then []
    else
      var front := Rows(lines[..|lines| - 1]);
      match TsvParse.ParsedRow(lines[|lines| - 1])
      case None => front
      case Some(row) => front + [row]
  }

  // The rows of a table: every parsable line after the header.
  function TableRows(t: Table): seq<Row> {
    if t.lines == [] then [] else Rows(t.lines[1..])
  }

  lemma {:induction false} RowsBounded(lines: seq<string>)
    ensures |Rows(lines)| <= |lines|
    ensures forall r | r in Rows(lines) :: r.balance < TWO_64
  {
    if lines == [] {
    } else {
      RowsBounded(lines[..|lines| - 1]);
    }
  }

  // The rows are those of the lines that parse, from the second line on.
  lemma TableRowsIff(t: Table, row: Row)
    ensures row in TableRows(t) <==> exists i :: 0 < i < |t.lines| && TsvParse.ParsedRow(t.lines[i]) == Some(row)
  {
    hide TsvParse.ParsedRow;
    if t.lines == [] {
    } else {
      RowsIff(t.lines[1..], row);
      if i :| 0 < i < |t.lines| && TsvParse.ParsedRow(t.lines[i]) == Some(row) {
        assert t.lines[1..][i - 1] == t.lines[i];
      }
    }
  }

  lemma {:induction false} RowsIff(lines: seq<string>, row: Row)
    ensures row in Rows(lines) <==> exists i :: 0 <= i < |lines| && TsvParse.ParsedRow(lines[i]) == Some(row)
  {
    hide TsvParse.ParsedRow;
    if lines == [] {
    } else {
      var n := |lines| - 1;
      RowsIff(lines[..n], row);
      assert TsvParse.ParsedRow(lines[n]) == Some(row) ==> row in Rows(lines);
      if i :| 0 <= i < |lines| && TsvParse.ParsedRow(lines[i]) == Some(row) {
        assert i < n ==> lines[..n][i] == lines[i];
      }
    }
  }

  // ---------- what a cache file may contain ----------

  // The library can store every filter sized for at most limit entries.
  ghost predicate StoresUpTo(lib: Bloom.Library, limit: nat) {
    forall bf: Bloom.Filter, n: nat |
      n <= limit && lib.sizing(n) == (bf.m, bf.k) && (forall p | p in bf.bits :: p < bf.m) ::
      Bloom.Storable(lib, Some(bf))
  }

  ghost predicate Small(ctx: Context) {
    && ctx.limit < TWO_32
    && StoresUpTo(ctx.lib, ctx.limit)
    && forall m :: |ctx.tableAt(m).lines| <= ctx.limit
  }

  // The sets index exactly the rows of the table of time m at threshold b; filters may be missing.
  ghost predicate IndexesTable(ctx: Context, sets: Sets, m: Nanos, b: nat) {
    && sets.minBalance == b
    && !ctx.tableAt(m).scanError
    && (forall kind :: |sets.At(kind).hashes| <= ctx.limit)
    && exists maps :: Summarizes(ctx.decode, b, TableRows(ctx.tableAt(m)), maps) && Indexes(ctx.lib, sets, maps)
  }

  ghost predicate FaithfulFile(ctx: Context, file: seq<byte>) {
    exists sets, m ::
      && file == EncodeCache(ctx.lib, sets, m)
      && sets.minBalance != 0
      && Encodable(ctx.lib, sets)
      && IndexesTable(ctx, sets, m, sets.minBalance)
  }

  // Whatever the history, every cache file is the encoding of the index of some table at some threshold.
  ghost predicate Faithful(ctx: Context, disk: Disk) {
    forall path | path in disk.files && IsCachePath(path) :: FaithfulFile(ctx, disk.files[path])
  }

  // What the builder hands over: the index of the table without any filter.
  ghost predicate Unfiltered(ctx: Context, sets: Sets, m: Nanos, b: nat) {
    && IndexesTable(ctx, sets, m, b) && sets.other == Undecodable(ctx.decode, b, TableRows(ctx.tableAt(m)))
    && forall kind :: sets.At(kind).bloom.None?
  }

  // An index of the table with the filters that are built over it.
  ghost predicate FreshIndex(ctx: Context, sets: Sets, m: Nanos, b: nat) {
    && IndexesTable(ctx, sets, m, b) && sets.other == Undecodable(ctx.decode, b, TableRows(ctx.tableAt(m)))
    && forall kind :: IsFilterOf(ctx.lib, sets.At(kind).bloom, sets.At(kind).hashes)
  }

  // ---------- steps ----------

  ghost predicate CacheWritten(ctx: Context, before: Disk, path: string, sets: Sets, m: Nanos, outcome: WriteOutcome, after: Disk) {
    var file := EncodeCache(ctx.lib, sets, m);
    && after.tsv == before.tsv
    && after.files ==
         match outcome
         case Renamed => (before.files - {TmpPath(path)})[path := file]
         case NotCreated => before.files
         case Failed => before.files - {TmpPath(path)}
         case Stopped(k) => before.files[TmpPath(path) := if k < |file| then file[..k] else file]
  }

  // The sets that the cache file of this threshold holds for a table of time m, if any.
  function CachedSets(ctx: Context, disk: Disk, m: Nanos, minBalance: nat): Option<Sets> {
    var path := CachePath(minBalance);
    if path !in disk.files then None
    else
      match DecodeCache(ctx.lib, disk.files[path], m, minBalance)
      case Success(sets) => Some(sets)
      case Failure(_) => None
  }

  // One call of Load: a cache hit, a hit whose filters are completed and written back, or a parse of the table.
  ghost predicate LoadStep(ctx: Context, before: Disk, minBalance: nat, outcome: WriteOutcome,
                           after: Disk, r: Result<Sets, LoadError>) {
    var b := NormalizedMin(minBalance);
    if before.tsv.None? then r == Failure(NoTable) && after == before
    else
      var m := before.tsv.value;
      match CachedSets(ctx, before, m, b)
      case Some(cached) =>
        if BloomsComplete(cached) then r == Success(cached) && after == before
        else
          && r.Success? && BloomsComplete(r.value) && BloomsUpgraded(ctx.lib, cached, r.value)
          && CacheWritten(ctx, before, CachePath(b), r.value, m, outcome, after)
      case None =>
        if ctx.tableAt(m).scanError then r == Failure(ScanFailed) && after == before
        else
          && r.Success? && FreshIndex(ctx, r.value, m, b)
          && CacheWritten(ctx, before, CachePath(b), r.value, m, outcome, after)
  }

  // ---------- the program ----------

  class Store {
    const ctx: Context
    var tsv: Option<Nanos>
    var files: map<string, seq<byte>>

    ghost function Current(): Disk
      reads this
    {
      Disk(tsv, files)
    }

    // A directory as earlier runs of the program may have left it.
    constructor (ctx: Context, tsv: Option<Nanos>, files: map<string, seq<byte>>)
      ensures this.ctx == ctx && Current() == Disk(tsv, files)
    {
      this.ctx, this.tsv, this.files := ctx, tsv, files;
    }

    // The download replaces the table, and may later change its modification time.
    method InstallTable(m: Nanos)
      modifies `tsv
      ensures Next(ctx, old(Current()), TableInstalled(m), Current())
    {
      tsv := Some(m);
    }

    // The download then removes the cache of the default threshold, and only that one.
    method RemoveDefaultCache()
      modifies `files
      ensures CachePath(0) !in files
      ensures forall b: nat ::
        && (CachePath(b) in files <==> CachePath(b) in old(files) && NormalizedMin(b) != DEFAULT_MIN_BALANCE_SATS)
        && (CachePath(b) in files ==> files[CachePath(b)] == old(files[CachePath(b)]))
      ensures Next(ctx, old(Current()), FileRemoved(CachePath(0)), Current())
    {
      forall b: nat ensures CachePath(b) == CachePath(0) <==> NormalizedMin(b) == DEFAULT_MIN_BALANCE_SATS {
        CachePathInjective(b, 0);
      }
      files := files - {CachePath(0)};
    }

    method WriteCacheFile(path: string, sets: Sets, m: Nanos, outcome: WriteOutcome)
      requires Widths(sets)
      modifies `files
      ensures CacheWritten(ctx, old(Current()), path, sets, m, outcome, Current())
    {
      hide EncodeCache, Widths;
      var file := WriteCache(ctx.lib, sets, m);
      match outcome {
        case Renamed => files := (files - {TmpPath(path)})[path := file];
        case NotCreated =>
        case Failed => files := files - {TmpPath(path)};
        case Stopped(k) => files := files[TmpPath(path) := if k < |file| then file[..k] else file];
      }
    }

    // The scanning loop: every line that parses goes to the builder.
    method ScanRows(builder: Builder, lines: seq<string>)
      requires builder.Valid() && builder.rows == []
      modifies builder
      ensures builder.Valid() && builder.rows == Rows(lines)
    {
      hide Summarizes, Undecodable, TsvParse.ParsedRow;
      for i := 0 to |lines|
        invariant builder.Valid() && builder.rows == Rows(lines[..i])
      {
        assert lines[..i + 1][..i] == lines[..i];
        var addr, balance, ok := TsvParse.ParseTSVLine(lines[i]);
        if ok {
          builder.Add(addr, TsvParse.ToUint64(balance));
        }
      }
      assert lines[..|lines|] == lines;
    }

    method ParseTsv(m: Nanos, minBalance: nat) returns (r: Result<Sets, LoadError>)
      requires Small(ctx)
      ensures if ctx.tableAt(m).scanError then r == Failure(ScanFailed)
        else r.Success? && Unfiltered(ctx, r.value, m, minBalance)
    {
      var table := ctx.tableAt(m);
      var lines := if table.lines == [] then [] else table.lines[1..];
      var builder := new Builder(ctx.decode, minBalance);
      ScanRows(builder, lines);
      if table.scanError {
        return Failure(ScanFailed);
      }
      var sets := builder.Build();
      TableSize(ctx, m);
      assert Indexes(ctx.lib, sets, builder.Contents());
      r := Success(sets);
    }

    // The part of Load behind a cache miss, up to the write.
    method ParseAndIndex(m: Nanos, b: nat) returns (r: Result<Sets, LoadError>)
      requires Small(ctx)
      ensures if ctx.tableAt(m).scanError then r == Failure(ScanFailed) else r.Success? && FreshIndex(ctx, r.value, m, b)
    {
      hide Small, Summarizes, Undecodable, TableRows, IsFilterOf, Indexes, BloomsComplete;
      r := ParseTsv(m, b);
      if r.Failure? {
        return;
      }
      IndexIsSorted(ctx, r.value, m, b);
      var sets := Sort(r.value);
      var indexed := EnsureBlooms(ctx.lib, sets);
      UpgradeIndexes(ctx, r.value, indexed, m, b);
      AllFilters(ctx.lib, r.value, indexed);
      r := Success(indexed);
    }

    method Load(minBalance: nat, outcome: WriteOutcome) returns (r: Result<Sets, LoadError>)
      requires Small(ctx) && Faithful(ctx, Current())
      modifies `files
      ensures LoadStep(ctx, old(Current()), minBalance, outcome, Current(), r)
    {
      hide Faithful, Small, EncodeCache, Widths, Summarizes, CacheWritten, CachePath, DecodeTo, Undecodable, TableRows, IsFilterOf;
      var b := NormalizedMin(minBalance);
      if tsv.None? {
        return Failure(NoTable);
      }
      var m := tsv.value;
      var path := CachePath(b);
      // Mapping the file and reading it decode the same bytes; the second is tried when the first fails.
      var cached := CachedSets(ctx, Disk(tsv, files), m, b);
      if cached.Some? {
        CachedIndexesTable(ctx, Current(), m, b);
        var complete := EnsureBlooms(ctx.lib, cached.value);
        if !BloomsComplete(cached.value) {
          UpgradeIndexes(ctx, cached.value, complete, m, b);
          IndexWidths(ctx, complete, m, b);
          WriteCacheFile(path, complete, m, outcome);
        }
        return Success(complete);
      }
      r := ParseAndIndex(m, b);
      if r.Failure? {
        return;
      }
      IndexWidths(ctx, r.value, m, b);
      WriteCacheFile(path, r.value, m, outcome);
    }
  }

  // ---------- one step at a time ----------

  lemma IndexIsSorted(ctx: Context, sets: Sets, m: Nanos, b: nat)
    requires IndexesTable(ctx, sets, m, b)
    ensures forall kind :: StrictlySorted(sets.At(kind).hashes)
  {
    hide Summarizes, TableRows;
    var maps :| Summarizes(ctx.decode, b, TableRows(ctx.tableAt(m)), maps) && Indexes(ctx.lib, sets, maps);
    forall kind ensures StrictlySorted(sets.At(kind).hashes) {
      assert BucketIndexes(ctx.lib, sets.At(kind), maps.At(kind));
    }
  }

  lemma AllFilters(lib: Bloom.Library, before: Sets, after: Sets)
    requires BloomsUpgraded(lib, before, after) && BloomsComplete(after)
    requires forall kind :: before.At(kind).bloom.None?
    ensures forall kind :: IsFilterOf(lib, after.At(kind).bloom, after.At(kind).hashes)
  {
    hide AllPositions;
    forall kind ensures BloomReady(after.At(kind)) {
      match kind
      case KindLegacy =>
      case KindP2SH =>
      case KindSegwitV0 =>
      case KindTaprootV1 =>
    }
  }

  lemma TableSize(ctx: Context, m: Nanos)
    requires Small(ctx)
    ensures |TableRows(ctx.tableAt(m))| <= ctx.limit
    ensures forall r | r in TableRows(ctx.tableAt(m)) :: r.balance < TWO_64
  {
    var lines := ctx.tableAt(m).lines;
    if lines != [] {
      RowsBounded(lines[1..]);
    }
  }

  lemma IndexEntry(ctx: Context, rows: seq<Row>, maps: Maps, bucket: Bucket, b: nat, kind: AddressKind, i: nat)
    requires Summarizes(ctx.decode, b, rows, maps) && BucketIndexes(ctx.lib, bucket, maps.At(kind)) && i < |bucket.hashes|
    ensures |bucket.hashes[i]| == Width(kind)
    ensures exists r :: r in rows && bucket.balances[i] == r.balance
  {
    var h := bucket.hashes[i];
    assert h in maps.At(kind);
    var j :| 0 <= j < |rows| && Qualifies(ctx.decode, b, rows[j], kind, h) && rows[j].balance == maps.At(kind)[h];
    assert rows[j] in rows;
  }

  lemma IndexBounds(ctx: Context, sets: Sets, m: Nanos, b: nat, kind: AddressKind)
    requires Small(ctx) && IndexesTable(ctx, sets, m, b)
    ensures HashWidths(sets.At(kind).hashes, Width(kind))
    ensures |sets.At(kind).balances| == |sets.At(kind).hashes| < TWO_32
    ensures forall x | x in sets.At(kind).balances :: x < TWO_64
    ensures sets.minBalance == b
  {
    hide TableRows, Summarizes;
    var rows := TableRows(ctx.tableAt(m));
    var maps :| Summarizes(ctx.decode, b, rows, maps) && Indexes(ctx.lib, sets, maps);
    var bucket := sets.At(kind);
    TableSize(ctx, m);
    forall i | 0 <= i < |bucket.hashes| ensures |bucket.hashes[i]| == Width(kind) && bucket.balances[i] < TWO_64 {
      IndexEntry(ctx, rows, maps, bucket, b, kind, i);
    }
  }

  lemma IndexWidths(ctx: Context, sets: Sets, m: Nanos, b: nat)
    requires Small(ctx) && IndexesTable(ctx, sets, m, b)
    ensures Widths(sets)
  {
    hide IndexesTable, Small;
    IndexBounds(ctx, sets, m, b, KindLegacy);
    IndexBounds(ctx, sets, m, b, KindP2SH);
    IndexBounds(ctx, sets, m, b, KindSegwitV0);
    IndexBounds(ctx, sets, m, b, KindTaprootV1);
  }

  lemma IndexEncodable(ctx: Context, sets: Sets, m: Nanos, b: nat)
    requires Small(ctx) && IndexesTable(ctx, sets, m, b) && b < TWO_64
    requires forall kind :: Bloom.Storable(ctx.lib, sets.At(kind).bloom)
    ensures Encodable(ctx.lib, sets)
  {
    hide IndexesTable, Small;
    IndexBounds(ctx, sets, m, b, KindLegacy);
    IndexBounds(ctx, sets, m, b, KindP2SH);
    IndexBounds(ctx, sets, m, b, KindSegwitV0);
    IndexBounds(ctx, sets, m, b, KindTaprootV1);
    assert Bloom.Storable(ctx.lib, sets.At(KindLegacy).bloom) && Bloom.Storable(ctx.lib, sets.At(KindP2SH).bloom);
    assert Bloom.Storable(ctx.lib, sets.At(KindSegwitV0).bloom) && Bloom.Storable(ctx.lib, sets.At(KindTaprootV1).bloom);
  }

  lemma FilterStorable(ctx: Context, bloom: Option<Bloom.Filter>, hashes: seq<Hash>)
    requires Small(ctx) && |hashes| <= ctx.limit && IsFilterOf(ctx.lib, bloom, hashes)
    ensures Bloom.Storable(ctx.lib, bloom)
  {
    if bloom.Some? {
      var bf := bloom.value;
      forall p | p in bf.bits ensures p < bf.m {
        var i :| 0 <= i < |hashes| && p in Bloom.Positions(ctx.lib, bf.m, bf.k, hashes[i]);
      }
      assert ctx.lib.sizing(|hashes|) == (bf.m, bf.k);
    }
  }

  // Completing filters changes no answer, and leaves a file that can be written.
  lemma UpgradeIndexes(ctx: Context, before: Sets, after: Sets, m: Nanos, b: nat)
    requires IndexesTable(ctx, before, m, b) && BloomsUpgraded(ctx.lib, before, after)
    ensures IndexesTable(ctx, after, m, b)
  {
    hide Summarizes, IsFilterOf, TableRows;
    var rows := TableRows(ctx.tableAt(m));
    var maps :| Summarizes(ctx.decode, b, rows, maps) && Indexes(ctx.lib, before, maps);
    forall kind ensures BucketIndexes(ctx.lib, after.At(kind), maps.At(kind)) {
      assert BucketIndexes(ctx.lib, before.At(kind), maps.At(kind));
      if after.At(kind).bloom != before.At(kind).bloom {
        FilterCovers(ctx.lib, after.At(kind).bloom, before.At(kind).hashes);
      }
    }
    forall kind ensures |after.At(kind).hashes| <= ctx.limit {
      assert |before.At(kind).hashes| <= ctx.limit;
    }
    assert Indexes(ctx.lib, after, maps);
  }

  lemma PersistedEncodable(lib: Bloom.Library, sets: Sets)
    requires Encodable(lib, sets) && sets.minBalance != 0
    ensures Encodable(lib, Persisted(sets))
  {
    hide BucketEncodable, HashWidths;
  }

  // A hit is an index of the current table at the requested threshold, whichever file it came from.
  lemma CachedIndexesTable(ctx: Context, disk: Disk, m: Nanos, b: nat)
    requires Faithful(ctx, disk) && CachedSets(ctx, disk, m, b).Some?
    ensures var cached := CachedSets(ctx, disk, m, b).value; IndexesTable(ctx, cached, m, b) && Encodable(ctx.lib, cached)
    ensures b != 0
  {
    hide EncodeCache, DecodeTo, IndexesTable, CachePath, Encodable;
    var path := CachePath(b);
    assert IsCachePath(path);
    var file := disk.files[path];
    var sets, written :|
      && file == EncodeCache(ctx.lib, sets, written)
      && sets.minBalance != 0
      && Encodable(ctx.lib, sets)
      && IndexesTable(ctx, sets, written, sets.minBalance);
    AcceptedOnlyUnderOwnHeader(ctx.lib, sets, written, m, b);
    SameBuckets(ctx, sets, Persisted(sets), m, b);
    PersistedEncodable(ctx.lib, sets);
  }

  lemma SameBuckets(ctx: Context, x: Sets, y: Sets, m: Nanos, b: nat)
    requires IndexesTable(ctx, x, m, b) && y.minBalance == b && forall kind :: y.At(kind) == x.At(kind)
    ensures IndexesTable(ctx, y, m, b)
  {
    hide Summarizes, TableRows;
    var maps :| Summarizes(ctx.decode, b, TableRows(ctx.tableAt(m)), maps) && Indexes(ctx.lib, x, maps);
    forall kind ensures BucketIndexes(ctx.lib, y.At(kind), maps.At(kind)) && |y.At(kind).hashes| <= ctx.limit {
      assert BucketIndexes(ctx.lib, x.At(kind), maps.At(kind)) && |x.At(kind).hashes| <= ctx.limit;
    }
    assert Indexes(ctx.lib, y, maps);
  }

  lemma IndexAnswers(ctx: Context, sets: Sets, m: Nanos, b: nat)
    requires IndexesTable(ctx, sets, m, b)
    ensures Answers(ctx.lib, ctx.decode, b, TableRows(ctx.tableAt(m)), sets)
  {
    var maps :| Summarizes(ctx.decode, b, TableRows(ctx.tableAt(m)), maps) && Indexes(ctx.lib, sets, maps);
    IndexRefinement(ctx.lib, ctx.decode, b, TableRows(ctx.tableAt(m)), maps, sets);
  }

  lemma EncodedIsFaithful(ctx: Context, sets: Sets, m: Nanos)
    requires sets.minBalance != 0 && Encodable(ctx.lib, sets) && IndexesTable(ctx, sets, m, sets.minBalance)
    ensures FaithfulFile(ctx, EncodeCache(ctx.lib, sets, m))
  {
    hide EncodeCache, Encodable, IndexesTable;
  }

  // Writing a cache, completely or not, leaves a faithful directory.
  lemma WriteKeepsFaithful(ctx: Context, before: Disk, minBalance: nat, sets: Sets, m: Nanos, outcome: WriteOutcome, after: Disk)
    requires Faithful(ctx, before) && sets.minBalance != 0
    requires Encodable(ctx.lib, sets) && IndexesTable(ctx, sets, m, sets.minBalance)
    requires CacheWritten(ctx, before, CachePath(minBalance), sets, m, outcome, after)
    ensures Faithful(ctx, after)
  {
    hide EncodeCache, IndexesTable, CachePath, TmpPath, Encodable, FaithfulFile;
    TmpIsNoCache(CachePath(minBalance));
    EncodedIsFaithful(ctx, sets, m);
    forall path | path in after.files && IsCachePath(path) ensures FaithfulFile(ctx, after.files[path]) {
      assert path != TmpPath(CachePath(minBalance));
    }
  }

  lemma LoadKeepsFaithful(ctx: Context, before: Disk, minBalance: nat, outcome: WriteOutcome, after: Disk, r: Result<Sets, LoadError>)
    requires Small(ctx) && Faithful(ctx, before) && minBalance < TWO_64
    requires LoadStep(ctx, before, minBalance, outcome, after, r)
    ensures Faithful(ctx, after)
  {
    var b := NormalizedMin(minBalance);
    if after != before {
      var m := before.tsv.value;
      LoadedEncodable(ctx, before, minBalance, outcome, after, r);
      WriteKeepsFaithful(ctx, before, b, r.value, m, outcome, after);
    }
  }

  lemma LoadedEncodable(ctx: Context, before: Disk, minBalance: nat, outcome: WriteOutcome, after: Disk, r: Result<Sets, LoadError>)
    requires Small(ctx) && Faithful(ctx, before) && minBalance < TWO_64
    requires LoadStep(ctx, before, minBalance, outcome, after, r) && r.Success?
    ensures before.tsv.Some? && !ctx.tableAt(before.tsv.value).scanError
    ensures IndexesTable(ctx, r.value, before.tsv.value, NormalizedMin(minBalance))
    ensures Encodable(ctx.lib, r.value)
  {
    hide Encodable, CachedSets, IsFilterOf, CacheWritten, Summarizes, TableRows, BloomsComplete;
    var b, m := NormalizedMin(minBalance), before.tsv.value;
    var cached := CachedSets(ctx, before, m, b);
    if cached.Some? {
      CachedIndexesTable(ctx, before, m, b);
      if !BloomsComplete(cached.value) {
        UpgradeIndexes(ctx, cached.value, r.value, m, b);
      }
    }
    forall kind ensures Bloom.Storable(ctx.lib, r.value.At(kind).bloom) {
      if cached.None? || r.value.At(kind).bloom != cached.value.At(kind).bloom {
        FilterStorable(ctx, r.value.At(kind).bloom, r.value.At(kind).hashes);
      } else {
        EncodableStorable(ctx.lib, cached.value, kind);
      }
    }
    IndexEncodable(ctx, r.value, m, b);
  }

  lemma EncodableStorable(lib: Bloom.Library, sets: Sets, kind: AddressKind)
    requires Encodable(lib, sets)
    ensures Bloom.Storable(lib, sets.At(kind).bloom)
  {
  }

  // ---------- every history ----------

  datatype Event =
    | TableInstalled(m: Nanos)
    | FileRemoved(path: string)
    | Loaded(minBalance: nat, outcome: WriteOutcome, result: Result<Sets, LoadError>)

  ghost predicate Next(ctx: Context, before: Disk, e: Event, after: Disk) {
    match e
    case TableInstalled(m) => after == before.(tsv := Some(m))
    case FileRemoved(path) => after == before.(files := before.files - {path})
    case Loaded(minBalance, outcome, result) =>
      minBalance < TWO_64 && LoadStep(ctx, before, minBalance, outcome, after, result)
  }

  ghost predicate History(ctx: Context, disks: seq<Disk>, events: seq<Event>) {
    && |disks| == |events| + 1
    && Faithful(ctx, disks[0])
    && forall i | 0 <= i < |events| :: Next(ctx, disks[i], events[i], disks[i + 1])
  }

  lemma {:induction false} HistoryFaithful(ctx: Context, disks: seq<Disk>, events: seq<Event>, n: nat)
    requires Small(ctx) && History(ctx, disks, events) && n <= |events|
    ensures Faithful(ctx, disks[n])
  {
    hide Faithful, Next, Small;
    if n == 0 {
    } else {
      HistoryFaithful(ctx, disks, events, n - 1);
      assert Next(ctx, disks[n - 1], events[n - 1], disks[n]);
      NextKeepsFaithful(ctx, disks[n - 1], events[n - 1], disks[n]);
    }
  }

  lemma NextKeepsFaithful(ctx: Context, before: Disk, e: Event, after: Disk)
    requires Small(ctx) && Faithful(ctx, before) && Next(ctx, before, e, after)
    ensures Faithful(ctx, after)
  {
    hide LoadStep, Small, FaithfulFile, IsCachePath;
    if e.Loaded? {
      LoadKeepsFaithful(ctx, before, e.minBalance, e.outcome, after, e.result);
    }
  }

  // Every load, after any history, answers as the rows of the table that is installed at that moment
  // at the requested threshold; it fails exactly when there is no table or the table cannot be scanned.
  lemma LoadCorrect(ctx: Context, disks: seq<Disk>, events: seq<Event>, n: nat)
    requires Small(ctx) && History(ctx, disks, events) && n < |events| && events[n].Loaded?
    ensures events[n].result.Success? <==> disks[n].tsv.Some? && !ctx.tableAt(disks[n].tsv.value).scanError
    ensures events[n].result.Success? ==>
      Answers(ctx.lib, ctx.decode, NormalizedMin(events[n].minBalance),
              TableRows(ctx.tableAt(disks[n].tsv.value)), events[n].result.value)
  {
    hide Faithful, Small, Answers, IndexesTable, CacheWritten, CachedSets, BloomsUpgraded, BloomsComplete;
    HistoryFaithful(ctx, disks, events, n);
    var before, e := disks[n], events[n];
    assert Next(ctx, before, e, disks[n + 1]);
    if e.result.Success? {
      LoadedEncodable(ctx, before, e.minBalance, e.outcome, disks[n + 1], e.result);
      IndexAnswers(ctx, e.result.value, before.tsv.value, NormalizedMin(e.minBalance));
    }
  }

  // ---------- the cache is used ----------

  // A complete cache of this threshold for the installed table.
  ghost predicate Cached(ctx: Context, disk: Disk, m: Nanos, b: nat, sets: Sets) {
    disk.tsv == Some(m) && CachedSets(ctx, disk, m, b) == Some(sets) && BloomsComplete(sets)
  }

  // A load that succeeds, and whose write does if it writes at all, leaves what it returned in the cache.
  lemma LoadLeavesCache(ctx: Context, before: Disk, minBalance: nat, after: Disk, r: Result<Sets, LoadError>)
    requires Small(ctx) && Faithful(ctx, before) && minBalance < TWO_64
    requires LoadStep(ctx, before, minBalance, Renamed, after, r) && r.Success?
    ensures before.tsv.Some? && Cached(ctx, after, before.tsv.value, NormalizedMin(minBalance), Persisted(r.value))
  {
    hide Encodable, IsFilterOf, Summarizes, TableRows, Faithful,
         CachePath, DecodeTo, EncodeCache, Undecodable, Small, Indexes, BloomsUpgraded;
    var b, m := NormalizedMin(minBalance), before.tsv.value;
    LoadedEncodable(ctx, before, minBalance, Renamed, after, r);
    FreshIsComplete(ctx.lib, r.value);
    if CachedSets(ctx, before, m, b).Some? && BloomsComplete(CachedSets(ctx, before, m, b).value) {
      CachedIndexesTable(ctx, before, m, b);
      CachedHasNoOther(ctx, before, m, b);
    } else {
      var file := EncodeCache(ctx.lib, r.value, m);
      CacheRoundTrip(ctx.lib, r.value, m, []);
      assert file + [] == file;
      assert after.files[CachePath(b)] == file;
    }
  }

  lemma FreshIsComplete(lib: Bloom.Library, sets: Sets)
    ensures (forall kind :: IsFilterOf(lib, sets.At(kind).bloom, sets.At(kind).hashes)) ==> BloomsComplete(sets)
  {
    if forall kind :: IsFilterOf(lib, sets.At(kind).bloom, sets.At(kind).hashes) {
      assert IsFilterOf(lib, sets.At(KindLegacy).bloom, sets.legacy.hashes);
      assert IsFilterOf(lib, sets.At(KindP2SH).bloom, sets.p2sh.hashes);
      assert IsFilterOf(lib, sets.At(KindSegwitV0).bloom, sets.segwit.hashes);
      assert IsFilterOf(lib, sets.At(KindTaprootV1).bloom, sets.taproot.hashes);
    }
  }

  lemma CachedHasNoOther(ctx: Context, disk: Disk, m: Nanos, b: nat)
    requires CachedSets(ctx, disk, m, b).Some?
    ensures CachedSets(ctx, disk, m, b).value.other == multiset{} && CachedSets(ctx, disk, m, b).value.minBalance == b
  {
    hide ReadSections, ReadBlooms, FromWords, CachePath;
  }

  // Only a new table or the removal of that very file takes a cache out of use.
  lemma CachedStays(ctx: Context, before: Disk, e: Event, after: Disk, m: Nanos, b: nat, sets: Sets)
    requires Cached(ctx, before, m, b, sets) && b != 0 && Next(ctx, before, e, after)
    requires !e.TableInstalled? && (e.FileRemoved? ==> e.path != CachePath(b))
    ensures Cached(ctx, after, m, b, sets)
    ensures e.Loaded? && NormalizedMin(e.minBalance) == b ==> e.result == Success(sets) && after == before
  {
    hide DecodeCache, EncodeCache, CachePath, FreshIndex, BloomsComplete, BloomsUpgraded, TmpPath;
    if e.Loaded? && after != before {
      CachePathInjective(b, NormalizedMin(e.minBalance));
      TmpIsNoCache(CachePath(NormalizedMin(e.minBalance)));
      assert IsCachePath(CachePath(b));
    }
  }

  // After a load whose write succeeded, every later load at the same threshold returns the same sets without touching
  // the directory, as long as no table is installed and that cache is not removed in between - whatever
  // else happens: loads at other thresholds, failing writes, crashes.
  lemma CacheIsUsed(ctx: Context, disks: seq<Disk>, events: seq<Event>, n: nat, k: nat)
    requires Small(ctx) && History(ctx, disks, events) && n < k < |events|
    requires events[n].Loaded? && events[n].result.Success? && events[n].outcome == Renamed
    requires forall j | n < j < k :: !events[j].TableInstalled? && events[j] != FileRemoved(CachePath(NormalizedMin(events[n].minBalance)))
    requires events[k].Loaded? && NormalizedMin(events[k].minBalance) == NormalizedMin(events[n].minBalance)
    ensures events[k].result == Success(Persisted(events[n].result.value)) && disks[k + 1] == disks[k]
  {
    hide Small, Faithful, LoadStep, Cached, CachePath, Persisted, NormalizedMin;
    HistoryFaithful(ctx, disks, events, n);
    assert Next(ctx, disks[n], events[n], disks[n + 1]);
    LoadLeavesCache(ctx, disks[n], events[n].minBalance, disks[n + 1], events[n].result);
    NormalizedIsPositive(events[n].minBalance);
    StillCached(ctx, disks, events, n, k, disks[n].tsv.value);
    assert Next(ctx, disks[k], events[k], disks[k + 1]);
    CachedStays(ctx, disks[k], events[k],
                disks[k + 1], disks[n].tsv.value, NormalizedMin(events[n].minBalance), Persisted(events[n].result.value));
  }

  lemma NormalizedIsPositive(minBalance: nat)
    ensures NormalizedMin(minBalance) != 0
  {
  }

  lemma {:induction false} StillCached(ctx: Context, disks: seq<Disk>, events: seq<Event>, n: nat, k: nat, m: Nanos)
    requires History(ctx, disks, events) && n < k <= |events| && events[n].Loaded? && events[n].result.Success?
    requires var b := NormalizedMin(events[n].minBalance);
      && Cached(ctx, disks[n + 1], m, b, Persisted(events[n].result.value))
      && forall j | n < j < k :: !events[j].TableInstalled? && events[j] != FileRemoved(CachePath(b))
    ensures Cached(ctx, disks[k], m, NormalizedMin(events[n].minBalance), Persisted(events[n].result.value))
  {
    hide Faithful, Next, Cached, CachePath, Persisted, NormalizedMin;
    if k == n + 1 {
    } else {
      StillCached(ctx, disks, events, n, k - 1, m);
      NormalizedIsPositive(events[n].minBalance);
      assert Next(ctx, disks[k - 1], events[k - 1], disks[k]);
      CachedStays(ctx, disks[k - 1], events[k - 1], disks[k], m, NormalizedMin(events[n].minBalance), Persisted(events[n].result.value));
    }
  }
}
