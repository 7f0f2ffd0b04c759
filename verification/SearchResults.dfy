/**
 The pieces put together: from the table on disk, through loading, staged key derivation and the forever
 loop, to the hits a search reports.
 */
module SearchResults {
  import opened Common
  import opened Bytes
  import opened Bitcoin
  import opened FundedSets
  import opened Builder
  import opened CacheStore
  import opened ListedAddresses
  import opened LazyDerivation
  import Address
  import Bloom
  import Base58
  import CacheCodec
  import P = ProcessWallet
  import SearchRun

  // An index of the rows, with all its filters: what every load leaves behind.
  ghost predicate Ready(lib: Bloom.Library, decode: Decoder, b: nat, rows: seq<Row>, sets: Sets) {
    BloomsComplete(sets) && exists maps :: Summarizes(decode, b, rows, maps) && Indexes(lib, sets, maps)
  }

  lemma LoadedReady(ctx: Context, disks: seq<Disk>, events: seq<Event>, n: nat)
    requires Small(ctx) && History(ctx, disks, events) && n < |events| && events[n].Loaded? && events[n].result.Success?
    ensures disks[n].tsv.Some?
    ensures Ready(ctx.lib, ctx.decode, CacheCodec.NormalizedMin(events[n].minBalance),
                  TableRows(ctx.tableAt(disks[n].tsv.value)), events[n].result.value)
  {
    hide Small, Faithful, Indexes, Summarizes, CacheWritten, CachedSets, BloomsUpgraded, BloomsComplete, IsFilterOf, TableRows;
    HistoryFaithful(ctx, disks, events, n);
    var e := events[n];
    assert Next(ctx, disks[n], e, disks[n + 1]);
    LoadedEncodable(ctx, disks[n], e.minBalance, e.outcome, disks[n + 1], e.result);
    FreshIsComplete(ctx.lib, e.result.value);
  }

  // The table lists the address of the all-zero taproot key, which stands in staged wallets for a skipped one.
  ghost predicate ZeroKeyListed(digest: Base58.Digest, b: nat, rows: seq<Row>) {
    Listed(b, rows, Address.EncodeAddress(digest, KindTaprootV1, Zeros(32)))
  }

  lemma ZeroKeyIndexedIff(digest: Base58.Digest, lib: Bloom.Library, decode: Decoder, b: nat, rows: seq<Row>, maps: Maps, sets: Sets)
    requires ParsesAddresses(decode, digest) && Summarizes(decode, b, rows, maps) && Indexes(lib, sets, maps)
    ensures Zeros(32) in sets.taproot.hashes <==> ZeroKeyListed(digest, b, rows)
  {
    hide ParsesAddresses, Address.EncodeAddress, Listed, Funded;
    assert BucketIndexes(lib, sets.At(KindTaprootV1), maps.At(KindTaprootV1));
    assert Zeros(32) in maps.At(KindTaprootV1) <==> Funded(decode, b, rows, KindTaprootV1, Zeros(32));
    FundedIffListed(digest, decode, b, rows, MatchTaproot, NO_KEYS);
  }

  // The address of a public key in a format.
  function RealAddress(digest: Base58.Digest, hash160: Hash160, pub: PubKey, kind: MatchKind): string {
    Address.EncodeAddress(digest, BucketKind(kind), RealKey(hash160, pub, kind))
  }

  ghost predicate KeyListed(digest: Base58.Digest, b: nat, rows: seq<Row>, hash160: Hash160,
                            pub: PubKey, mask: FormatMask, kind: MatchKind) {
    mask.Enabled(kind) && Listed(b, rows, RealAddress(digest, hash160, pub, kind))
  }

  lemma EagerFirstListedIff(digest: Base58.Digest, b: nat, rows: seq<Row>, hash160: Hash160, pub: PubKey, mask: FormatMask, kind: MatchKind)
    ensures FirstListed(digest, b, rows, Eager(hash160, pub, mask), mask, kind)
       <==> && KeyListed(digest, b, rows, hash160, pub, mask, kind)
            && forall earlier | Rank(earlier) < Rank(kind) :: !KeyListed(digest, b, rows, hash160, pub, mask, earlier)
  {
    hide Listed, Eager, RealKey, Address.EncodeAddress;
    EagerKeys(hash160, pub, mask);
    forall k: MatchKind
      ensures ListedHit(digest, b, rows, Eager(hash160, pub, mask), mask, k) <==> KeyListed(digest, b, rows, hash160, pub, mask, k)
    {
      Address.MatchAddressIs(digest, k, Eager(hash160, pub, mask));
    }
  }

  // The format in which a search over these rows finds a key: the first enabled one under which the key's address
  // is listed, except taproot when its key was skipped.
  ghost predicate Findable(digest: Base58.Digest, lib: Bloom.Library, b: nat, rows: seq<Row>, sets: Sets,
                           hash160: Hash160, pub: PubKey, mask: FormatMask, kind: MatchKind) {
    && KeyListed(digest, b, rows, hash160, pub, mask, kind)
    && (forall earlier | Rank(earlier) < Rank(kind) :: !KeyListed(digest, b, rows, hash160, pub, mask, earlier))
    && !(kind.MatchTaproot? && TaprootSkipped(lib, hash160, pub, sets, mask))
  }

  // The key's taproot key was skipped, and what stands in its place is listed.
  ghost predicate Phantom(digest: Base58.Digest, lib: Bloom.Library, b: nat, rows: seq<Row>, sets: Sets,
                          hash160: Hash160, pub: PubKey, mask: FormatMask) {
    TaprootSkipped(lib, hash160, pub, sets, mask) && ZeroKeyListed(digest, b, rows)
  }

  // A generated wallet matches in a format exactly when it is findable in it, or as a phantom in taproot; never both.
  lemma StagedFinds(digest: Base58.Digest, lib: Bloom.Library, decode: Decoder, b: nat, rows: seq<Row>, sets: Sets,
                    hash160: Hash160, pub: PubKey, mask: FormatMask, kind: MatchKind)
    requires Ready(lib, decode, b, rows, sets) && ParsesAddresses(decode, digest)
    ensures Match(lib, sets, Staged(lib, hash160, pub, sets, mask), mask) == Some(kind)
       <==> || Findable(digest, lib, b, rows, sets, hash160, pub, mask, kind)
            || (kind.MatchTaproot? && Phantom(digest, lib, b, rows, sets, hash160, pub, mask))
    ensures TaprootSkipped(lib, hash160, pub, sets, mask) ==> !Findable(digest, lib, b, rows, sets, hash160, pub, mask, kind)
  {
    hide ParsesAddresses, Match, Staged, Eager, TaprootSkipped, Summarizes, Indexes, BloomsComplete,
         ZeroKeyListed, FirstListed, Answers, KeyListed;
    EagerKeys(hash160, pub, mask);
    EagerFirstListedIff(digest, b, rows, hash160, pub, mask, kind);
    var maps :| Summarizes(decode, b, rows, maps) && Indexes(lib, sets, maps);
    ZeroKeyIndexedIff(digest, lib, decode, b, rows, maps, sets);
    StagedMatchIff(lib, hash160, pub, sets, maps, mask, kind);
    IndexRefinement(lib, decode, b, rows, maps, sets);
    AnswersByAddress(digest, lib, decode, b, rows, sets, Eager(hash160, pub, mask), mask, kind);
  }

  // ---------- the reported event ----------

  ghost predicate MaxListed(rows: seq<Row>, addr: string, balance: nat) {
    && (exists i | 0 <= i < |rows| :: rows[i].addr == addr && rows[i].balance == balance)
    && (forall i | 0 <= i < |rows| && rows[i].addr == addr :: rows[i].balance <= balance)
  }

  // The key that a staged wallet matches with is the fully derived one, unless it stands for a skipped taproot key.
  lemma StagedKeyMatched(lib: Bloom.Library, sets: Sets, maps: Maps, hash160: Hash160, pub: PubKey, mask: FormatMask, kind: MatchKind)
    requires Indexes(lib, sets, maps)
    requires var staged := Staged(lib, hash160, pub, sets, mask); Wins(lib, sets, staged, mask, kind)
    ensures Staged(lib, hash160, pub, sets, mask).KeyFor(kind)
         == if kind.MatchTaproot? && TaprootSkipped(lib, hash160, pub, sets, mask) then Zeros(32)
            else Eager(hash160, pub, mask).KeyFor(kind)
  {
    hide MaybeFunded, Hash160BloomMaybe;
    var staged := Staged(lib, hash160, pub, sets, mask);
    var bucket, m := sets.At(BucketKind(kind)), maps.At(BucketKind(kind));
    assert BucketIndexes(lib, bucket, m);
    BucketLookup(lib, bucket, m, staged.KeyFor(kind));
    assert staged.KeyFor(kind) in bucket.hashes;
  }

  lemma MaxByAddress(digest: Base58.Digest, decode: Decoder, b: nat, rows: seq<Row>, keys: LookupKeys, kind: MatchKind, balance: nat)
    requires ParsesAddresses(decode, digest) && keys.Sized()
    requires IsMaxBalance(decode, b, rows, BucketKind(kind), keys.KeyFor(kind), balance)
    ensures MaxListed(rows, Address.EncodeMatchAddress(digest, kind, keys), balance)
  {
    hide Qualifies, Address.EncodeMatchAddress, ParsesAddresses;
    forall i | 0 <= i < |rows|
      ensures Qualifies(decode, b, rows[i], BucketKind(kind), keys.KeyFor(kind))
         <==> rows[i].balance >= b && rows[i].addr == Address.EncodeMatchAddress(digest, kind, keys)
    {
      RowQualifiesIff(digest, decode, b, rows[i], kind, keys);
    }
  }

  // A real event with the key, its index, and the greatest balance of the rows that list its address.
  ghost predicate EventOf(digest: Base58.Digest, rows: seq<Row>, key: Hash, keyIndex: int, e: P.HitEvent) {
    && !e.simulated && e.keyIndex == keyIndex && e.keys.KeyFor(e.kind) == key
    && MaxListed(rows, Address.EncodeAddress(digest, BucketKind(e.kind), key), e.balance)
  }

  // A true report: of the real key, in the format in which it is findable.
  ghost predicate Reports(digest: Base58.Digest, lib: Bloom.Library, b: nat, rows: seq<Row>, sets: Sets,
                          hash160: Hash160, pub: PubKey, mask: FormatMask, keyIndex: int, e: P.HitEvent) {
    && Findable(digest, lib, b, rows, sets, hash160, pub, mask, e.kind)
    && EventOf(digest, rows, RealKey(hash160, pub, e.kind), keyIndex, e)
  }

  // A false one: of the all-zero taproot key.
  ghost predicate ReportsZeroKey(digest: Base58.Digest, rows: seq<Row>, keyIndex: int, e: P.HitEvent) {
    e.kind.MatchTaproot? && EventOf(digest, rows, Zeros(32), keyIndex, e)
  }

  // What one call does for a generated wallet. A hit is a true report exactly when the wallet is no phantom.
  ghost predicate TrueOutcome(digest: Base58.Digest, lib: Bloom.Library, b: nat, rows: seq<Row>, sets: Sets,
                              hash160: Hash160, pub: PubKey, mask: FormatMask, keyIndex: int, o: P.Outcome) {
    var phantom := Phantom(digest, lib, b, rows, sets, hash160, pub, mask);
    && (o.hit <==> (exists kind :: Findable(digest, lib, b, rows, sets, hash160, pub, mask, kind)) || phantom)
    && (o.hit ==> o.event.Some?)
    && (o.hit ==> (Reports(digest, lib, b, rows, sets, hash160, pub, mask, keyIndex, o.event.value) <==> !phantom))
    && (phantom ==> ReportsZeroKey(digest, rows, keyIndex, o.event.value))
  }

  lemma ProcessFinds(digest: Base58.Digest, lib: Bloom.Library, decode: Decoder, b: nat, rows: seq<Row>, sets: Sets,
                     cfg: P.Config, hash160: Hash160, pub: PubKey, keyIndex: int, hookFails: bool)
    requires Ready(lib, decode, b, rows, sets) && ParsesAddresses(decode, digest) && !P.InjectHere(cfg, keyIndex)
    ensures TrueOutcome(digest, lib, b, rows, sets, hash160, pub, cfg.formats, keyIndex,
              P.Process(lib, cfg, sets, Staged(lib, hash160, pub, sets, cfg.formats), keyIndex, hookFails))
  {
    hide Ready, ParsesAddresses, Match, Staged, Eager, ZeroKeyListed, TaprootSkipped, Findable, MaxListed, BalanceForMatch,
         RealKey, Address.EncodeAddress;
    var staged := Staged(lib, hash160, pub, sets, cfg.formats);
    forall kind
      ensures Match(lib, sets, staged, cfg.formats) == Some(kind)
         <==> || Findable(digest, lib, b, rows, sets, hash160, pub, cfg.formats, kind)
              || (kind.MatchTaproot? && Phantom(digest, lib, b, rows, sets, hash160, pub, cfg.formats))
      ensures TaprootSkipped(lib, hash160, pub, sets, cfg.formats) ==>
        !Findable(digest, lib, b, rows, sets, hash160, pub, cfg.formats, kind)
    {
      StagedFinds(digest, lib, decode, b, rows, sets, hash160, pub, cfg.formats, kind);
    }
    StagedFinds(digest, lib, decode, b, rows, sets, hash160, pub, cfg.formats, MatchTaproot);
    var found := Match(lib, sets, staged, cfg.formats);
    if found.Some? {
      MatchReports(digest, lib, decode, b, rows, sets, hash160, pub, cfg.formats, found.value);
    }
  }

  lemma MatchReports(digest: Base58.Digest, lib: Bloom.Library, decode: Decoder, b: nat, rows: seq<Row>, sets: Sets,
                     hash160: Hash160, pub: PubKey, mask: FormatMask, kind: MatchKind)
    requires Ready(lib, decode, b, rows, sets) && ParsesAddresses(decode, digest)
    requires Match(lib, sets, Staged(lib, hash160, pub, sets, mask), mask) == Some(kind)
    ensures var staged := Staged(lib, hash160, pub, sets, mask);
      var key := if kind.MatchTaproot? && TaprootSkipped(lib, hash160, pub, sets, mask) then Zeros(32) else RealKey(hash160, pub, kind);
      && staged.KeyFor(kind) == key
      && MaxListed(rows, Address.EncodeAddress(digest, BucketKind(kind), key), BalanceForMatch(sets, kind, staged))
  {
    hide ParsesAddresses, Match, Staged, Eager, TaprootSkipped, Summarizes, Indexes, BloomsComplete, Funded, IsMaxBalance,
         MaxListed, BalanceForMatch, RealKey, MaybeFunded, Address.EncodeMatchAddress, Address.EncodeAddress;
    EagerKeys(hash160, pub, mask);
    var staged := Staged(lib, hash160, pub, sets, mask);
    var keys := if kind.MatchTaproot? && TaprootSkipped(lib, hash160, pub, sets, mask) then NO_KEYS else Eager(hash160, pub, mask);
    var maps :| Summarizes(decode, b, rows, maps) && Indexes(lib, sets, maps);
    MatchIsFirst(lib, sets, staged, mask, kind);
    StagedKeyMatched(lib, sets, maps, hash160, pub, mask, kind);
    IndexRefinement(lib, decode, b, rows, maps, sets);
    assert MatchCorrect(lib, decode, b, rows, sets, staged, mask, kind);
    assert BalanceCorrect(decode, b, rows, sets, staged, kind);
    MaxByAddress(digest, decode, b, rows, keys, kind, BalanceForMatch(sets, kind, staged));
    Address.MatchAddressIs(digest, kind, keys);
  }

  // ---------- whole searches ----------

  // The stream of generated wallets: every one derived in stages from its public key.
  ghost predicate Generated(lib: Bloom.Library, sets: Sets, mask: FormatMask,
                            hash160: Hash160, pubs: seq<PubKey>, stream: seq<SearchRun.Step>) {
    && |pubs| == |stream|
    && forall j | 0 <= j < |pubs| :: stream[j].wallet == Staged(lib, hash160, pubs[j], sets, mask)
  }

  // A search of either kind: key number i gives a hit exactly when it is findable or a phantom, and what is
  // reported of it is accordingly true or of the all-zero key.
  lemma CallsReportListed(digest: Base58.Digest, decode: Decoder, b: nat, rows: seq<Row>, lib: Bloom.Library, sets: Sets, cfg: P.Config,
                          base: nat, outcomes: seq<P.Outcome>, stream: seq<SearchRun.Step>, hash160: Hash160, pubs: seq<PubKey>, i: nat)
    requires Ready(lib, decode, b, rows, sets) && ParsesAddresses(decode, digest)
    requires Generated(lib, sets, cfg.formats, hash160, pubs, stream)
    requires SearchRun.Calls(lib, sets, cfg, base, outcomes, stream)
    requires i < |outcomes| && !P.InjectHere(cfg, base + i + 1)
    ensures i < |pubs| && TrueOutcome(digest, lib, b, rows, sets, hash160, pubs[i], cfg.formats, base + i + 1, outcomes[i])
  {
    hide Ready, ParsesAddresses, Staged, Eager, TrueOutcome, P.Process;
    ProcessFinds(digest, lib, decode, b, rows, sets, cfg, hash160, pubs[i], base + i + 1, stream[i].hookFails);
  }

  // The forever run, for every script of batches, checkpoints, failures and cancellations.
  lemma SearchReportsListed(digest: Base58.Digest, decode: Decoder, b: nat, rows: seq<Row>, env: SearchRun.Env,
                            file: Option<SearchRun.Session>, rounds: seq<SearchRun.Round>, saved: bool,
                            hash160: Hash160, pubs: seq<PubKey>, i: nat)
    requires Ready(env.lib, decode, b, rows, env.sets) && ParsesAddresses(decode, digest)
    requires Generated(env.lib, env.sets, env.cfg.formats, hash160, pubs, SearchRun.Stream(rounds))
    requires i < |SearchRun.ForeverSpec(env, file, rounds, saved).outcomes| && !P.InjectHere(env.cfg, env.base.keys + i + 1)
    ensures i < |pubs|
    ensures TrueOutcome(digest, env.lib, b, rows, env.sets, hash160, pubs[i], env.cfg.formats, env.base.keys + i + 1,
              SearchRun.ForeverSpec(env, file, rounds, saved).outcomes[i])
  {
    hide Ready, ParsesAddresses, Generated, TrueOutcome, SearchRun.ForeverSpec, SearchRun.Calls;
    SearchRun.ForeverFollowsStream(env, file, rounds, saved);
    CallsReportListed(digest, decode, b, rows, env.lib, env.sets, env.cfg, env.base.keys,
      SearchRun.ForeverSpec(env, file, rounds, saved).outcomes, SearchRun.Stream(rounds), hash160, pubs, i);
  }
}
