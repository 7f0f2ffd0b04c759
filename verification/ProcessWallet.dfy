/** Checking one generated wallet: index-hit injection, the real match, the simulated match (search/process.go). */
module ProcessWallet {
  import opened Common
  import opened Bitcoin
  import opened FundedSets
  import opened Builder
  import Bloom

  datatype Config = Config(
    formats: FormatMask,
    simulateHit: bool,
    simulateHitAt: int,
    injectIndexHit: string)

  datatype HitEvent = HitEvent(keys: LookupKeys, kind: MatchKind, keyIndex: int, balance: nat, simulated: bool)

  // What one call does: its two results, the OnHit event it fired, and whether it injected.
  datatype Outcome = Outcome(hit: bool, failed: bool, event: Option<HitEvent>, injected: bool)

  // The keys after overwriting one of them with the first hash of the named bucket; None is the error.
  function ApplyInjectIndexHit(sets: Sets, keys: LookupKeys, bucket: string): Option<LookupKeys> {
    if bucket == "legacy" then
      if sets.legacy.hashes == [] then None else Some(keys.(compressedHash := sets.legacy.hashes[0]))
    else if bucket == "legacy-uncompressed" then
      if sets.legacy.hashes == [] then None else Some(keys.(uncompressedHash := sets.legacy.hashes[0]))
    else if bucket == "p2sh" then
      if sets.p2sh.hashes == [] then None else Some(keys.(p2shHash := sets.p2sh.hashes[0]))
    else if bucket == "segwit" then
      if sets.segwit.hashes == [] then None else Some(keys.(compressedHash := sets.segwit.hashes[0]))
    else if bucket == "taproot" then
      if sets.taproot.hashes == [] then None else Some(keys.(taprootKey := sets.taproot.hashes[0]))
    else None
  }

  // The match kind that a bucket name injects; InjectBucketAllowed asks whether the mask enables it.
  function InjectedKind(bucket: string): Option<MatchKind> {
    if bucket == "legacy" then Some(MatchLegacyCompressed)
    else if bucket == "legacy-uncompressed" then Some(MatchLegacyUncompressed)
    else if bucket == "p2sh" then Some(MatchP2SH)
    else if bucket == "segwit" then Some(MatchSegwitV0)
    else if bucket == "taproot" then Some(MatchTaproot)
    else None
  }

  predicate InjectHere(cfg: Config, keyIndex: int) {
    cfg.injectIndexHit != "" && keyIndex == cfg.simulateHitAt
  }

  // hookFails is what OnHit would answer; it is called at most once.
  function Process(lib: Bloom.Library, cfg: Config, sets: Sets, wallet: LookupKeys, keyIndex: int, hookFails: bool): Outcome {
    var inject := InjectHere(cfg, keyIndex);
    match if inject then ApplyInjectIndexHit(sets, wallet, cfg.injectIndexHit) else Some(wallet)
    case None => Outcome(false, true, None, false)
    case Some(keys) =>
      match Match(lib, sets, keys, cfg.formats)
      case Some(kind) =>
        var e := HitEvent(keys, kind, keyIndex, BalanceForMatch(sets, kind, keys), false);
        Outcome(true, hookFails, Some(e), inject)
      case None =>
        if cfg.simulateHit && keyIndex == cfg.simulateHitAt then
          var e := HitEvent(keys, MatchLegacyCompressed, keyIndex, 0, true);
          Outcome(false, hookFails, Some(e), inject)
        else Outcome(false, false, None, inject)
  }

  // A real event is true of the rows behind the index: the first enabled kind listed for the event's keys,
  // with the greatest listed balance; and when nothing enabled is listed, no real event is fired.
  lemma RealEventIff(lib: Bloom.Library, cfg: Config, sets: Sets, wallet: LookupKeys, keyIndex: int, hookFails: bool,
                     decode: Decoder, minBalance: nat, rows: seq<Row>)
    requires Answers(lib, decode, minBalance, rows, sets)
    requires !InjectHere(cfg, keyIndex)
    ensures var o := Process(lib, cfg, sets, wallet, keyIndex, hookFails);
      && (o.hit <==> exists kind :: Hit(decode, minBalance, rows, wallet, cfg.formats, kind))
      && (o.hit ==> o.event.Some? && RealEvent(decode, minBalance, rows, cfg.formats, wallet, keyIndex, o.event.value))
  {
    hide Hit, IsMaxBalance, Funded;
    var found := Match(lib, sets, wallet, cfg.formats);
    if found.Some? {
      assert MatchCorrect(lib, decode, minBalance, rows, sets, wallet, cfg.formats, found.value);
      assert BalanceCorrect(decode, minBalance, rows, sets, wallet, found.value);
      HitIsFunded(decode, minBalance, rows, wallet, cfg.formats, found.value);
    } else {
      forall kind ensures !Hit(decode, minBalance, rows, wallet, cfg.formats, kind) {
        NoHitBelow(lib, decode, minBalance, rows, sets, wallet, cfg.formats, kind);
      }
    }
  }

  // The keys that are looked up: the wallet's, or those after an injection, which may fail.
  function KeysLookedUp(cfg: Config, sets: Sets, wallet: LookupKeys, keyIndex: int): Option<LookupKeys> {
    if InjectHere(cfg, keyIndex) then ApplyInjectIndexHit(sets, wallet, cfg.injectIndexHit) else Some(wallet)
  }

  // Everything one call does, in terms of the rows behind the index: a real event of the looked-up keys when an enabled
  // format lists them; otherwise, where it is asked for, the simulated event, of the first format and without balance;
  // otherwise nothing. It fails when the injection or the hook that was called does.
  lemma ProcessExactly(lib: Bloom.Library, cfg: Config, sets: Sets, wallet: LookupKeys, keyIndex: int, hookFails: bool,
                       decode: Decoder, minBalance: nat, rows: seq<Row>)
    requires Answers(lib, decode, minBalance, rows, sets)
    ensures var o := Process(lib, cfg, sets, wallet, keyIndex, hookFails);
      match KeysLookedUp(cfg, sets, wallet, keyIndex)
      case None => o == Outcome(false, true, None, false)
      case Some(keys) =>
        && o.injected == InjectHere(cfg, keyIndex)
        && if exists kind :: Hit(decode, minBalance, rows, keys, cfg.formats, kind) then
             && o.hit && o.failed == hookFails
             && o.event.Some? && RealEvent(decode, minBalance, rows, cfg.formats, keys, keyIndex, o.event.value)
           else if cfg.simulateHit && keyIndex == cfg.simulateHitAt then
             && !o.hit && o.failed == hookFails
             && o.event == Some(HitEvent(keys, MatchLegacyCompressed, keyIndex, 0, true))
           else
             !o.hit && !o.failed && o.event == None
  {
    hide Hit, IsMaxBalance, Funded;
    var looked := KeysLookedUp(cfg, sets, wallet, keyIndex);
    if looked.Some? {
      var keys := looked.value;
      var found := Match(lib, sets, keys, cfg.formats);
      if found.Some? {
        assert MatchCorrect(lib, decode, minBalance, rows, sets, keys, cfg.formats, found.value);
        assert BalanceCorrect(decode, minBalance, rows, sets, keys, found.value);
        HitIsFunded(decode, minBalance, rows, keys, cfg.formats, found.value);
      } else {
        forall kind ensures !Hit(decode, minBalance, rows, keys, cfg.formats, kind) {
          NoHitBelow(lib, decode, minBalance, rows, sets, keys, cfg.formats, kind);
        }
      }
    }
  }

  lemma HitIsFunded(decode: Decoder, minBalance: nat, rows: seq<Row>, keys: LookupKeys, mask: FormatMask, kind: MatchKind)
    requires Hit(decode, minBalance, rows, keys, mask, kind)
    ensures Funded(decode, minBalance, rows, BucketKind(kind), keys.KeyFor(kind))
  {
  }

  ghost predicate RealEvent(decode: Decoder, minBalance: nat, rows: seq<Row>, mask: FormatMask,
                            wallet: LookupKeys, keyIndex: int, e: HitEvent) {
    && !e.simulated && e.keys == wallet && e.keyIndex == keyIndex
    && Hit(decode, minBalance, rows, wallet, mask, e.kind)
    && (forall earlier | Rank(earlier) < Rank(e.kind) :: !Hit(decode, minBalance, rows, wallet, mask, earlier))
    && IsMaxBalance(decode, minBalance, rows, BucketKind(e.kind), wallet.KeyFor(e.kind), e.balance)
  }

  lemma {:induction false} NoHitBelow(lib: Bloom.Library, decode: Decoder, minBalance: nat, rows: seq<Row>, sets: Sets,
                                      keys: LookupKeys, mask: FormatMask, kind: MatchKind)
    requires Answers(lib, decode, minBalance, rows, sets) && Match(lib, sets, keys, mask).None?
    ensures !Hit(decode, minBalance, rows, keys, mask, kind)
    decreases Rank(kind)
  {
    hide Hit, Match;
    forall earlier: MatchKind | Rank(earlier) < Rank(kind) ensures !Hit(decode, minBalance, rows, keys, mask, earlier) {
      NoHitBelow(lib, decode, minBalance, rows, sets, keys, mask, earlier);
    }
    assert MatchCorrect(lib, decode, minBalance, rows, sets, keys, mask, kind);
  }

  // Injecting from a non-empty bucket of an enabled kind always yields a real match, never a simulated one.
  lemma InjectionIsRealMatch(lib: Bloom.Library, cfg: Config, sets: Sets, maps: Maps, wallet: LookupKeys, keyIndex: int, hookFails: bool)
    requires Indexes(lib, sets, maps) && InjectHere(cfg, keyIndex)
    requires InjectedKind(cfg.injectIndexHit).Some?
    requires var kind := InjectedKind(cfg.injectIndexHit).value;
      cfg.formats.Enabled(kind) && sets.At(BucketKind(kind)).hashes != []
    ensures var o := Process(lib, cfg, sets, wallet, keyIndex, hookFails);
      o.hit && o.injected && o.event.Some? && !o.event.value.simulated && o.failed == hookFails
  {
    var kind := InjectedKind(cfg.injectIndexHit).value;
    var bucket := sets.At(BucketKind(kind));
    var keys := InjectedKeys(sets, wallet, cfg.injectIndexHit, kind);
    assert bucket.hashes[0] in bucket.hashes;
    assert BucketIndexes(lib, bucket, maps.At(BucketKind(kind)));
    BucketLookup(lib, bucket, maps.At(BucketKind(kind)), bucket.hashes[0]);
    MatchInOrder(lib, sets, keys, cfg.formats);
    assert Wins(lib, sets, keys, cfg.formats, kind);
  }

  lemma InjectedKeys(sets: Sets, wallet: LookupKeys, bucket: string, kind: MatchKind) returns (keys: LookupKeys)
    requires InjectedKind(bucket) == Some(kind) && sets.At(BucketKind(kind)).hashes != []
    ensures ApplyInjectIndexHit(sets, wallet, bucket) == Some(keys)
    ensures keys.KeyFor(kind) == sets.At(BucketKind(kind)).hashes[0]
  {
    keys := ApplyInjectIndexHit(sets, wallet, bucket).value;
  }

  // Which key an injection replaces, and by what; segwit shares its key with the compressed legacy format.
  lemma InjectionReplaces(sets: Sets, wallet: LookupKeys, bucket: string, kind: MatchKind)
    requires InjectedKind(bucket) == Some(kind) && sets.At(BucketKind(kind)).hashes != []
    ensures var keys, first := ApplyInjectIndexHit(sets, wallet, bucket), sets.At(BucketKind(kind)).hashes[0];
      && keys.Some?
      && keys.value.KeyFor(kind) == first
      && (kind != MatchLegacyCompressed && kind != MatchSegwitV0 ==> keys.value.compressedHash == wallet.compressedHash)
      && (kind != MatchLegacyUncompressed ==> keys.value.uncompressedHash == wallet.uncompressedHash)
      && (kind != MatchP2SH ==> keys.value.p2shHash == wallet.p2shHash)
      && (kind != MatchTaproot ==> keys.value.taprootKey == wallet.taprootKey)
    ensures bucket == match kind
                      case MatchLegacyCompressed => "legacy"
                      case MatchLegacyUncompressed => "legacy-uncompressed"
                      case MatchSegwitV0 => "segwit"
                      case MatchP2SH => "p2sh"
                      case MatchTaproot => "taproot"
  {
  }

  // An injection that cannot be made, for an unknown or an empty bucket, is the only error besides the hook's.
  lemma FailureIff(lib: Bloom.Library, cfg: Config, sets: Sets, wallet: LookupKeys, keyIndex: int, hookFails: bool)
    ensures var o := Process(lib, cfg, sets, wallet, keyIndex, hookFails);
      var kind := InjectedKind(cfg.injectIndexHit);
      o.failed <==>
        || (InjectHere(cfg, keyIndex) && (kind.None? || sets.At(BucketKind(kind.value)).hashes == []))
        || (hookFails && o.event.Some?)
  {
    var kind := InjectedKind(cfg.injectIndexHit);
    if kind.Some? && sets.At(BucketKind(kind.value)).hashes != [] {
      var _ := InjectedKeys(sets, wallet, cfg.injectIndexHit, kind.value);
    }
  }

  // Injections and simulated events belong to one key index; a simulated event means there was no match there.
  lemma OnlyAtSimulateIndex(lib: Bloom.Library, cfg: Config, sets: Sets, wallet: LookupKeys, keyIndex: int, hookFails: bool)
    ensures var o := Process(lib, cfg, sets, wallet, keyIndex, hookFails);
      && (o.injected ==> keyIndex == cfg.simulateHitAt)
      && (o.event.Some? && o.event.value.simulated ==> keyIndex == cfg.simulateHitAt && cfg.simulateHit && !o.hit)
      && (o.event.Some? && !o.event.value.simulated <==> o.hit)
  {
  }
}
