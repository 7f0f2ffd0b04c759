/** Staged key derivation (search/workers.go) against full derivation (bitcoin/lookup.go). */
module LazyDerivation {
  import opened Common
  import opened Bytes
  import opened Bitcoin
  import opened FundedSets
  import opened Builder
  import Bloom

  type Digest20 = h: Hash | |h| == 20 witness Zeros(20)

  type Key32 = h: Hash | |h| == 32 witness Zeros(32)

  // A public key through its serialisations and its tweaked taproot key.
  datatype PubKey = PubKey(compressed: seq<byte>, uncompressed: seq<byte>, taprootKey: Key32)

  type Hash160 = seq<byte> -> Digest20

  // What an address of each format commits to: the hash of a serialised key, the hash of the version-0 witness
  // program of the compressed key's hash, or the tweaked key.
  function RealKey(hash160: Hash160, pub: PubKey, kind: MatchKind): (key: Hash)
    ensures |key| == Width(BucketKind(kind))
  {
    match kind
    case MatchLegacyCompressed => hash160(pub.compressed)
    case MatchLegacyUncompressed => hash160(pub.uncompressed)
    case MatchSegwitV0 => hash160(pub.compressed)
    case MatchP2SH => hash160([0x00, 0x14] + hash160(pub.compressed))
    case MatchTaproot => pub.taprootKey
  }

  // The version-0 witness program of a compressed-key hash.
  function RedeemScript(compressedHash: Hash): seq<byte> {
    [0x00, 0x14] + compressedHash
  }

  // DeriveLookupKeysMasked: every enabled key.
  function Eager(hash160: Hash160, pub: PubKey, mask: FormatMask): LookupKeys {
    var keys := NO_KEYS;
    var keys := if mask.NeedsCompressedPubkeyHash() then keys.(compressedHash := hash160(pub.compressed)) else keys;
    var keys := if mask.legacyUncompressed then keys.(uncompressedHash := hash160(pub.uncompressed)) else keys;
    var keys := if mask.p2sh then keys.(p2shHash := hash160(RedeemScript(keys.compressedHash))) else keys;
    if mask.taproot then keys.(taprootKey := pub.taprootKey) else keys
  }

  // Full derivation yields the real key of every enabled format.
  lemma EagerKeys(hash160: Hash160, pub: PubKey, mask: FormatMask)
    ensures forall kind | mask.Enabled(kind) :: Eager(hash160, pub, mask).KeyFor(kind) == RealKey(hash160, pub, kind)
    ensures Eager(hash160, pub, mask).Sized()
  {
    assert [0x00, 0x14] + hash160(pub.compressed) == RedeemScript(hash160(pub.compressed));
  }

  predicate BloomTest(lib: Bloom.Library, bloom: Option<Bloom.Filter>, key: Hash) {
    bloom.Some? && Bloom.Test(lib, bloom.value, key)
  }

  predicate Hash160BloomMaybe(lib: Bloom.Library, sets: Sets, keys: LookupKeys, mask: FormatMask) {
    || (mask.legacyCompressed && BloomTest(lib, sets.legacy.bloom, keys.compressedHash))
    || (mask.segwit && BloomTest(lib, sets.segwit.bloom, keys.compressedHash))
    || (mask.legacyUncompressed && BloomTest(lib, sets.legacy.bloom, keys.uncompressedHash))
    || (mask.p2sh && BloomTest(lib, sets.p2sh.bloom, keys.p2shHash))
  }

  predicate OnlyTaproot(mask: FormatMask) {
    !mask.legacyCompressed && !mask.legacyUncompressed && !mask.segwit && !mask.p2sh
  }

  predicate ShouldDeriveTaproot(lib: Bloom.Library, sets: Sets, keys: LookupKeys, mask: FormatMask) {
    if !mask.taproot || sets.taproot.hashes == [] then false
    else if OnlyTaproot(mask) then true
    else Hash160BloomMaybe(lib, sets, keys, mask)
  }

  // The hash160 stage of deriveKeysStaged.
  function StagedHashes(hash160: Hash160, pub: PubKey, sets: Sets, mask: FormatMask): LookupKeys {
    var keys := NO_KEYS;
    var keys := if mask.NeedsCompressedPubkeyHash() then keys.(compressedHash := hash160(pub.compressed)) else keys;
    var keys :=
      if mask.p2sh && mask.NeedsCompressedPubkeyHash() && sets.p2sh.hashes != []
      then keys.(p2shHash := hash160(RedeemScript(keys.compressedHash))) else keys;
    if mask.legacyUncompressed && sets.legacy.hashes != [] then keys.(uncompressedHash := hash160(pub.uncompressed)) else keys
  }

  // deriveKeysStaged: hashes of empty buckets are skipped, and so is the taproot key unless it may matter.
  function Staged(lib: Bloom.Library, hash160: Hash160, pub: PubKey, sets: Sets, mask: FormatMask): LookupKeys {
    var keys := StagedHashes(hash160, pub, sets, mask);
    if ShouldDeriveTaproot(lib, sets, keys, mask) then keys.(taprootKey := pub.taprootKey) else keys
  }

  // ---------- agreement ----------

  // The guard under which the taproot key is left out although a taproot lookup follows.
  predicate TaprootSkipped(lib: Bloom.Library, hash160: Hash160, pub: PubKey, sets: Sets, mask: FormatMask) {
    && mask.taproot && sets.taproot.hashes != [] && !OnlyTaproot(mask)
    && !Hash160BloomMaybe(lib, sets, StagedHashes(hash160, pub, sets, mask), mask)
  }

  // The filter of the format's bucket, if there is one, does not rule out the real key.
  predicate MaybeListed(lib: Bloom.Library, hash160: Hash160, pub: PubKey, sets: Sets, kind: MatchKind) {
    BloomTest(lib, sets.At(BucketKind(kind)).bloom, RealKey(hash160, pub, kind))
  }

  // The taproot key is skipped exactly when another format is enabled too and the filters rule out the real
  // keys of all these formats.
  lemma SkippedIff(lib: Bloom.Library, hash160: Hash160, pub: PubKey, sets: Sets, mask: FormatMask)
    requires forall kind :: sets.At(kind).hashes == [] ==> sets.At(kind).bloom.None?
    ensures TaprootSkipped(lib, hash160, pub, sets, mask) <==>
      && mask.taproot && sets.taproot.hashes != []
      && (exists kind :: kind != MatchTaproot && mask.Enabled(kind))
      && forall kind | kind != MatchTaproot && mask.Enabled(kind) :: !MaybeListed(lib, hash160, pub, sets, kind)
  {
    hide MaybeListed;
    SomeHash160Enabled(mask);
    BloomMaybeIff(lib, hash160, pub, sets, mask);
  }

  lemma BloomMaybeIff(lib: Bloom.Library, hash160: Hash160, pub: PubKey, sets: Sets, mask: FormatMask)
    requires forall kind :: sets.At(kind).hashes == [] ==> sets.At(kind).bloom.None?
    ensures Hash160BloomMaybe(lib, sets, StagedHashes(hash160, pub, sets, mask), mask)
       <==> exists kind :: kind != MatchTaproot && mask.Enabled(kind) && MaybeListed(lib, hash160, pub, sets, kind)
  {
    hide Bloom.Test;
    assert [0x00, 0x14] + hash160(pub.compressed) == RedeemScript(hash160(pub.compressed));
    assert sets.At(KindLegacy) == sets.legacy && sets.At(KindSegwitV0) == sets.segwit && sets.At(KindP2SH) == sets.p2sh;
    assert mask.Enabled(MatchLegacyCompressed) && MaybeListed(lib, hash160, pub, sets, MatchLegacyCompressed)
      <==> mask.legacyCompressed && BloomTest(lib, sets.legacy.bloom, hash160(pub.compressed));
    assert mask.Enabled(MatchLegacyUncompressed) && MaybeListed(lib, hash160, pub, sets, MatchLegacyUncompressed)
      <==> mask.legacyUncompressed && BloomTest(lib, sets.legacy.bloom, hash160(pub.uncompressed));
    assert mask.Enabled(MatchSegwitV0) && MaybeListed(lib, hash160, pub, sets, MatchSegwitV0)
      <==> mask.segwit && BloomTest(lib, sets.segwit.bloom, hash160(pub.compressed));
    assert mask.Enabled(MatchP2SH) && MaybeListed(lib, hash160, pub, sets, MatchP2SH)
      <==> mask.p2sh && BloomTest(lib, sets.p2sh.bloom, hash160([0x00, 0x14] + hash160(pub.compressed)));
  }

  lemma SomeHash160Enabled(mask: FormatMask)
    ensures OnlyTaproot(mask) <==> forall kind | kind != MatchTaproot :: !mask.Enabled(kind)
  {
    assert mask.Enabled(MatchLegacyCompressed) == mask.legacyCompressed && mask.Enabled(MatchSegwitV0) == mask.segwit;
    assert mask.Enabled(MatchLegacyUncompressed) == mask.legacyUncompressed && mask.Enabled(MatchP2SH) == mask.p2sh;
  }

  lemma EmptyBucketMisses(lib: Bloom.Library, bucket: Bucket, key: Hash)
    requires bucket.hashes == []
    ensures !MaybeFunded(lib, bucket, key)
  {
  }

  lemma SameHash160Lookups(lib: Bloom.Library, hash160: Hash160, pub: PubKey, sets: Sets, mask: FormatMask, kind: MatchKind)
    requires !kind.MatchTaproot?
    ensures Wins(lib, sets, Staged(lib, hash160, pub, sets, mask), mask, kind)
       <==> Wins(lib, sets, Eager(hash160, pub, mask), mask, kind)
  {
    hide InFunded, Bloom.Test, ShouldDeriveTaproot;
    var bucket := sets.At(BucketKind(kind));
    if bucket.hashes == [] {
      EmptyBucketMisses(lib, bucket, Staged(lib, hash160, pub, sets, mask).KeyFor(kind));
      EmptyBucketMisses(lib, bucket, Eager(hash160, pub, mask).KeyFor(kind));
    }
  }

  // When the taproot key is skipped, every enabled hash160 filter said no, and a complete filter is never wrong about that.
  lemma SkippedMeansNoHash160Match(lib: Bloom.Library, hash160: Hash160, pub: PubKey, sets: Sets, mask: FormatMask, kind: MatchKind)
    requires BloomsComplete(sets) && TaprootSkipped(lib, hash160, pub, sets, mask) && !kind.MatchTaproot?
    ensures !Wins(lib, sets, Staged(lib, hash160, pub, sets, mask), mask, kind)
  {
    hide InFunded, Bloom.Test;
    var bucket := sets.At(BucketKind(kind));
    if bucket.hashes == [] {
      EmptyBucketMisses(lib, bucket, Staged(lib, hash160, pub, sets, mask).KeyFor(kind));
    }
  }

  lemma TaprootLookups(lib: Bloom.Library, hash160: Hash160, pub: PubKey, sets: Sets, maps: Maps, mask: FormatMask)
    requires Indexes(lib, sets, maps)
    ensures Wins(lib, sets, Eager(hash160, pub, mask), mask, MatchTaproot)
       <==> mask.taproot && pub.taprootKey in sets.taproot.hashes
    ensures Wins(lib, sets, Staged(lib, hash160, pub, sets, mask), mask, MatchTaproot)
       <==> mask.taproot
            && (if TaprootSkipped(lib, hash160, pub, sets, mask) then Zeros(32) else pub.taprootKey) in sets.taproot.hashes
  {
    hide Eager, StagedHashes, MaybeFunded, Hash160BloomMaybe, Staged, TaprootSkipped;
    TaprootKeys(lib, hash160, pub, sets, mask);
    assert BucketIndexes(lib, sets.At(KindTaprootV1), maps.At(KindTaprootV1));
    BucketLookup(lib, sets.taproot, maps.taproot, pub.taprootKey);
    BucketLookup(lib, sets.taproot, maps.taproot, Zeros(32));
    if sets.taproot.hashes == [] {
      EmptyBucketMisses(lib, sets.taproot, Staged(lib, hash160, pub, sets, mask).taprootKey);
    }
  }

  lemma TaprootKeys(lib: Bloom.Library, hash160: Hash160, pub: PubKey, sets: Sets, mask: FormatMask)
    ensures mask.taproot ==> Eager(hash160, pub, mask).taprootKey == pub.taprootKey
    ensures mask.taproot && sets.taproot.hashes != [] ==>
      (Staged(lib, hash160, pub, sets, mask).taprootKey
        == if TaprootSkipped(lib, hash160, pub, sets, mask) then Zeros(32) else pub.taprootKey)
  {
  }

  // Exactly when the two derivations lead to the same match: unless the taproot key is skipped and exactly one of
  // the real key and the all-zero key is listed. Matches of the other four kinds are never affected.
  lemma LazyVersusEager(lib: Bloom.Library, hash160: Hash160, pub: PubKey, sets: Sets, maps: Maps, mask: FormatMask)
    requires Indexes(lib, sets, maps) && BloomsComplete(sets)
    ensures var staged := Match(lib, sets, Staged(lib, hash160, pub, sets, mask), mask);
      var eager := Match(lib, sets, Eager(hash160, pub, mask), mask);
      && (staged == eager <==>
            !(TaprootSkipped(lib, hash160, pub, sets, mask)
              && (pub.taprootKey in sets.taproot.hashes <==> Zeros(32) !in sets.taproot.hashes)))
      && (forall kind | kind != MatchTaproot :: staged == Some(kind) <==> eager == Some(kind))
  {
    hide Eager, Staged, Match, Wins, TaprootSkipped;
    var l, e := Staged(lib, hash160, pub, sets, mask), Eager(hash160, pub, mask);
    MatchInOrder(lib, sets, l, mask);
    MatchInOrder(lib, sets, e, mask);
    TaprootLookups(lib, hash160, pub, sets, maps, mask);
    forall kind | kind != MatchTaproot
      ensures Wins(lib, sets, l, mask, kind) <==> Wins(lib, sets, e, mask, kind)
      ensures TaprootSkipped(lib, hash160, pub, sets, mask) ==> !Wins(lib, sets, l, mask, kind)
    {
      SameHash160Lookups(lib, hash160, pub, sets, mask, kind);
      if TaprootSkipped(lib, hash160, pub, sets, mask) {
        SkippedMeansNoHash160Match(lib, hash160, pub, sets, mask, kind);
      }
    }
    SkippedNeedsTaproot(lib, hash160, pub, sets, mask);
  }

  lemma SkippedNeedsTaproot(lib: Bloom.Library, hash160: Hash160, pub: PubKey, sets: Sets, mask: FormatMask)
    ensures TaprootSkipped(lib, hash160, pub, sets, mask) ==> mask.taproot && !OnlyTaproot(mask)
  {
  }

  // What the staged search finds, for every index: what the eager one finds, except a taproot match whose key was
  // skipped; and, when the key was skipped, a taproot match of the all-zero key if that is listed.
  lemma StagedMatchIff(lib: Bloom.Library, hash160: Hash160, pub: PubKey, sets: Sets, maps: Maps, mask: FormatMask, kind: MatchKind)
    requires Indexes(lib, sets, maps) && BloomsComplete(sets)
    ensures var skipped := TaprootSkipped(lib, hash160, pub, sets, mask);
      var eager := Match(lib, sets, Eager(hash160, pub, mask), mask);
      && (Match(lib, sets, Staged(lib, hash160, pub, sets, mask), mask) == Some(kind) <==>
            if kind.MatchTaproot? && skipped then Zeros(32) in sets.taproot.hashes else eager == Some(kind))
      && (skipped ==> eager == None || eager == Some(MatchTaproot))
  {
    hide Eager, Staged, Match, Wins, TaprootSkipped;
    var l, e := Staged(lib, hash160, pub, sets, mask), Eager(hash160, pub, mask);
    LazyVersusEager(lib, hash160, pub, sets, maps, mask);
    MatchInOrder(lib, sets, l, mask);
    MatchInOrder(lib, sets, e, mask);
    TaprootLookups(lib, hash160, pub, sets, maps, mask);
    SkippedNeedsTaproot(lib, hash160, pub, sets, mask);
    if TaprootSkipped(lib, hash160, pub, sets, mask) {
      forall k | k != MatchTaproot ensures !Wins(lib, sets, l, mask, k) && !Wins(lib, sets, e, mask, k) {
        SkippedMeansNoHash160Match(lib, hash160, pub, sets, mask, k);
        SameHash160Lookups(lib, hash160, pub, sets, mask, k);
      }
    }
  }

  // With no all-zero key in the table: the staged search never invents a match, misses exactly the taproot matches
  // whose key was skipped, and is complete for masks without taproot and for the taproot-only mask.
  lemma LazyNeverInvents(lib: Bloom.Library, hash160: Hash160, pub: PubKey, sets: Sets, maps: Maps, mask: FormatMask)
    requires Indexes(lib, sets, maps) && BloomsComplete(sets) && Zeros(32) !in sets.taproot.hashes
    ensures var staged := Match(lib, sets, Staged(lib, hash160, pub, sets, mask), mask);
      var eager := Match(lib, sets, Eager(hash160, pub, mask), mask);
      && (staged.Some? ==> staged == eager)
      && (staged != eager <==> eager == Some(MatchTaproot) && TaprootSkipped(lib, hash160, pub, sets, mask))
      && (!mask.taproot || OnlyTaproot(mask) ==> staged == eager)
  {
    hide Eager, Staged, Match, Wins, TaprootSkipped;
    var l, e := Staged(lib, hash160, pub, sets, mask), Eager(hash160, pub, mask);
    LazyVersusEager(lib, hash160, pub, sets, maps, mask);
    MatchInOrder(lib, sets, l, mask);
    MatchInOrder(lib, sets, e, mask);
    TaprootLookups(lib, hash160, pub, sets, maps, mask);
    SkippedNeedsTaproot(lib, hash160, pub, sets, mask);
  }

  // ---------- a concrete miss and a concrete invention ----------

  const LISTED_KEY: Key32 := seq(32, _ => 1)
  const LEGACY_AND_TAPROOT := FormatMask(true, false, false, false, true)

  // An index of one taproot key.
  function TaprootOnly(lib: Bloom.Library, key: Hash): Sets {
    var none := Bucket([], [], None);
    var (m, k) := lib.sizing(1);
    Sets(none, none, none, Bucket([key], [1], Some(Bloom.Filter(m, k, AllPositions(lib, m, k, [key])))), multiset{}, 1)
  }

  // Whatever the library and the hash function: the listed key itself is derived, and staged derivation misses it.
  lemma StagedMissesTaproot(lib: Bloom.Library, hash160: Hash160)
    ensures var sets, pub := TaprootOnly(lib, LISTED_KEY), PubKey([], [], LISTED_KEY);
      && Indexes(lib, sets, Maps(map[], map[], map[], map[LISTED_KEY := 1])) && BloomsComplete(sets)
      && Match(lib, sets, Eager(hash160, pub, LEGACY_AND_TAPROOT), LEGACY_AND_TAPROOT) == Some(MatchTaproot)
      && Match(lib, sets, Staged(lib, hash160, pub, sets, LEGACY_AND_TAPROOT), LEGACY_AND_TAPROOT) == None
  {
    assert LISTED_KEY[0] != Zeros(32)[0];
    OneKeyMatches(lib, hash160, PubKey([], [], LISTED_KEY), LISTED_KEY);
  }

  // The all-zero key is listed, another key is derived, and staged derivation reports a taproot match.
  lemma StagedInventsTaproot(lib: Bloom.Library, hash160: Hash160)
    ensures var sets, pub := TaprootOnly(lib, Zeros(32)), PubKey([], [], LISTED_KEY);
      && Indexes(lib, sets, Maps(map[], map[], map[], map[Zeros(32) := 1])) && BloomsComplete(sets)
      && Match(lib, sets, Eager(hash160, pub, LEGACY_AND_TAPROOT), LEGACY_AND_TAPROOT) == None
      && Match(lib, sets, Staged(lib, hash160, pub, sets, LEGACY_AND_TAPROOT), LEGACY_AND_TAPROOT) == Some(MatchTaproot)
  {
    assert LISTED_KEY[0] != Zeros(32)[0];
    OneKeyMatches(lib, hash160, PubKey([], [], LISTED_KEY), Zeros(32));
  }

  lemma OneKeyMatches(lib: Bloom.Library, hash160: Hash160, pub: PubKey, key: Hash)
    ensures var sets, mask := TaprootOnly(lib, key), LEGACY_AND_TAPROOT;
      && Indexes(lib, sets, Maps(map[], map[], map[], map[key := 1])) && BloomsComplete(sets)
      && Match(lib, sets, Eager(hash160, pub, mask), mask) == (if pub.taprootKey == key then Some(MatchTaproot) else None)
      && Match(lib, sets, Staged(lib, hash160, pub, sets, mask), mask) == if key == Zeros(32) then Some(MatchTaproot) else None
  {
    hide Eager, Staged, Match, Wins, TaprootSkipped, MaybeFunded;
    var sets, mask, maps := TaprootOnly(lib, key), LEGACY_AND_TAPROOT, Maps(map[], map[], map[], map[key := 1]);
    TaprootOnlyIndexes(lib, key);
    TaprootOnlySkips(lib, hash160, pub, key);
    TaprootLookups(lib, hash160, pub, sets, maps, mask);
    MatchInOrder(lib, sets, Eager(hash160, pub, mask), mask);
    MatchInOrder(lib, sets, Staged(lib, hash160, pub, sets, mask), mask);
    LegacyMisses(lib, Eager(hash160, pub, mask), key);
    LegacyMisses(lib, Staged(lib, hash160, pub, sets, mask), key);
  }

  lemma TaprootOnlyIndexes(lib: Bloom.Library, key: Hash)
    ensures Indexes(lib, TaprootOnly(lib, key), Maps(map[], map[], map[], map[key := 1])) && BloomsComplete(TaprootOnly(lib, key))
  {
    var sets, maps := TaprootOnly(lib, key), Maps(map[], map[], map[], map[key := 1]);
    forall kind ensures BucketIndexes(lib, sets.At(kind), maps.At(kind)) {
      FilterCovers(lib, sets.At(kind).bloom, sets.At(kind).hashes);
    }
  }

  lemma TaprootOnlySkips(lib: Bloom.Library, hash160: Hash160, pub: PubKey, key: Hash)
    ensures TaprootSkipped(lib, hash160, pub, TaprootOnly(lib, key), LEGACY_AND_TAPROOT)
  {
  }

  lemma LegacyMisses(lib: Bloom.Library, keys: LookupKeys, key: Hash)
    ensures forall kind | kind != MatchTaproot :: !Wins(lib, TaprootOnly(lib, key), keys, LEGACY_AND_TAPROOT, kind)
  {
    forall kind | kind != MatchTaproot ensures !Wins(lib, TaprootOnly(lib, key), keys, LEGACY_AND_TAPROOT, kind) {
      EmptyBucketMisses(lib, TaprootOnly(lib, key).At(BucketKind(kind)), keys.KeyFor(kind));
    }
  }
}
