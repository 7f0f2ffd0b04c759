/** The value types of package bitcoin: address kinds, match kinds, format masks and lookup keys. */
module Bitcoin {
  import opened Bytes

  datatype AddressKind = KindLegacy | KindP2SH | KindSegwitV0 | KindTaprootV1

  // Length of the hash that an address of this kind carries.
  function Width(kind: AddressKind): nat {
    if kind.KindTaprootV1? then 32 else 20
  }

  datatype MatchKind =
    | MatchLegacyCompressed
    | MatchLegacyUncompressed
    | MatchSegwitV0
    | MatchP2SH
    | MatchTaproot

  datatype FormatMask = FormatMask(
    legacyCompressed: bool,
    legacyUncompressed: bool,
    segwit: bool,
    p2sh: bool,
    taproot: bool)
  {
    predicate Enabled(kind: MatchKind) {
      match kind
      case MatchLegacyCompressed => legacyCompressed
      case MatchLegacyUncompressed => legacyUncompressed
      case MatchSegwitV0 => segwit
      case MatchP2SH => p2sh
      case MatchTaproot => taproot
    }

    predicate NeedsCompressedPubkeyHash() {
      legacyCompressed || segwit || p2sh
    }
  }

  datatype LookupKeys = LookupKeys(
    compressedHash: Hash,
    uncompressedHash: Hash,
    p2shHash: Hash,
    taprootKey: Hash)
  {
    // The key that is looked up for a match of this kind.
    function KeyFor(kind: MatchKind): Hash {
      match kind
      case MatchLegacyCompressed => compressedHash
      case MatchLegacyUncompressed => uncompressedHash
      case MatchSegwitV0 => compressedHash
      case MatchP2SH => p2shHash
      case MatchTaproot => taprootKey
    }

    // The fields are fixed-size arrays: [20]byte and [32]byte.
    predicate Sized() {
      |compressedHash| == 20 && |uncompressedHash| == 20 && |p2shHash| == 20 && |taprootKey| == 32
    }
  }

  // The zero value of the struct.
  const NO_KEYS := LookupKeys(Zeros(20), Zeros(20), Zeros(20), Zeros(32))

  // The address kind whose bucket a match kind is looked up in.
  function BucketKind(kind: MatchKind): AddressKind {
    match kind
    case MatchLegacyCompressed => KindLegacy
    case MatchLegacyUncompressed => KindLegacy
    case MatchSegwitV0 => KindSegwitV0
    case MatchP2SH => KindP2SH
    case MatchTaproot => KindTaprootV1
  }

  // Position of a kind in the fixed lookup order.
  function Rank(kind: MatchKind): nat {
    match kind
    case MatchLegacyCompressed => 0
    case MatchLegacyUncompressed => 1
    case MatchSegwitV0 => 2
    case MatchP2SH => 3
    case MatchTaproot => 4
  }
}
