/**
 Address strings: the printer (bitcoin/encode.go) and the lightweight parser used when the
 table is loaded (bitcoin/decode.go).
 */
module Address {
  import opened Common
  import opened Bytes
  import opened Bitcoin
  import opened Bits
  import Base58
  import Bech32
  import opened Bech32Checksum

  const MAINNET_HRP: string := "bc"

  // ---------- printing ----------

  // The five-bit groups of a witness version followed by those of its program.
  function WitnessData(witnessVersion: nat, program: seq<byte>): (data: seq<bits>)
    ensures AllWide(data, 5)
  {
    [FromNat(witnessVersion, 5)] + ToFives(program)
  }

  function SegWitAddress(hrp: string, witnessVersion: nat, program: seq<byte>): Option<string> {
    match witnessVersion
    case 0 => Some(Bech32.Encode(hrp, WitnessData(0, program), Version0))
    case 1 => Some(Bech32.Encode(hrp, WitnessData(1, program), VersionM))
    case _ => None
  }

  method EncodeSegWitAddress(hrp: string, witnessVersion: nat, program: seq<byte>) returns (address: Option<string>)
    ensures address == SegWitAddress(hrp, witnessVersion, program)
  {
    var converted := ToFives(program);
    var combined := new bits[|converted| + 1];
    combined[0] := FromNat(witnessVersion, 5);
    forall i | 0 <= i < |converted| {
      combined[i + 1] := converted[i];
    }
    assert combined[..] == WitnessData(witnessVersion, program);
    match witnessVersion
    case 0 => address := Some(Bech32.Encode(hrp, combined[..], Version0));
    case 1 => address := Some(Bech32.Encode(hrp, combined[..], VersionM));
    case _ => address := None;
  }

  function EncodeAddress(digest: Base58.Digest, kind: AddressKind, hash: Hash): string {
    match kind
    case KindLegacy => Base58.CheckEncode(digest, hash, 0)
    case KindP2SH => Base58.CheckEncode(digest, hash, 5)
    case KindSegwitV0 => SegWitAddress(MAINNET_HRP, 0, hash).value
    case KindTaprootV1 => SegWitAddress(MAINNET_HRP, 1, hash).value
  }

  function EncodeMatchAddress(digest: Base58.Digest, kind: MatchKind, keys: LookupKeys): string {
    match kind
    case MatchLegacyCompressed => EncodeAddress(digest, KindLegacy, keys.compressedHash)
    case MatchLegacyUncompressed => EncodeAddress(digest, KindLegacy, keys.uncompressedHash)
    case MatchSegwitV0 => EncodeAddress(digest, KindSegwitV0, keys.compressedHash)
    case MatchP2SH => EncodeAddress(digest, KindP2SH, keys.p2shHash)
    case MatchTaproot => EncodeAddress(digest, KindTaprootV1, keys.taprootKey)
  }

  lemma MatchAddressIs(digest: Base58.Digest, kind: MatchKind, keys: LookupKeys)
    ensures EncodeMatchAddress(digest, kind, keys) == EncodeAddress(digest, BucketKind(kind), keys.KeyFor(kind))
  {
  }

  // ---------- parsing ----------

  function DecodeFundedAddressForLoad(digest: Base58.Digest, addr: string): Option<(AddressKind, Hash)> {
    if addr == [] then None
    else if addr[0] == '1' then
      var (payload, version) :- Base58.CheckDecode(digest, addr);
      if version != 0 || |payload| != 20 then None else Some((KindLegacy, payload))
    else if addr[0] == '3' then
      var (payload, version) :- Base58.CheckDecode(digest, addr);
      if version != 5 || |payload| != 20 then None else Some((KindP2SH, payload))
    else if "bc1" <= addr then DecodeBech32ForLoad(addr)
    else None
  }

  function DecodeBech32ForLoad(addr: string): Option<(AddressKind, Hash)> {
    var decoded :- Bech32.DecodeGeneric(addr);
    if decoded.hrp != MAINNET_HRP || decoded.data == [] then None
    else
      var program :- FromFives(decoded.data[1..]);
      var witnessVersion := ToNat(decoded.data[0]);
      if witnessVersion == 0 && |program| == 20 && decoded.version == Version0 then Some((KindSegwitV0, program))
      else if witnessVersion == 1 && |program| == 32 && decoded.version == VersionM then Some((KindTaprootV1, program))
      else None
  }

  // ---------- the two undo each other ----------

  // A Bech32 string over the mainnet prefix, for any witness version below 32 and either checksum.
  lemma DecodeWitness(witnessVersion: nat, program: seq<byte>, version: Version)
    requires witnessVersion < 32
    ensures DecodeBech32ForLoad(Bech32.Encode(MAINNET_HRP, WitnessData(witnessVersion, program), version))
         == if witnessVersion == 0 && |program| == 20 && version == Version0 then Some((KindSegwitV0, program))
            else if witnessVersion == 1 && |program| == 32 && version == VersionM then Some((KindTaprootV1, program))
            else None
  {
    hide FromNat, ToNat, ToFives, FromFives, Bech32.Encode, Bech32.DecodeGeneric;
    var data := WitnessData(witnessVersion, program);
    FivesRoundTrip(program);
    Bech32.DecodeOfEncode(MAINNET_HRP, data, version);
    assert data[1..] == ToFives(program);
    TwoToEight();
    ToNatOfFromNat(witnessVersion, 5);
  }

  lemma MainnetPrefix(data: seq<bits>, version: Version)
    requires AllWide(data, 5)
    ensures "bc1" <= Bech32.Encode(MAINNET_HRP, data, version)
    ensures forall c | c in Bech32.Encode(MAINNET_HRP, data, version) :: c != '\t'
  {
    hide ChecksumOf, Bech32.Text;
    Bech32.ToLowerKeeps(MAINNET_HRP);
    Bech32.GroupsOfText(data);
    Bech32.GroupsOfText(ChecksumOf(MAINNET_HRP, data, version));
  }

  // What the Bech32 branch accepts is the encoding of what it returns.
  lemma WitnessCanonical(addr: string, kind: AddressKind, hash: Hash)
    requires "bc1" <= addr && DecodeBech32ForLoad(addr) == Some((kind, hash))
    ensures |hash| == Width(kind) && !kind.KindLegacy? && !kind.KindP2SH?
    ensures addr == Bech32.Encode(MAINNET_HRP, WitnessData(if kind.KindTaprootV1? then 1 else 0, hash),
                                  if kind.KindTaprootV1? then VersionM else Version0)
  {
    hide FromNat, ToNat, ToFives, FromFives, Bech32.Encode, Bech32.TakeApart;
    var decoded := Bech32.DecodeGeneric(addr).value;
    NoCapitals(addr);
    Bech32.EncodeOfDecode(addr);
    FromFivesIff(decoded.data[1..], hash);
    FromNatOfToNat(decoded.data[0]);
    assert decoded.data == [decoded.data[0]] + decoded.data[1..];
  }

  lemma NoCapitals(addr: string)
    requires "bc1" <= addr && Bech32.Acceptable(addr)
    ensures forall c | c in addr :: !Bech32.IsUpper(c)
  {
    assert addr[0] == 'b' && addr[0] in addr;
    assert Bech32.IsLower(addr[0]);
  }

  // The parser accepts exactly the strings the printer produces: an address string stands for one kind
  // and one hash of that kind's width, and for nothing else.
  lemma AddressIff(digest: Base58.Digest, addr: string, kind: AddressKind, hash: Hash)
    ensures DecodeFundedAddressForLoad(digest, addr) == Some((kind, hash))
       <==> |hash| == Width(kind) && addr == EncodeAddress(digest, kind, hash)
  {
    hide Base58.CheckDecode, Base58.CheckEncode, DecodeBech32ForLoad, WitnessData;
    if |hash| == Width(kind) && addr == EncodeAddress(digest, kind, hash) {
      EncodedIsDecoded(digest, kind, hash);
    }
    if DecodeFundedAddressForLoad(digest, addr) == Some((kind, hash)) {
      if addr[0] == '1' {
        var got := Base58.CheckDecode(digest, addr).value;
        assert got == (got.0, got.1);
        Base58.CheckDecodeIff(digest, addr, hash, 0);
      } else if addr[0] == '3' {
        var got := Base58.CheckDecode(digest, addr).value;
        assert got == (got.0, got.1);
        Base58.CheckDecodeIff(digest, addr, hash, 5);
      } else {
        WitnessCanonical(addr, kind, hash);
      }
    }
  }

  lemma EncodedIsDecoded(digest: Base58.Digest, kind: AddressKind, hash: Hash)
    requires |hash| == Width(kind)
    ensures DecodeFundedAddressForLoad(digest, EncodeAddress(digest, kind, hash)) == Some((kind, hash))
  {
    hide Base58.CheckDecode, Base58.CheckEncode, DecodeBech32ForLoad, WitnessData, Bech32.Encode;
    match kind
    case KindLegacy =>
      Base58.VersionZeroStartsWithOne(digest, hash);
      Base58.CheckRoundTrip(digest, hash, 0);
    case KindP2SH =>
      Base58.VersionFiveStartsWithThree(digest, hash);
      Base58.CheckRoundTrip(digest, hash, 5);
    case KindSegwitV0 =>
      MainnetPrefix(WitnessData(0, hash), Version0);
      DecodeWitness(0, hash, Version0);
    case KindTaprootV1 =>
      MainnetPrefix(WitnessData(1, hash), VersionM);
      DecodeWitness(1, hash, VersionM);
  }

  // Different kinds or hashes never share an address string.
  lemma AddressInjective(digest: Base58.Digest, kind: AddressKind, hash: Hash, kind2: AddressKind, hash2: Hash)
    requires |hash| == Width(kind) && |hash2| == Width(kind2)
    requires EncodeAddress(digest, kind, hash) == EncodeAddress(digest, kind2, hash2)
    ensures kind == kind2 && hash == hash2
  {
    hide DecodeFundedAddressForLoad, EncodeAddress;
    AddressIff(digest, EncodeAddress(digest, kind, hash), kind, hash);
    AddressIff(digest, EncodeAddress(digest, kind2, hash2), kind2, hash2);
  }

  // The address printed for a match parses back to the bucket and the key that were looked up.
  lemma MatchAddressDecodes(digest: Base58.Digest, kind: MatchKind, keys: LookupKeys)
    requires keys.Sized()
    ensures DecodeFundedAddressForLoad(digest, EncodeMatchAddress(digest, kind, keys))
         == Some((BucketKind(kind), keys.KeyFor(kind)))
  {
    hide DecodeFundedAddressForLoad, EncodeAddress;
    AddressIff(digest, EncodeMatchAddress(digest, kind, keys), BucketKind(kind), keys.KeyFor(kind));
  }

  // Witness version 0 under a Bech32m checksum and version 1 under a Bech32 checksum are refused.
  lemma WrongChecksumRefused(digest: Base58.Digest, witnessVersion: nat, program: seq<byte>)
    requires witnessVersion < 2
    ensures DecodeFundedAddressForLoad(digest, Bech32.Encode(MAINNET_HRP, WitnessData(witnessVersion, program),
              if witnessVersion == 0 then VersionM else Version0)) == None
  {
    hide DecodeBech32ForLoad, WitnessData, Bech32.Encode;
    var version := if witnessVersion == 0 then VersionM else Version0;
    MainnetPrefix(WitnessData(witnessVersion, program), version);
    DecodeWitness(witnessVersion, program, version);
  }

  // No address contains the tab that ends the address column of the table.
  lemma NoTab(digest: Base58.Digest, kind: AddressKind, hash: Hash)
    ensures '\t' !in EncodeAddress(digest, kind, hash)
  {
    hide Base58.CheckDecode, Base58.CheckEncode, WitnessData, Bech32.Encode;
    match kind
    case KindLegacy => Base58.CheckRoundTrip(digest, hash, 0);
    case KindP2SH => Base58.CheckRoundTrip(digest, hash, 5);
    case KindSegwitV0 => MainnetPrefix(WitnessData(0, hash), Version0);
    case KindTaprootV1 => MainnetPrefix(WitnessData(1, hash), VersionM);
  }
}
