/** Base58 and Base58Check. The four checksum bytes come from a parameter (double SHA-256 in the program). */
module Base58 {
  import opened Common
  import opened Bytes
  import opened Numerals

  type Checksum = s: seq<byte> | |s| == 4 witness [0, 0, 0, 0]

  type Digest = seq<byte> -> Checksum

  const RADIX: base := 58
  const BYTE_RADIX: base := 256

  // ---------- alphabet: digits and letters without 0, O, I and l ----------

  function DigitChar(d: nat): char
    requires d < RADIX
  {
    if d < 9 then ('1' as int + d) as char
    else if d < 17 then ('A' as int + d - 9) as char
    else if d < 22 then ('J' as int + d - 17) as char
    else if d < 33 then ('P' as int + d - 22) as char
    else if d < 44 then ('a' as int + d - 33) as char
    else ('m' as int + d - 44) as char
  }

  function CharDigit(c: char): (d: Option<nat>)
    ensures d.Some? ==> d.value < RADIX
  {
    if '1' <= c <= '9' then Some(c as int - '1' as int)
    else if 'A' <= c <= 'H' then Some(c as int - 'A' as int + 9)
    else if 'J' <= c <= 'N' then Some(c as int - 'J' as int + 17)
    else if 'P' <= c <= 'Z' then Some(c as int - 'P' as int + 22)
    else if 'a' <= c <= 'k' then Some(c as int - 'a' as int + 33)
    else if 'm' <= c <= 'z' then Some(c as int - 'm' as int + 44)
    else None
  }

  lemma CharOfDigit(d: nat)
    requires d < RADIX
    ensures CharDigit(DigitChar(d)) == Some(d)
    ensures DigitChar(d) == '1' <==> d == 0
  {
  }

  lemma Alphabet(d: nat)
    requires d < RADIX
    ensures DigitChar(d) == ("123456789ABCDEFGHJKLMNPQRSTUV" + "WXYZabcdefghijkmnopqrstuvwxyz")[d]
  {
    if d < 29 {
      assert DigitChar(d) == "123456789ABCDEFGHJKLMNPQRSTUV"[d];
    } else {
      assert DigitChar(d) == "WXYZabcdefghijkmnopqrstuvwxyz"[d - 29];
    }
  }

  function Chars(ds: seq<nat>): (s: string)
    requires IsNumeral(ds, RADIX)
    ensures |s| == |ds|
  {
    if ds == [] then [] else [DigitChar(ds[0])] + Chars(ds[1..])
  }

  function CharDigits(s: string): (ds: Option<seq<nat>>)
    ensures ds.Some? ==> |ds.value| == |s| && IsNumeral(ds.value, RADIX)
  {
    if s == [] then Some([])
    else
      var d :- CharDigit(s[0]);
      var rest :- CharDigits(s[1..]);
      Some([d] + rest)
  }

  lemma {:induction false} CharDigitsOfChars(ds: seq<nat>)
    requires IsNumeral(ds, RADIX)
    ensures CharDigits(Chars(ds)) == Some(ds)
    ensures forall i | 0 <= i < |ds| :: (Chars(ds)[i] == '1' <==> ds[i] == 0)
    ensures forall c | c in Chars(ds) :: CharDigit(c).Some?
  {
    hide DigitChar, CharDigit, Chars;
    CharsAre(ds);
    forall c | c in Chars(ds) ensures CharDigit(c).Some? {
      var i :| 0 <= i < |ds| && Chars(ds)[i] == c;
      CharOfDigit(ds[i]);
    }
    forall i | 0 <= i < |ds| ensures Chars(ds)[i] == '1' <==> ds[i] == 0 {
      CharOfDigit(ds[i]);
    }
    DigitsReadBack(ds);
  }

  lemma {:induction false} CharsAre(ds: seq<nat>)
    requires IsNumeral(ds, RADIX)
    ensures forall i | 0 <= i < |ds| :: Chars(ds)[i] == DigitChar(ds[i])
  {
    hide DigitChar;
    if ds == [] {
    } else {
      CharsAre(ds[1..]);
    }
  }

  lemma {:induction false} DigitsReadBack(ds: seq<nat>)
    requires IsNumeral(ds, RADIX)
    ensures CharDigits(Chars(ds)) == Some(ds)
  {
    hide DigitChar, CharDigit;
    if ds == [] {
    } else {
      CharOfDigit(ds[0]);
      DigitsReadBack(ds[1..]);
      assert Chars(ds)[1..] == Chars(ds[1..]);
      assert ds == [ds[0]] + ds[1..];
    }
  }

  lemma DigitOfChar(c: char)
    ensures CharDigit(c).Some? ==> DigitChar(CharDigit(c).value) == c
  {
  }

  lemma {:induction false} CharsOfCharDigits(s: string)
    requires CharDigits(s).Some?
    ensures Chars(CharDigits(s).value) == s
  {
    hide DigitChar, CharDigit;
    if s == [] {
    } else {
      DigitOfChar(s[0]);
      CharsOfCharDigits(s[1..]);
      assert CharDigits(s).value[1..] == CharDigits(s[1..]).value;
      assert s == [s[0]] + s[1..];
    }
  }

  // ---------- Base58 ----------

  function LeadingZeros(ds: seq<nat>): (z: nat)
    ensures z <= |ds|
    ensures forall i | 0 <= i < z :: ds[i] == 0
    ensures z < |ds| ==> ds[z] != 0
  {
    if ds == [] || ds[0] != 0 then 0 else 1 + LeadingZeros(ds[1..])
  }

  // Each leading zero is kept as one leading zero; the rest is converted as one number.
  function Convert(ds: seq<nat>, source: base, target: base): seq<nat> {
    Zeros(LeadingZeros(ds)) + Digits(FromDigits(ds, source), target)
  }

  lemma ConvertNumeral(ds: seq<nat>, source: base, target: base)
    ensures IsNumeral(Convert(ds, source, target), target)
  {
    FromDigitsOfDigits(FromDigits(ds, source), target);
  }

  // Converting to another base and back returns the digits, leading zeros included.
  lemma ConvertRoundTrip(ds: seq<nat>, source: base, target: base)
    requires IsNumeral(ds, source)
    ensures Convert(Convert(ds, source, target), target, source) == ds
  {
    var z := LeadingZeros(ds);
    var tail := ds[z..];
    var n := FromDigits(ds, source);
    assert ds == Zeros(z) + tail;
    LeadingZerosIgnored(z, tail, source);
    DigitsOfFromDigits(tail, source);
    FromDigitsOfDigits(n, target);
    var other := Digits(n, target);
    LeadingZerosIgnored(z, other, target);
    LeadingZerosExact(z, other);
  }

  lemma {:induction false} LeadingZerosExact(z: nat, ds: seq<nat>)
    requires ds == [] || ds[0] != 0
    ensures LeadingZeros(Zeros(z) + ds) == z
  {
    if z == 0 {
      assert Zeros(0) + ds == ds;
    } else {
      assert (Zeros(z) + ds)[1..] == Zeros(z - 1) + ds;
      LeadingZerosExact(z - 1, ds);
    }
  }

  function EncodeBase58(b: seq<byte>): string {
    ConvertNumeral(b, BYTE_RADIX, RADIX);
    Chars(Convert(b, BYTE_RADIX, RADIX))
  }

  // Decoding yields no bytes at all when a character is outside the alphabet.
  function DecodeBase58(s: string): seq<byte> {
    match CharDigits(s)
    case None => []
    case Some(ds) =>
      ConvertNumeral(ds, RADIX, BYTE_RADIX);
      ToBytes(Convert(ds, RADIX, BYTE_RADIX))
  }

  function ToBytes(ds: seq<nat>): (b: seq<byte>)
    requires IsNumeral(ds, BYTE_RADIX)
    ensures b == ds
  {
    if ds == [] then [] else [ds[0]] + ToBytes(ds[1..])
  }

  lemma Base58RoundTrip(b: seq<byte>)
    ensures DecodeBase58(EncodeBase58(b)) == b
    ensures forall c | c in EncodeBase58(b) :: CharDigit(c).Some?
  {
    ConvertNumeral(b, BYTE_RADIX, RADIX);
    CharDigitsOfChars(Convert(b, BYTE_RADIX, RADIX));
    ConvertRoundTrip(b, BYTE_RADIX, RADIX);
  }

  // Within the alphabet every string is the encoding of what it decodes to.
  lemma EncodeOfDecode(s: string)
    requires CharDigits(s).Some?
    ensures EncodeBase58(DecodeBase58(s)) == s
  {
    var ds := CharDigits(s).value;
    ConvertNumeral(ds, RADIX, BYTE_RADIX);
    ConvertRoundTrip(ds, RADIX, BYTE_RADIX);
    CharsOfCharDigits(s);
  }

  // ---------- Base58Check ----------

  function CheckEncode(digest: Digest, payload: seq<byte>, version: byte): string {
    var b := [version] + payload;
    EncodeBase58(b + digest(b))
  }

  // The payload and the version; None on a malformed string or a wrong checksum.
  function CheckDecode(digest: Digest, s: string): Option<(seq<byte>, byte)> {
    var b := DecodeBase58(s);
    if |b| < 5 then None
    else if digest(b[..|b| - 4]) != b[|b| - 4..] then None
    else Some((b[1..|b| - 4], b[0]))
  }

  lemma CheckRoundTrip(digest: Digest, payload: seq<byte>, version: byte)
    ensures CheckDecode(digest, CheckEncode(digest, payload, version)) == Some((payload, version))
    ensures forall c | c in CheckEncode(digest, payload, version) :: CharDigit(c).Some?
  {
    hide EncodeBase58, DecodeBase58;
    var b := [version] + payload;
    var all := b + digest(b);
    Base58RoundTrip(all);
    assert all[..|all| - 4] == b && all[|all| - 4..] == digest(b);
    assert all[1..|all| - 4] == payload;
  }

  // A string is accepted with a payload and a version exactly when it is their encoding.
  lemma CheckDecodeIff(digest: Digest, s: string, payload: seq<byte>, version: byte)
    ensures CheckDecode(digest, s) == Some((payload, version)) <==> s == CheckEncode(digest, payload, version)
  {
    hide EncodeBase58, CharDigits;
    CheckRoundTrip(digest, payload, version);
    if CheckDecode(digest, s) == Some((payload, version)) {
      var b := DecodeBase58(s);
      EncodeOfDecode(s);
      assert b[..|b| - 4] == [version] + payload;
      assert b == b[..|b| - 4] + b[|b| - 4..];
    }
  }

  // ---------- first characters ----------

  lemma ScaleEight(d: nat)
    ensures Scaled(d, RADIX, 8) == 128063081718016 * d
    ensures Scaled(d, BYTE_RADIX, 8) == 18446744073709551616 * d
  {
    ScaleFour(d);
    ScaleFour(11316496 * d);
    ScaleFour(4294967296 * d);
    ScaledTwice(d, RADIX, 4, 4);
    ScaledTwice(d, BYTE_RADIX, 4, 4);
  }

  lemma ScaleFour(d: nat)
    ensures Scaled(d, RADIX, 4) == 11316496 * d
    ensures Scaled(d, BYTE_RADIX, 4) == 4294967296 * d
  {
    assert Scaled(d, RADIX, 1) == 58 * d;
    assert Scaled(d, RADIX, 2) == 58 * Scaled(d, RADIX, 1);
    assert Scaled(d, RADIX, 3) == 58 * Scaled(d, RADIX, 2);
    assert Scaled(d, BYTE_RADIX, 1) == 256 * d;
    assert Scaled(d, BYTE_RADIX, 2) == 256 * Scaled(d, BYTE_RADIX, 1);
    assert Scaled(d, BYTE_RADIX, 3) == 256 * Scaled(d, BYTE_RADIX, 2);
  }

  lemma Scale33(d: nat)
    ensures Scaled(d, RADIX, 33) == 15599970876632771988160814054146447252125923204784443097088 * d
  {
    hide Scaled;
    ScaledTwice(d, RADIX, 1, 8);
    ScaledTwice(d, RADIX, 9, 8);
    ScaledTwice(d, RADIX, 17, 8);
    ScaledTwice(d, RADIX, 25, 8);
    ScaleOne(d);
    ScaleEight(58 * d);
    ScaleEight(Scaled(d, RADIX, 9));
    ScaleEight(Scaled(d, RADIX, 17));
    ScaleEight(Scaled(d, RADIX, 25));
  }

  lemma ScaleOne(d: nat)
    ensures Scaled(d, RADIX, 1) == 58 * d
  {
    assert Scaled(d, RADIX, 0) == d;
  }

  lemma Scale24(d: nat)
    ensures Scaled(d, BYTE_RADIX, 24) == 6277101735386680763835789423207666416102355444464034512896 * d
  {
    hide Scaled;
    ScaledTwice(d, BYTE_RADIX, 8, 8);
    ScaledTwice(d, BYTE_RADIX, 16, 8);
    ScaleEight(d);
    ScaleEight(Scaled(d, BYTE_RADIX, 8));
    ScaleEight(Scaled(d, BYTE_RADIX, 16));
  }

  // A version byte 0 is a leading zero byte, so the string starts with '1'.
  lemma VersionZeroStartsWithOne(digest: Digest, payload: seq<byte>)
    ensures var s := CheckEncode(digest, payload, 0); s != [] && s[0] == '1'
  {
    var b := [0] + payload;
    var all := b + digest(b);
    assert all[0] == 0;
    ConvertNumeral(all, BYTE_RADIX, RADIX);
    var ds := Convert(all, BYTE_RADIX, RADIX);
    assert LeadingZeros(all) >= 1;
    assert ds[0] == 0;
    CharDigitsOfChars(ds);
  }

  // 2 * 58^33 <= 5 * 256^24 and 6 * 256^24 <= 3 * 58^33: every 25-byte string that starts with
  // byte 5 has 34 digits, the first of them 2, so a version-5 address starts with '3'.
  lemma VersionFiveStartsWithThree(digest: Digest, payload: seq<byte>)
    requires |payload| == 20
    ensures var s := CheckEncode(digest, payload, 5); |s| == 34 && s[0] == '3'
  {
    hide Scaled, Digits, FromDigits, CharDigit;
    var b := [5] + payload;
    var all := b + digest(b);
    assert |all| == 25 && all[0] == 5;
    ValueRange(all, BYTE_RADIX);
    Scale24(5);
    Scale24(6);
    Scale33(2);
    Scale33(3);
    LeadingDigit(FromDigits(all, BYTE_RADIX), RADIX, 2, 33);
    ConvertNumeral(all, BYTE_RADIX, RADIX);
    var ds := Convert(all, BYTE_RADIX, RADIX);
    assert LeadingZeros(all) == 0;
    assert ds == Digits(FromDigits(all, BYTE_RADIX), RADIX);
    assert Chars(ds)[0] == DigitChar(2);
  }
}
