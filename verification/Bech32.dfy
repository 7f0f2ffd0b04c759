/**
 Bech32 and Bech32m strings, as bech32.Encode, bech32.EncodeM and bech32.DecodeGeneric produce and
 read them: a human-readable part, the separator 1, the data and six characters of checksum.
 */
module Bech32 {
  import opened Common
  import opened Bits
  import opened Bech32Checksum

  // ---------- the character set ----------

  function CharOf(v: nat): char
    requires v < 32
  {
    match v
    case 0 => 'q' case 1 => 'p' case 2 => 'z' case 3 => 'r' case 4 => 'y' case 5 => '9' case 6 => 'x' case 7 => '8'
    case 8 => 'g' case 9 => 'f' case 10 => '2' case 11 => 't' case 12 => 'v' case 13 => 'd' case 14 => 'w' case 15 => '0'
    case 16 => 's' case 17 => '3' case 18 => 'j' case 19 => 'n' case 20 => '5' case 21 => '4' case 22 => 'k' case 23 => 'h'
    case 24 => 'c' case 25 => 'e' case 26 => '6' case 27 => 'm' case 28 => 'u' case 29 => 'a' case 30 => '7' case _ => 'l'
  }

  function ValueOf(c: char): (v: Option<nat>)
    ensures v.Some? ==> v.value < 32
  {
    match c
    case 'q' => Some(0) case 'p' => Some(1) case 'z' => Some(2) case 'r' => Some(3)
    case 'y' => Some(4) case '9' => Some(5) case 'x' => Some(6) case '8' => Some(7)
    case 'g' => Some(8) case 'f' => Some(9) case '2' => Some(10) case 't' => Some(11)
    case 'v' => Some(12) case 'd' => Some(13) case 'w' => Some(14) case '0' => Some(15)
    case 's' => Some(16) case '3' => Some(17) case 'j' => Some(18) case 'n' => Some(19)
    case '5' => Some(20) case '4' => Some(21) case 'k' => Some(22) case 'h' => Some(23)
    case 'c' => Some(24) case 'e' => Some(25) case '6' => Some(26) case 'm' => Some(27)
    case 'u' => Some(28) case 'a' => Some(29) case '7' => Some(30) case 'l' => Some(31)
    case _ => None
  }

  lemma Alphabet(v: nat)
    requires v < 32
    ensures CharOf(v) == "qpzry9x8gf2tvdw0s3jn54khce6mua7l"[v]
  {
    if v < 16 {
      LowLetters(v);
    } else {
      HighLetters(v);
    }
  }

  lemma LowLetters(v: nat)
    requires v < 16
    ensures CharOf(v) == "qpzry9x8gf2tvdw0s3jn54khce6mua7l"[v]
  {
  }

  lemma HighLetters(v: nat)
    requires 16 <= v < 32
    ensures CharOf(v) == "qpzry9x8gf2tvdw0s3jn54khce6mua7l"[v]
  {
  }

  predicate IsUpper(c: char) { 'A' <= c <= 'Z' }
  predicate IsLower(c: char) { 'a' <= c <= 'z' }

  lemma CharsInvert(v: nat)
    requires v < 32
    ensures ValueOf(CharOf(v)) == Some(v)
    ensures CharOf(v) != '1' && !IsUpper(CharOf(v)) && '!' <= CharOf(v) <= '~' && CharOf(v) != '\t'
  {
  }

  lemma ValuesInvert(c: char)
    ensures ValueOf(c).Some? ==> CharOf(ValueOf(c).value) == c
  {
  }

  function GroupChar(g: bits): char
    requires |g| == 5
  {
    FromNatOfToNat(g);
    TwoToEight();
    CharOf(ToNat(g))
  }

  function Text(groups: seq<bits>): (s: string)
    requires AllWide(groups, 5)
    ensures |s| == |groups|
  {
    if groups == [] then [] else [GroupChar(groups[0])] + Text(groups[1..])
  }

  function Groups(s: string): (groups: Option<seq<bits>>)
    ensures groups.Some? ==> |groups.value| == |s| && AllWide(groups.value, 5)
  {
    if s == [] then Some([])
    else
      var v :- ValueOf(s[0]);
      var rest :- Groups(s[1..]);
      Some([FromNat(v, 5)] + rest)
  }

  predicate Plain(c: char) {
    c != '1' && !IsUpper(c) && '!' <= c <= '~'
  }

  lemma {:induction false} GroupsOfText(groups: seq<bits>)
    requires AllWide(groups, 5)
    ensures Groups(Text(groups)) == Some(groups)
    ensures forall c | c in Text(groups) :: Plain(c)
  {
    hide CharOf, ValueOf, ToNat, FromNat;
    if groups == [] {
    } else {
      var g := groups[0];
      FromNatOfToNat(g);
      TwoToEight();
      CharsInvert(ToNat(g));
      GroupsOfText(groups[1..]);
      var rest := Text(groups[1..]);
      assert Text(groups) == [GroupChar(g)] + rest;
      assert Text(groups)[1..] == rest;
      assert groups == [g] + groups[1..];
    }
  }

  lemma {:induction false} TextOfGroups(s: string)
    requires Groups(s).Some?
    ensures Text(Groups(s).value) == s
  {
    hide CharOf, ValueOf, ToNat, FromNat;
    if s == [] {
    } else {
      var v := ValueOf(s[0]).value;
      ValuesInvert(s[0]);
      TwoToEight();
      ToNatOfFromNat(v, 5);
      TextOfGroups(s[1..]);
      assert Groups(s).value[1..] == Groups(s[1..]).value;
      assert s == [s[0]] + s[1..];
    }
  }

  lemma {:induction false} TextConcat(a: seq<bits>, b: seq<bits>)
    requires AllWide(a, 5) && AllWide(b, 5)
    ensures AllWide(a + b, 5) && Text(a + b) == Text(a) + Text(b)
  {
    if a == [] {
      assert a + b == b;
    } else {
      TextConcat(a[1..], b);
      assert (a + b)[1..] == a[1..] + b;
      assert Text(a + b) == [GroupChar(a[0])] + (Text(a[1..]) + Text(b));
    }
  }

  function Lower(c: char): char {
    if IsUpper(c) then (c as int + 32) as char else c
  }

  function ToLower(s: string): (t: string)
    ensures |t| == |s|
  {
    seq(|s|, i requires 0 <= i < |s| => Lower(s[i]))
  }

  lemma ToLowerKeeps(s: string)
    requires forall c | c in s :: !IsUpper(c)
    ensures ToLower(s) == s
  {
    forall i | 0 <= i < |s| ensures ToLower(s)[i] == s[i] {
      assert s[i] in s;
    }
  }

  // Index of the last separator, -1 when there is none.
  function LastSeparator(s: string): (one: int)
    ensures -1 <= one < |s|
    ensures one >= 0 ==> s[one] == '1'
    ensures forall i | one < i < |s| :: s[i] != '1'
  {
    if s == [] then -1
    else if s[|s| - 1] == '1' then |s| - 1
    else LastSeparator(s[..|s| - 1])
  }

  function Encode(prefix: string, data: seq<bits>, version: Version): string
    requires AllWide(data, 5)
  {
    var hrp := ToLower(prefix);
    hrp + "1" + Text(data) + Text(ChecksumOf(hrp, data, version))
  }

  datatype Decoded = Decoded(hrp: string, data: seq<bits>, version: Version)

  // The tests made before the string is taken apart: length, characters, no mixed case.
  predicate Acceptable(text: string) {
    && 8 <= |text| <= 90
    && (forall c | c in text :: '!' <= c <= '~')
    && ((forall c | c in text :: !IsLower(c)) || (forall c | c in text :: !IsUpper(c)))
  }

  function TakeApart(s: string): (d: Option<Decoded>)
    ensures d.Some? ==> AllWide(d.value.data, 5)
  {
    var one := LastSeparator(s);
    if one < 1 || one + 7 > |s| then None
    else
      var values :- Groups(s[one + 1..]);
      var version :- VerifiedVersion(s[..one], values);
      Some(Decoded(s[..one], values[..|values| - 6], version))
  }

  function DecodeGeneric(text: string): (d: Option<Decoded>)
    ensures d.Some? ==> AllWide(d.value.data, 5)
  {
    if Acceptable(text) then TakeApart(ToLower(text)) else None
  }

  // A human-readable part that survives: not empty, printable and without capitals.
  predicate IsPrefix(hrp: string) {
    hrp != [] && forall c | c in hrp :: '!' <= c <= '~' && !IsUpper(c)
  }

  lemma TakeApartEncoded(hrp: string, groups: seq<bits>, data: seq<bits>, version: Version)
    requires hrp != [] && AllWide(data, 5) && groups == data + ChecksumOf(hrp, data, version)
    ensures TakeApart(hrp + "1" + Text(groups)) == Some(Decoded(hrp, data, version))
  {
    hide Text, Groups, VerifiedVersion, ChecksumOf;
    var s := hrp + "1" + Text(groups);
    GroupsOfText(groups);
    forall i | |hrp| < i < |s| ensures s[i] != '1' {
      assert s[i] == Text(groups)[i - |hrp| - 1];
      assert Plain(s[i]);
    }
    assert s[|hrp|] == '1';
    assert LastSeparator(s) == |hrp|;
    assert s[..|hrp|] == hrp && s[|hrp| + 1..] == Text(groups);
    ChecksumVerifies(hrp, data, version);
    assert groups[..|groups| - 6] == data;
  }

  // Encoding is undone by decoding exactly when the string stays within 90 characters.
  lemma DecodeOfEncode(hrp: string, data: seq<bits>, version: Version)
    requires IsPrefix(hrp) && AllWide(data, 5)
    ensures DecodeGeneric(Encode(hrp, data, version))
         == if |hrp| + |data| <= 83 then Some(Decoded(hrp, data, version)) else None
  {
    hide Text, TakeApart, ChecksumOf, IsLower, IsUpper;
    var six := ChecksumOf(hrp, data, version);
    TextConcat(data, six);
    GroupsOfText(data + six);
    var s := hrp + "1" + Text(data + six);
    ToLowerKeeps(hrp);
    assert Encode(hrp, data, version) == s;
    SeparatorIsPlain();
    ToLowerKeeps(s);
    TakeApartEncoded(hrp, data + six, data, version);
  }

  lemma SeparatorIsPlain()
    ensures !IsUpper('1')
  {
  }

  // A decoded string without capitals is the encoding of what it decodes to.
  lemma EncodeOfDecode(text: string)
    requires DecodeGeneric(text).Some? && forall c | c in text :: !IsUpper(c)
    ensures var d := DecodeGeneric(text).value; Encode(d.hrp, d.data, d.version) == text
  {
    hide Text, Groups, VerifiedVersion, ChecksumOf, IsLower, Acceptable, IsUpper, ToLower;
    ToLowerKeeps(text);
    var d := DecodeGeneric(text).value;
    var one := LastSeparator(text);
    var values := Groups(text[one + 1..]).value;
    var six := values[|values| - 6..];
    TextOfGroups(text[one + 1..]);
    assert values == d.data + six;
    ChecksumUnique(d.hrp, d.data, six, d.version);
    TextConcat(d.data, six);
    ToLowerKeeps(d.hrp);
    assert text == text[..one] + "1" + text[one + 1..];
  }
}
