/**
 The checksum of Bech32 and Bech32m (BIP-173 and BIP-350). It works on polynomials over GF(2),
 written here as strings of 30 bits with exclusive or.
 */
module Bech32Checksum {
  import opened Common
  import opened Bits

  datatype Version = Version0 | VersionM

  // ---------- the checksum polynomial ----------

  function Xor(a: bits, b: bits): (c: bits)
    requires |a| == |b|
    ensures |c| == |a|
    ensures forall i | 0 <= i < |a| :: c[i] == (a[i] != b[i])
  {
    seq(|a|, i requires 0 <= i < |a| => a[i] != b[i])
  }

  // The five generator constants.
  function Generator(i: nat): (g: bits)
    requires i < 5
    ensures |g| == 30
  {
    FromNat(if i == 0 then 0x3b6a57b2 else if i == 1 then 0x26508e6d else if i == 2 then 0x1ea119fa
            else if i == 3 then 0x3d4233dd else 0x2a1462b3, 30)
  }

  // Bit k of the five generators.
  function Column(k: nat): (g: bits)
    requires k < 30
    ensures |g| == 5
  {
    [Generator(0)[k], Generator(1)[k], Generator(2)[k], Generator(3)[k], Generator(4)[k]]
  }

  // The sum of the bits that five switches select; generator i belongs to switch 4 - i.
  predicate Mixed(top: bits, g: bits)
    requires |top| == |g| == 5
  {
    (top[4] && g[0]) != ((top[3] && g[1]) != ((top[2] && g[2]) != ((top[1] && g[3]) != (top[0] && g[4]))))
  }

  // The sum of the generators that the five top bits select.
  function Selection(top: bits): (g: bits)
    requires |top| == 5
    ensures |g| == 30
    ensures forall k | 0 <= k < 30 :: g[k] == Mixed(top, Column(k))
  {
    seq(30, k requires 0 <= k < 30 => Mixed(top, Column(k)))
  }

  // One value of five bits is shifted in.
  function StepOne(chk: bits, v: bits): (next: bits)
    requires |chk| == 30 && |v| == 5
    ensures |next| == 30
  {
    Xor(chk[5..] + v, Selection(chk[..5]))
  }

  function Run(chk: bits, values: seq<bits>): (next: bits)
    requires |chk| == 30 && AllWide(values, 5)
    ensures |next| == 30
  {
    if values == [] then chk else StepOne(Run(chk, values[..|values| - 1]), values[|values| - 1])
  }

  // The human-readable part enters as its high bits, a zero and its low bits.
  function ExpandPrefix(hrp: string): (values: seq<bits>)
    ensures AllWide(values, 5)
  {
    seq(|hrp|, i requires 0 <= i < |hrp| => FromNat(hrp[i] as int / 32, 5))
    + [FromNat(0, 5)]
    + seq(|hrp|, i requires 0 <= i < |hrp| => FromNat(hrp[i] as int % 32, 5))
  }

  const ZEROS: seq<bits> := [Falses(5), Falses(5), Falses(5), Falses(5), Falses(5), Falses(5)]

  function Constant(version: Version): (c: bits)
    ensures |c| == 30
  {
    FromNat(if version.Version0? then 1 else 0x2bc830a3, 30)
  }

  function Polymod(hrp: string, values: seq<bits>): (chk: bits)
    requires AllWide(values, 5)
    ensures |chk| == 30
  {
    Run(FromNat(1, 30), ExpandPrefix(hrp) + values)
  }

  function SixGroups(c: bits): (groups: seq<bits>)
    requires |c| == 30
    ensures |groups| == 6 && AllWide(groups, 5)
  {
    [c[0..5], c[5..10], c[10..15], c[15..20], c[20..25], c[25..30]]
  }

  function ChecksumOf(hrp: string, data: seq<bits>, version: Version): (groups: seq<bits>)
    requires AllWide(data, 5)
    ensures |groups| == 6 && AllWide(groups, 5)
  {
    SixGroups(Xor(Polymod(hrp, data + ZEROS), Constant(version)))
  }

  // The version whose constant the polynomial leaves, if any.
  function VerifiedVersion(hrp: string, values: seq<bits>): Option<Version>
    requires AllWide(values, 5)
  {
    var chk := Polymod(hrp, values);
    if chk == Constant(Version0) then Some(Version0)
    else if chk == Constant(VersionM) then Some(VersionM)
    else None
  }

  // ---------- the checksum verifies ----------

  lemma MixedLinear(a: bits, b: bits, g: bits)
    requires |a| == |b| == |g| == 5
    ensures Mixed(Xor(a, b), g) == (Mixed(a, g) != Mixed(b, g))
  {
  }

  lemma SelectionLinear(a: bits, b: bits)
    requires |a| == |b| == 5
    ensures Selection(Xor(a, b)) == Xor(Selection(a), Selection(b))
  {
    hide Mixed, Column;
    forall k | 0 <= k < 30 ensures Selection(Xor(a, b))[k] == Xor(Selection(a), Selection(b))[k] {
      MixedLinear(a, b, Column(k));
    }
  }

  lemma StepLinear(s: bits, t: bits, v: bits, w: bits)
    requires |s| == |t| == 30 && |v| == |w| == 5
    ensures StepOne(Xor(s, t), Xor(v, w)) == Xor(StepOne(s, v), StepOne(t, w))
  {
    hide Mixed, Column;
    var x := Xor(s, t);
    assert x[..5] == Xor(s[..5], t[..5]);
    SelectionLinear(s[..5], t[..5]);
    assert x[5..] + Xor(v, w) == Xor(s[5..] + v, t[5..] + w);
  }

  function XorAll(a: seq<bits>, b: seq<bits>): (c: seq<bits>)
    requires |a| == |b| && AllWide(a, 5) && AllWide(b, 5)
    ensures |c| == |a| && AllWide(c, 5)
  {
    seq(|a|, i requires 0 <= i < |a| => Xor(a[i], b[i]))
  }

  lemma {:induction false} RunLinear(s: bits, t: bits, a: seq<bits>, b: seq<bits>)
    requires |s| == |t| == 30 && |a| == |b| && AllWide(a, 5) && AllWide(b, 5)
    ensures Run(Xor(s, t), XorAll(a, b)) == Xor(Run(s, a), Run(t, b))
  {
    hide StepOne, Xor;
    if a == [] {
    } else {
      var n := |a| - 1;
      assert XorAll(a, b)[..n] == XorAll(a[..n], b[..n]);
      RunLinear(s, t, a[..n], b[..n]);
      StepLinear(Run(s, a[..n]), Run(t, b[..n]), a[n], b[n]);
    }
  }

  lemma {:induction false} RunConcat(chk: bits, a: seq<bits>, b: seq<bits>)
    requires |chk| == 30 && AllWide(a, 5) && AllWide(b, 5)
    ensures AllWide(a + b, 5) && Run(chk, a + b) == Run(Run(chk, a), b)
  {
    hide StepOne;
    if b == [] {
      assert a + b == a;
    } else {
      assert (a + b)[..|a + b| - 1] == a + b[..|b| - 1];
      RunConcat(chk, a, b[..|b| - 1]);
    }
  }

  // As long as the top five bits are zero, a step only shifts.
  lemma ShiftOnly(chk: bits, v: bits)
    requires |chk| == 30 && |v| == 5 && chk[..5] == Falses(5)
    ensures StepOne(chk, v) == chk[5..] + v
  {
    hide Column;
    var g := Selection(chk[..5]);
    forall k | 0 <= k < 30 ensures !g[k] {
      assert g[k] == Mixed(chk[..5], Column(k));
    }
  }

  // Six groups fed into the zero state come out as the state itself.
  lemma RunSixGroups(c: bits)
    requires |c| == 30
    ensures Run(Falses(30), SixGroups(c)) == c
  {
    hide StepOne;
    RunPrefix(c, 6);
    assert SixGroups(c)[..6] == SixGroups(c);
    assert Falses(0) + c[..30] == c;
  }

  lemma {:induction false} RunPrefix(c: bits, k: nat)
    requires |c| == 30 && k <= 6
    ensures Run(Falses(30), SixGroups(c)[..k]) == Falses(30 - 5 * k) + c[..5 * k]
  {
    hide StepOne;
    var groups := SixGroups(c);
    if k == 0 {
      assert Falses(30) + c[..0] == Falses(30);
    } else {
      RunPrefix(c, k - 1);
      var before := Falses(30 - 5 * (k - 1)) + c[..5 * (k - 1)];
      assert groups[..k][..k - 1] == groups[..k - 1];
      assert groups[k - 1] == c[5 * (k - 1)..5 * k];
      ShiftOnly(before, groups[k - 1]);
      assert before[5..] + groups[k - 1] == Falses(30 - 5 * k) + c[..5 * k];
    }
  }

  lemma XorZero(a: bits)
    ensures Xor(a, Falses(|a|)) == a && Xor(Falses(|a|), a) == a
  {
  }

  lemma XorCancels(a: bits, b: bits)
    requires |a| == |b|
    ensures Xor(a, Xor(a, b)) == b
  {
  }

  // Replacing the six zero groups by the groups of c adds c to the remainder.
  lemma ChecksumAdds(s: bits, c: bits)
    requires |s| == |c| == 30
    ensures Run(s, SixGroups(c)) == Xor(Run(s, ZEROS), c)
  {
    hide Run, Xor, StepOne;
    RunLinear(s, Falses(30), ZEROS, SixGroups(c));
    RunSixGroups(c);
    XorZero(s);
    forall i | 0 <= i < 6 ensures XorAll(ZEROS, SixGroups(c))[i] == SixGroups(c)[i] {
      XorZero(SixGroups(c)[i]);
    }
    assert XorAll(ZEROS, SixGroups(c)) == SixGroups(c);
  }

  // The checksum of every prefix, data and version verifies, and as no other version.
  lemma ChecksumVerifies(hrp: string, data: seq<bits>, version: Version)
    requires AllWide(data, 5)
    ensures VerifiedVersion(hrp, data + ChecksumOf(hrp, data, version)) == Some(version)
  {
    hide Run, Xor, ExpandPrefix, SixGroups, FromNat;
    var start, front := FromNat(1, 30), ExpandPrefix(hrp) + data;
    var s := Run(start, front);
    var p := Polymod(hrp, data + ZEROS);
    var c := Xor(p, Constant(version));
    assert ExpandPrefix(hrp) + (data + ZEROS) == front + ZEROS;
    assert ExpandPrefix(hrp) + (data + SixGroups(c)) == front + SixGroups(c);
    RunConcat(start, front, ZEROS);
    RunConcat(start, front, SixGroups(c));
    ChecksumAdds(s, c);
    XorCancels(p, Constant(version));
    ConstantsDiffer();
  }

  // Which constant belongs to which version: BIP-173 leaves 1, BIP-350 leaves 0x2bc830a3.
  lemma ChecksumResidue(hrp: string, data: seq<bits>)
    requires AllWide(data, 5)
    ensures ToNat(Polymod(hrp, data + ChecksumOf(hrp, data, Version0))) == 1
    ensures ToNat(Polymod(hrp, data + ChecksumOf(hrp, data, VersionM))) == 0x2bc830a3
  {
    hide FromNat, ToNat, Polymod, ChecksumOf;
    ChecksumVerifies(hrp, data, Version0);
    ChecksumVerifies(hrp, data, VersionM);
    ThirtyBits();
    ToNatOfFromNat(1, 30);
    ToNatOfFromNat(0x2bc830a3, 30);
  }

  // Six groups of five bits as one string of 30 bits.
  function Joined(six: seq<bits>): (c: bits)
    requires |six| == 6 && AllWide(six, 5)
    ensures |c| == 30 && SixGroups(c) == six
  {
    var c := six[0] + six[1] + six[2] + six[3] + six[4] + six[5];
    assert c[0..5] == six[0] && c[5..10] == six[1] && c[10..15] == six[2];
    assert c[15..20] == six[3] && c[20..25] == six[4] && c[25..30] == six[5];
    c
  }

  // The checksum is the only six groups that verify.
  lemma ChecksumUnique(hrp: string, data: seq<bits>, six: seq<bits>, version: Version)
    requires AllWide(data, 5) && |six| == 6 && AllWide(six, 5)
    ensures VerifiedVersion(hrp, data + six) == Some(version) <==> six == ChecksumOf(hrp, data, version)
  {
    hide Run, Xor, ExpandPrefix, SixGroups, FromNat, Joined;
    ChecksumVerifies(hrp, data, version);
    if VerifiedVersion(hrp, data + six) == Some(version) {
      var start, front := FromNat(1, 30), ExpandPrefix(hrp) + data;
      var c := Joined(six);
      var p := Polymod(hrp, data + ZEROS);
      assert ExpandPrefix(hrp) + (data + ZEROS) == front + ZEROS;
      assert ExpandPrefix(hrp) + (data + six) == front + SixGroups(c);
      RunConcat(start, front, ZEROS);
      RunConcat(start, front, SixGroups(c));
      ChecksumAdds(Run(start, front), c);
      assert Xor(p, c) == Constant(version);
      XorCancels(p, c);
    }
  }

  lemma ConstantsDiffer()
    ensures Constant(Version0) != Constant(VersionM)
  {
    hide FromNat, ToNat;
    ThirtyBits();
    ToNatOfFromNat(1, 30);
    ToNatOfFromNat(0x2bc830a3, 30);
  }

  lemma ThirtyBits()
    ensures TwoTo(30) == 0x4000_0000
  {
    assert TwoTo(5) == 2 * (2 * (2 * (2 * (2 * TwoTo(0)))));
    assert TwoTo(10) == 2 * (2 * (2 * (2 * (2 * TwoTo(5)))));
    assert TwoTo(15) == 2 * (2 * (2 * (2 * (2 * TwoTo(10)))));
    assert TwoTo(20) == 2 * (2 * (2 * (2 * (2 * TwoTo(15)))));
    assert TwoTo(25) == 2 * (2 * (2 * (2 * (2 * TwoTo(20)))));
    assert TwoTo(30) == 2 * (2 * (2 * (2 * (2 * TwoTo(25)))));
  }
}
