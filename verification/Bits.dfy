/** Bit strings, most significant bit first, and regrouping them (bech32.ConvertBits). */
module Bits {
  import opened Common
  import opened Bytes

  type bits = seq<bool>

  function Bit(b: bool): nat {
    if b then 1 else 0
  }

  function ToNat(bs: bits): nat {
    if bs == [] then 0 else 2 * ToNat(bs[..|bs| - 1]) + Bit(bs[|bs| - 1])
  }

  function FromNat(n: nat, w: nat): (bs: bits)
    ensures |bs| == w
  {
    if w == 0 then [] else FromNat(n / 2, w - 1) + [n % 2 == 1]
  }

  function TwoTo(w: nat): nat {
    if w == 0 then 1 else 2 * TwoTo(w - 1)
  }

  lemma {:induction false} ToNatOfFromNat(n: nat, w: nat)
    requires n < TwoTo(w)
    ensures ToNat(FromNat(n, w)) == n
  {
    if w == 0 {
    } else {
      ToNatOfFromNat(n / 2, w - 1);
      assert FromNat(n, w)[..w - 1] == FromNat(n / 2, w - 1);
    }
  }

  lemma Halves(n: nat, b: bool)
    ensures (2 * n + Bit(b)) / 2 == n
    ensures (2 * n + Bit(b)) % 2 == 1 <==> b
  {
  }

  lemma {:induction false} FromNatOfToNat(bs: bits)
    ensures FromNat(ToNat(bs), |bs|) == bs
    ensures ToNat(bs) < TwoTo(|bs|)
  {
    if bs == [] {
    } else {
      var front, last := bs[..|bs| - 1], bs[|bs| - 1];
      FromNatOfToNat(front);
      Halves(ToNat(front), last);
      assert FromNat(ToNat(bs), |bs|) == FromNat(ToNat(bs) / 2, |bs| - 1) + [ToNat(bs) % 2 == 1];
      assert bs == front + [last];
    }
  }

  // The bits of n * 2^k + v are those of n followed by the k bits of v.
  lemma {:induction false} FromNatConcat(n: nat, v: nat, w: nat, k: nat)
    requires v < TwoTo(k)
    ensures FromNat(n * TwoTo(k) + v, w + k) == FromNat(n, w) + FromNat(v, k)
    decreases k
  {
    if k == 0 {
    } else {
      var m := TwoTo(k - 1);
      DoubleOut(n, m);
      HalfOfSum(n * m, v);
      FromNatConcat(n, v / 2, w, k - 1);
    }
  }

  lemma DoubleOut(n: nat, m: nat)
    ensures n * (2 * m) == 2 * (n * m)
  {
  }

  lemma HalfOfSum(m: nat, v: nat)
    ensures (2 * m + v) / 2 == m + v / 2 && (2 * m + v) % 2 == v % 2
  {
  }

  // ---------- regrouping ----------

  function Falses(n: nat): (bs: bits)
    ensures |bs| == n
  {
    seq(n, _ => false)
  }

  function Concat(groups: seq<bits>): bits {
    if groups == [] then [] else groups[0] + Concat(groups[1..])
  }

  predicate AllWide(groups: seq<bits>, w: nat) {
    forall i | 0 <= i < |groups| :: |groups[i]| == w
  }

  // How many bits are missing from the last group.
  function Padding(n: nat, w: nat): (p: nat)
    requires w > 0
    ensures p < w
  {
    if n == 0 then 0 else if n < w then w - n else Padding(n - w, w)
  }

  // Groups of w bits, the last one filled up with zeros.
  function Regroup(bs: bits, w: nat): (groups: seq<bits>)
    requires w > 0
    ensures AllWide(groups, w)
    decreases |bs|
  {
    if bs == [] then []
    else if |bs| < w then [bs + Falses(w - |bs|)]
    else [bs[..w]] + Regroup(bs[w..], w)
  }

  // Whole groups of w bits and what is left over.
  function RegroupExact(bs: bits, w: nat): (r: (seq<bits>, bits))
    requires w > 0
    ensures AllWide(r.0, w) && |r.1| < w
    decreases |bs|
  {
    if |bs| < w then ([], bs)
    else
      var (groups, rest) := RegroupExact(bs[w..], w);
      ([bs[..w]] + groups, rest)
  }

  lemma {:induction false} ConcatRegroup(bs: bits, w: nat)
    requires w > 0
    ensures Concat(Regroup(bs, w)) == bs + Falses(Padding(|bs|, w))
    ensures |Regroup(bs, w)| * w == |bs| + Padding(|bs|, w)
    decreases |bs|
  {
    if bs == [] {
    } else if |bs| < w {
      assert Concat([bs + Falses(w - |bs|)]) == bs + Falses(w - |bs|) + Concat([]);
    } else {
      var rest := Regroup(bs[w..], w);
      ConcatRegroup(bs[w..], w);
      assert Regroup(bs, w) == [bs[..w]] + rest;
      assert Concat([bs[..w]] + rest) == bs[..w] + Concat(rest);
      assert bs == bs[..w] + bs[w..];
      AddOneGroup(|rest|, w);
    }
  }

  lemma AddOneGroup(n: nat, w: nat)
    ensures (n + 1) * w == n * w + w
  {
  }

  lemma {:induction false} RegroupExactConcat(groups: seq<bits>, rest: bits, w: nat)
    requires w > 0 && AllWide(groups, w) && |rest| < w
    ensures RegroupExact(Concat(groups) + rest, w) == (groups, rest)
    decreases groups
  {
    if groups == [] {
      assert Concat(groups) + rest == rest;
    } else {
      var all := Concat(groups) + rest;
      assert all[..w] == groups[0];
      assert all[w..] == Concat(groups[1..]) + rest;
      RegroupExactConcat(groups[1..], rest, w);
      assert [groups[0]] + groups[1..] == groups;
    }
  }

  // ---------- bytes to five-bit groups and back ----------

  function ByteGroups(data: seq<byte>): (groups: seq<bits>)
    ensures |groups| == |data| && AllWide(groups, 8)
  {
    seq(|data|, i requires 0 <= i < |data| => FromNat(data[i], 8))
  }

  function GroupBytes(groups: seq<bits>): (data: seq<byte>)
    requires AllWide(groups, 8)
    ensures |data| == |groups|
    ensures forall i | 0 <= i < |groups| :: data[i] == ToNat(groups[i])
  {
    if groups == [] then []
    else
      FromNatOfToNat(groups[0]);
      TwoToEight();
      [ToNat(groups[0])] + GroupBytes(groups[1..])
  }

  lemma TwoToEight()
    ensures TwoTo(5) == 32 && TwoTo(8) == 256
  {
    assert TwoTo(3) == 2 * (2 * (2 * TwoTo(0)));
    assert TwoTo(5) == 2 * (2 * TwoTo(3));
    assert TwoTo(8) == 2 * (2 * (2 * TwoTo(5)));
  }

  // ConvertBits(data, 8, 5, true)
  function ToFives(data: seq<byte>): (groups: seq<bits>)
    ensures AllWide(groups, 5)
  {
    Regroup(Concat(ByteGroups(data)), 5)
  }

  // ConvertBits(groups, 5, 8, false): an unfinished byte may only be up to four zero bits.
  function FromFives(groups: seq<bits>): Option<seq<byte>> {
    var (whole, rest) := RegroupExact(Concat(groups), 8);
    if |rest| > 4 || rest != Falses(|rest|) then None else Some(GroupBytes(whole))
  }

  lemma {:induction false} ConcatLength(groups: seq<bits>, w: nat)
    requires AllWide(groups, w)
    ensures |Concat(groups)| == |groups| * w
  {
    if groups == [] {
    } else {
      ConcatLength(groups[1..], w);
      AddOneGroup(|groups| - 1, w);
    }
  }

  lemma BytesOfGroups(data: seq<byte>)
    ensures GroupBytes(ByteGroups(data)) == data
  {
    TwoToEight();
    forall i | 0 <= i < |data| ensures GroupBytes(ByteGroups(data))[i] == data[i] {
      ToNatOfFromNat(data[i], 8);
    }
  }

  // Regrouping 8-to-5 with padding is undone by regrouping 5-to-8, for every number of bytes.
  lemma FivesRoundTrip(data: seq<byte>)
    ensures FromFives(ToFives(data)) == Some(data)
    ensures 5 * |ToFives(data)| < 8 * |data| + 5
  {
    var bs := Concat(ByteGroups(data));
    var pad := Falses(Padding(|bs|, 5));
    ConcatLength(ByteGroups(data), 8);
    ConcatRegroup(bs, 5);
    RegroupExactConcat(ByteGroups(data), pad, 8);
    BytesOfGroups(data);
  }

  lemma {:induction false} RegroupExactParts(bs: bits, w: nat)
    requires w > 0
    ensures Concat(RegroupExact(bs, w).0) + RegroupExact(bs, w).1 == bs
    decreases |bs|
  {
    if |bs| < w {
    } else {
      RegroupExactParts(bs[w..], w);
      assert RegroupExact(bs, w).0[1..] == RegroupExact(bs[w..], w).0;
      assert bs == bs[..w] + bs[w..];
    }
  }

  lemma {:induction false} RegroupOfConcat(groups: seq<bits>, bs: bits, r: nat, w: nat)
    requires w > 0 && AllWide(groups, w) && r < w && Concat(groups) == bs + Falses(r)
    ensures Regroup(bs, w) == groups
    decreases groups
  {
    ConcatLength(groups, w);
    if groups == [] {
    } else {
      var all := Concat(groups);
      ConcatLength(groups[1..], w);
      AddOneGroup(|groups| - 1, w);
      assert all[..w] == groups[0] && all[w..] == Concat(groups[1..]);
      assert groups == [groups[0]] + groups[1..];
      if |bs| < w {
        assert |all| == |bs| + r;
        OneGroup(|groups|, w);
        assert groups[1..] == [];
        assert all == groups[0];
      } else {
        assert all[..w] == bs[..w];
        assert all[w..] == bs[w..] + Falses(r);
        RegroupOfConcat(groups[1..], bs[w..], r, w);
      }
    }
  }

  lemma OneGroup(n: nat, w: nat)
    ensures n >= 2 ==> n * w >= 2 * w
    ensures n * w == 0 && w > 0 ==> n == 0
  {
  }

  lemma GroupsOfBytes(groups: seq<bits>)
    requires AllWide(groups, 8)
    ensures ByteGroups(GroupBytes(groups)) == groups
  {
    forall i | 0 <= i < |groups| ensures ByteGroups(GroupBytes(groups))[i] == groups[i] {
      FromNatOfToNat(groups[i]);
    }
  }

  // Five-bit groups are accepted with some bytes exactly when they are those bytes regrouped.
  lemma FromFivesIff(groups: seq<bits>, data: seq<byte>)
    requires AllWide(groups, 5)
    ensures FromFives(groups) == Some(data) <==> groups == ToFives(data)
  {
    FivesRoundTrip(data);
    if FromFives(groups) == Some(data) {
      var (whole, rest) := RegroupExact(Concat(groups), 8);
      RegroupExactParts(Concat(groups), 8);
      GroupsOfBytes(whole);
      RegroupOfConcat(groups, Concat(whole), |rest|, 5);
    }
  }
}
