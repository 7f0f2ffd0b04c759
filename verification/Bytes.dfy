/**
 Bytes, the lexicographic order of `bytes.Compare`, and the little-endian
 integers of `encoding/binary`.
 */
module Bytes {
  type byte = b: int | 0 <= b < 256

  // A hash160 (20 bytes) or an x-only taproot key (32 bytes).
  type Hash = seq<byte>

  function Zeros(n: nat): (h: Hash)
    ensures |h| == n
  {
    seq(n, _ => 0)
  }

  // ---------- order ----------

  // bytes.Compare(a, b) < 0
  predicate Less(a: Hash, b: Hash) {
    b != [] && (a == [] || a[0] < b[0] || (a[0] == b[0] && Less(a[1..], b[1..])))
  }

  lemma {:induction false} LessTotal(a: Hash, b: Hash)
    ensures (if Less(a, b) then 1 else 0) + (if Less(b, a) then 1 else 0) + (if a == b then 1 else 0) == 1
  {
    if a == [] || b == [] {
    } else {
      LessTotal(a[1..], b[1..]);
      assert a == [a[0]] + a[1..];
      assert b == [b[0]] + b[1..];
    }
  }

  lemma {:induction false} LessTransitive(a: Hash, b: Hash, c: Hash)
    requires Less(a, b) && Less(b, c)
    ensures Less(a, c)
  {
    if a == [] || a[0] != b[0] || b[0] != c[0] {
    } else {
      LessTransitive(a[1..], b[1..], c[1..]);
    }
  }

  predicate StrictlySorted(s: seq<Hash>) {
    forall i, j | 0 <= i < j < |s| :: Less(s[i], s[j])
  }

  predicate Sorted(s: seq<Hash>) {
    forall i, j | 0 <= i < j < |s| :: !Less(s[j], s[i])
  }

  ghost predicate SameElements(s: seq<Hash>, keys: set<Hash>) {
    forall h :: h in s <==> h in keys
  }

  // A sorted order of a duplicate-free collection is strict, whatever algorithm produced it.
  lemma SortedDistinctIsStrict(s: seq<Hash>)
    requires Sorted(s)
    requires forall i, j | 0 <= i < j < |s| :: s[i] != s[j]
    ensures StrictlySorted(s)
  {
    forall i, j | 0 <= i < j < |s| ensures Less(s[i], s[j]) {
      LessTotal(s[i], s[j]);
    }
  }

  // There is only one strictly sorted enumeration of a set of hashes.
  lemma {:induction false} StrictlySortedUnique(s: seq<Hash>, t: seq<Hash>)
    requires StrictlySorted(s) && StrictlySorted(t)
    requires forall h :: h in s <==> h in t
    ensures s == t
  {
    assert s != [] ==> s[0] in t;
    assert t != [] ==> t[0] in s;
    if s != [] && t != [] {
      var i :| 0 <= i < |s| && s[i] == t[0];
      var j :| 0 <= j < |t| && t[j] == s[0];
      LessTotal(s[0], t[0]);
      assert s[0] == t[0];
      forall h ensures h in s[1..] <==> h in t[1..] {
        TailMembers(s, h);
        TailMembers(t, h);
      }
      StrictlySortedUnique(s[1..], t[1..]);
      assert s == [s[0]] + s[1..];
      assert t == [t[0]] + t[1..];
    }
  }

  lemma TailMembers(s: seq<Hash>, h: Hash)
    requires StrictlySorted(s) && s != []
    ensures h in s[1..] <==> h in s && h != s[0]
  {
    if h in s[1..] {
      var k :| 0 <= k < |s[1..]| && s[1..][k] == h;
      LessTotal(s[0], s[k + 1]);
    }
    if h in s && h != s[0] {
      var k :| 0 <= k < |s| && s[k] == h;
      assert s[1..][k - 1] == h;
    }
  }

  // ---------- little-endian integers ----------

  function Pow256(w: nat): (p: nat)
    ensures p >= 1
  {
    if w == 0 then 1 else 256 * Pow256(w - 1)
  }

  // PutUint32/PutUint64: the low w bytes of n, least significant first.
  function LE(n: nat, w: nat): (s: seq<byte>)
    ensures |s| == w
  {
    if w == 0 then [] else [n % 256] + LE(n / 256, w - 1)
  }

  function FromLE(s: seq<byte>): nat {
    if s == [] then 0 else s[0] + 256 * FromLE(s[1..])
  }

  lemma {:induction false} LERoundTrip(n: nat, w: nat)
    requires n < Pow256(w)
    ensures FromLE(LE(n, w)) == n
  {
    if w == 0 {
    } else {
      assert n / 256 < Pow256(w - 1);
      LERoundTrip(n / 256, w - 1);
      assert LE(n, w)[1..] == LE(n / 256, w - 1);
    }
  }

  // The byte at position i counts for 256^i.
  lemma LittleEndian(w: seq<byte>)
    ensures |w| == 4 ==> FromLE(w) == w[0] as nat + 0x100 * w[1] as nat + 0x1_0000 * w[2] as nat + 0x100_0000 * w[3] as nat
    ensures |w| == 8 ==> FromLE(w) == FromLE(w[..4]) + 0x1_0000_0000 * FromLE(w[4..])
  {
    if |w| == 4 {
      FourBytes(w[0], w[1], w[2], w[3], []);
      assert [w[0], w[1], w[2], w[3]] + [] == w;
    } else if |w| == 8 {
      FourBytes(w[0], w[1], w[2], w[3], []);
      assert [w[0], w[1], w[2], w[3]] + [] == w[..4];
      FourBytes(w[0], w[1], w[2], w[3], w[4..]);
      assert [w[0], w[1], w[2], w[3]] + w[4..] == w;
    }
  }

  lemma FourBytes(a: byte, b: byte, c: byte, d: byte, rest: seq<byte>)
    ensures FromLE([a, b, c, d] + rest)
         == a as nat + 0x100 * b as nat + 0x1_0000 * c as nat + 0x100_0000 * d as nat + 0x1_0000_0000 * FromLE(rest)
  {
    hide FromLE;
    OneByte(d, rest);
    OneByte(c, [d] + rest);
    OneByte(b, [c] + ([d] + rest));
    OneByte(a, [b] + ([c] + ([d] + rest)));
    assert [a, b, c, d] + rest == [a] + ([b] + ([c] + ([d] + rest)));
  }

  lemma OneByte(a: byte, rest: seq<byte>)
    ensures FromLE([a] + rest) == a as nat + 256 * FromLE(rest)
  {
    assert ([a] + rest)[1..] == rest;
  }

  lemma Pow256Values()
    ensures Pow256(4) == 0x1_0000_0000
    ensures Pow256(8) == 0x1_0000_0000_0000_0000
  {
    assert Pow256(4) == 256 * (256 * (256 * (256 * Pow256(0))));
    assert Pow256(8) == 256 * (256 * (256 * (256 * Pow256(4))));
  }
}
