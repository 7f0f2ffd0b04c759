/**
 Computing an address piece by piece: five bytes of a witness program give eight letters and move the
 checksum from one word to another; four digits of a Base58 numeral give four letters.
 */
module AddressPieces {
  import opened Bytes
  import opened Bits
  import opened Numerals
  import opened Bech32Checksum
  import opened Bech32Words
  import Base58
  import Bech32
  import opened Address

  // ---------- numbers and their bits ----------

  // Four more digits.
  function Four(n: nat, a: nat, b: nat, c: nat, d: nat, r: base): nat {
    Shift(Shift(Shift(Shift(n, a, r), b, r), c, r), d, r)
  }

  lemma FourMore(front: seq<nat>, a: nat, b: nat, c: nat, d: nat, r: base)
    ensures FromDigits(front + [a, b, c, d], r) == Four(FromDigits(front, r), a, b, c, d, r)
  {
    hide FromDigits, Shift;
    FromDigitsAppend(front, a, r);
    FromDigitsAppend(front + [a], b, r);
    FromDigitsAppend(front + [a] + [b], c, r);
    FromDigitsAppend(front + [a] + [b] + [c], d, r);
    assert front + [a, b, c, d] == front + [a] + [b] + [c] + [d];
  }

  function DigitBits(ds: seq<nat>, k: nat): (groups: seq<bits>)
    ensures |groups| == |ds| && AllWide(groups, k)
  {
    seq(|ds|, i requires 0 <= i < |ds| => FromNat(ds[i], k))
  }

  lemma {:induction false} ConcatJoin(a: seq<bits>, b: seq<bits>)
    ensures Concat(a + b) == Concat(a) + Concat(b)
    decreases |a|
  {
    if a == [] {
      assert a + b == b;
    } else {
      assert (a + b)[1..] == a[1..] + b;
      ConcatJoin(a[1..], b);
    }
  }

  // The digits of a number in base 2^k, written with k bits each, are the bits of the number.
  lemma {:induction false} BitsOfDigits(ds: seq<nat>, k: nat, r: base)
    requires r == TwoTo(k) && forall i | 0 <= i < |ds| :: ds[i] < r
    ensures FromNat(FromDigits(ds, r), k * |ds|) == Concat(DigitBits(ds, k))
    decreases |ds|
  {
    hide FromNat, TwoTo, Concat;
    if ds == [] {
      NoBits(0);
    } else {
      var front, d := ds[..|ds| - 1], ds[|ds| - 1];
      AddOneGroup(|front|, k);
      FromNatConcat(FromDigits(front, r), d, k * |front|, k);
      BitsOfDigits(front, k, r);
      assert DigitBits(ds, k) == DigitBits(front, k) + [FromNat(d, k)];
      ConcatJoin(DigitBits(front, k), [FromNat(d, k)]);
      OneGroupConcat(FromNat(d, k));
    }
  }

  lemma NoBits(n: nat)
    ensures FromNat(n, 0) == [] && Concat([]) == []
  {
  }

  lemma OneGroupConcat(g: bits)
    ensures Concat([g]) == g
  {
    assert [g][1..] == [];
  }

  lemma ZeroBits(n: nat, w: nat, pad: nat)
    ensures FromNat(n * TwoTo(pad), w + pad) == FromNat(n, w) + Falses(pad)
  {
    hide FromNat;
    TwoToPositive(pad);
    FromNatConcat(n, 0, w, pad);
    FromNatZero(pad);
  }

  lemma TwoToPositive(w: nat)
    ensures TwoTo(w) > 0
  {
  }

  lemma FromNatZero(w: nat)
    ensures FromNat(0, w) == Falses(w)
  {
    if w > 0 {
      FromNatZero(w - 1);
    }
  }

  // Bytes and five-bit numbers of the same value, apart from the padding, have the same bits.
  lemma SameBits(bs: seq<byte>, fives: seq<nat>, pad: nat)
    requires AllFives(fives) && 5 * |fives| == 8 * |bs| + pad
    requires FromDigits(fives, 32) == FromDigits(bs, 256) * TwoTo(pad)
    ensures Concat(Fives(fives)) == Concat(ByteGroups(bs)) + Falses(pad)
  {
    hide FromNat, TwoTo, Concat, FromDigits, Falses;
    TwoToEight();
    BitsOfDigits(fives, 5, 32);
    BitsOfDigits(bs, 8, 256);
    assert DigitBits(fives, 5) == Fives(fives) && DigitBits(bs, 8) == ByteGroups(bs);
    ZeroBits(FromDigits(bs, 256), 8 * |bs|, pad);
  }

  // ---------- pieces of a witness address ----------

  // A run of five-bit numbers: the bytes it stands for, its letters and what it does to the checksum.
  ghost predicate Piece(c: Word, bs: seq<byte>, fives: seq<nat>, pad: nat, text: string, next: Word) {
    && AllFives(fives)
    && RunWords(c, fives) == next
    && Bech32.Text(Fives(fives)) == text
    && Concat(Fives(fives)) == Concat(ByteGroups(bs)) + Falses(pad)
  }

  // The states of the checksum while four numbers enter it.
  predicate Steps(c0: Word, f0: nat, c1: Word, f1: nat, c2: Word, f2: nat, c3: Word, f3: nat, c4: Word)
    requires f0 < 32 && f1 < 32 && f2 < 32 && f3 < 32
  {
    && StepWord(c0, Digit(f0)) == c1
    && StepWord(c1, Digit(f1)) == c2
    && StepWord(c2, Digit(f2)) == c3
    && StepWord(c3, Digit(f3)) == c4
  }

  function Letters(a: nat, b: nat, c: nat, d: nat): string
    requires a < 32 && b < 32 && c < 32 && d < 32
  {
    [Bech32.CharOf(a), Bech32.CharOf(b), Bech32.CharOf(c), Bech32.CharOf(d)]
  }

  lemma {:induction false} RunWordsConcat(c: Word, a: seq<nat>, b: seq<nat>)
    requires AllFives(a) && AllFives(b)
    ensures AllFives(a + b) && RunWords(c, a + b) == RunWords(RunWords(c, a), b)
    decreases |a|
  {
    hide StepWord, Digit;
    if a == [] {
      assert a + b == b;
    } else {
      assert (a + b)[1..] == a[1..] + b;
      RunWordsConcat(StepWord(c, Digit(a[0])), a[1..], b);
    }
  }

  lemma RunOne(c: Word, v: nat)
    requires v < 32
    ensures RunWords(c, [v]) == StepWord(c, Digit(v))
  {
    hide StepWord, Digit;
    assert [v][1..] == [];
  }

  lemma RunFour(c0: Word, f0: nat, c1: Word, f1: nat, c2: Word, f2: nat, c3: Word, f3: nat, c4: Word)
    requires f0 < 32 && f1 < 32 && f2 < 32 && f3 < 32
    requires Steps(c0, f0, c1, f1, c2, f2, c3, f3, c4)
    ensures RunWords(c0, [f0, f1, f2, f3]) == c4
  {
    hide StepWord, Digit, RunWords;
    RunOne(c0, f0);
    RunOne(c1, f1);
    RunOne(c2, f2);
    RunOne(c3, f3);
    RunWordsConcat(c0, [f0], [f1]);
    RunWordsConcat(c0, [f0] + [f1], [f2]);
    RunWordsConcat(c0, [f0] + [f1] + [f2], [f3]);
    assert [f0] + [f1] + [f2] + [f3] == [f0, f1, f2, f3];
  }

  lemma TextOne(v: nat)
    requires v < 32
    ensures Bech32.Text(Fives([v])) == [Bech32.CharOf(v)]
  {
    hide Bech32.CharOf, FromNat, ToNat;
    TwoToEight();
    ToNatOfFromNat(v, 5);
    assert Fives([v])[1..] == [];
  }

  lemma TextJoin(a: seq<nat>, b: seq<nat>)
    requires AllFives(a) && AllFives(b)
    ensures Bech32.Text(Fives(a + b)) == Bech32.Text(Fives(a)) + Bech32.Text(Fives(b))
  {
    hide Bech32.Text, FromNat;
    Bech32.TextConcat(Fives(a), Fives(b));
    assert Fives(a + b) == Fives(a) + Fives(b);
  }

  lemma TextFour(a: nat, b: nat, c: nat, d: nat)
    requires a < 32 && b < 32 && c < 32 && d < 32
    ensures Bech32.Text(Fives([a, b, c, d])) == Letters(a, b, c, d)
  {
    hide Bech32.Text, Bech32.CharOf, Fives;
    TextOne(a);
    TextOne(b);
    TextOne(c);
    TextOne(d);
    TextJoin([a], [b]);
    TextJoin([a] + [b], [c]);
    TextJoin([a] + [b] + [c], [d]);
    assert [a] + [b] + [c] + [d] == [a, b, c, d];
  }

  lemma PieceJoin(c: Word, a: seq<byte>, f: seq<nat>, s: string, mid: Word,
                  b: seq<byte>, g: seq<nat>, pad: nat, t: string, next: Word)
    requires Piece(c, a, f, 0, s, mid) && Piece(mid, b, g, pad, t, next)
    ensures Piece(c, a + b, f + g, pad, s + t, next)
  {
    hide FromNat, RunWords, Bech32.Text, Concat;
    RunWordsConcat(c, f, g);
    TextJoin(f, g);
    assert Fives(f + g) == Fives(f) + Fives(g);
    assert ByteGroups(a + b) == ByteGroups(a) + ByteGroups(b);
    ConcatJoin(Fives(f), Fives(g));
    ConcatJoin(ByteGroups(a), ByteGroups(b));
  }

  // Five bytes are eight numbers of the same value.
  lemma FiveBytes(b0: byte, b1: byte, b2: byte, b3: byte, b4: byte, f0: nat, f1: nat, f2: nat, f3: nat,
                  f4: nat, f5: nat, f6: nat, f7: nat, text: string, c0: Word, c1: Word, c2: Word, c3: Word, c4: Word,
                  c5: Word, c6: Word, c7: Word, c8: Word)
    requires f0 < 32 && f1 < 32 && f2 < 32 && f3 < 32 && f4 < 32 && f5 < 32 && f6 < 32 && f7 < 32
    requires (((b0 * 256 + b1) * 256 + b2) * 256 + b3) * 256 + b4
          == ((((((f0 * 32 + f1) * 32 + f2) * 32 + f3) * 32 + f4) * 32 + f5) * 32 + f6) * 32 + f7
    requires Letters(f0, f1, f2, f3) + Letters(f4, f5, f6, f7) == text
    requires Steps(c0, f0, c1, f1, c2, f2, c3, f3, c4) && Steps(c4, f4, c5, f5, c6, f6, c7, f7, c8)
    ensures Piece(c0, [b0, b1, b2, b3, b4], [f0, f1, f2, f3, f4, f5, f6, f7], 0, text, c8)
  {
    hide Steps, Letters, Four, Shift, RunWords, Bech32.Text, Fives, FromDigits, Concat;
    var front, back, fives := [f0, f1, f2, f3], [f4, f5, f6, f7], [f0, f1, f2, f3, f4, f5, f6, f7];
    var four, bs: seq<byte> := [b0, b1, b2, b3], [b0, b1, b2, b3, b4];
    assert fives == front + back && bs == four + [b4];
    RunFour(c0, f0, c1, f1, c2, f2, c3, f3, c4);
    RunFour(c4, f4, c5, f5, c6, f6, c7, f7, c8);
    RunWordsConcat(c0, front, back);
    TextFour(f0, f1, f2, f3);
    TextFour(f4, f5, f6, f7);
    TextJoin(front, back);
    FourDigits(f0, f1, f2, f3, 32);
    FourMore(front, f4, f5, f6, f7, 32);
    FourDigits(b0, b1, b2, b3, 256);
    FromDigitsAppend(four, b4, 256);
    FiveBytesValue(b0, b1, b2, b3, b4, f0, f1, f2, f3, f4, f5, f6, f7);
    Paddings();
    SameBits(bs, fives, 0);
  }

  lemma FiveBytesValue(b0: byte, b1: byte, b2: byte, b3: byte, b4: byte, f0: nat, f1: nat, f2: nat, f3: nat,
                       f4: nat, f5: nat, f6: nat, f7: nat)
    ensures Shift(Four(0, b0, b1, b2, b3, 256), b4, 256) == (((b0 * 256 + b1) * 256 + b2) * 256 + b3) * 256 + b4
    ensures Four(Four(0, f0, f1, f2, f3, 32), f4, f5, f6, f7, 32)
         == ((((((f0 * 32 + f1) * 32 + f2) * 32 + f3) * 32 + f4) * 32 + f5) * 32 + f6) * 32 + f7
  {
  }

  lemma Paddings()
    ensures TwoTo(0) == 1 && TwoTo(4) == 16
  {
    assert TwoTo(2) == 2 * (2 * TwoTo(0));
  }

  lemma FourDigits(a: nat, b: nat, c: nat, d: nat, r: base)
    ensures FromDigits([a, b, c, d], r) == Four(0, a, b, c, d, r)
  {
    hide FromDigits, Four;
    FourMore([], a, b, c, d, r);
    NoDigits(r);
    assert [] + [a, b, c, d] == [a, b, c, d];
  }

  // Two bytes are four numbers, the last of which ends in four padding bits.
  lemma TwoBytes(b0: byte, b1: byte, f0: nat, f1: nat, f2: nat, f3: nat, text: string,
                 c0: Word, c1: Word, c2: Word, c3: Word, c4: Word)
    requires f0 < 32 && f1 < 32 && f2 < 32 && f3 < 32
    requires (b0 * 256 + b1) * 16 == ((f0 * 32 + f1) * 32 + f2) * 32 + f3
    requires Letters(f0, f1, f2, f3) == text && Steps(c0, f0, c1, f1, c2, f2, c3, f3, c4)
    ensures Piece(c0, [b0, b1], [f0, f1, f2, f3], 4, text, c4)
  {
    hide Steps, Letters, RunWords, Bech32.Text, Fives, FromDigits, Concat;
    RunFour(c0, f0, c1, f1, c2, f2, c3, f3, c4);
    TextFour(f0, f1, f2, f3);
    FourDigits(f0, f1, f2, f3, 32);
    NoDigits(256);
    FromDigitsAppend([], b0, 256);
    FromDigitsAppend([b0], b1, 256);
    assert [] + [b0 as nat] == [b0] && [b0] + [b1 as nat] == [b0, b1];
    Paddings();
    SameBits([b0, b1], [f0, f1, f2, f3], 4);
  }

  // ---------- witness addresses ----------

  const BC_FIVES: seq<nat> := [3, 3, 0, 2, 3]

  lemma PrefixFives()
    ensures AllFives(BC_FIVES) && ExpandPrefix("bc") == Fives(BC_FIVES)
  {
    hide FromNat;
  }

  function ConstantWord(version: Version): Word {
    if version.Version0? then Word(1) else Word(0x2bc830a3)
  }

  lemma ConstantIsWord(version: Version)
    ensures Constant(version) == Thirty(ConstantWord(version))
  {
    hide FromNat, Thirty;
    OneWord();
    MWord();
  }

  // The checksum state start comes after the prefix and the witness version.
  lemma StartIs(v: nat, c1: Word, c2: Word, c3: Word, c4: Word, c5: Word, start: Word)
    requires v < 32
    requires Steps(Word(1), 3, c1, 3, c2, 0, c3, 2, c4) && StepWord(c4, Digit(3)) == c5 && StepWord(c5, Digit(v)) == start
    ensures AllFives(BC_FIVES + [v]) && RunWords(Word(1), BC_FIVES + [v]) == start
  {
    hide StepWord, Digit, RunWords, Steps;
    RunFour(Word(1), 3, c1, 3, c2, 0, c3, 2, c4);
    RunOne(c4, 3);
    RunOne(c5, v);
    RunWordsConcat(Word(1), [3, 3, 0, 2], [3]);
    RunWordsConcat(Word(1), [3, 3, 0, 2] + [3], [v]);
    assert [3, 3, 0, 2] + [3] == BC_FIVES;
  }

  // Six numbers that bring the checksum from its state after the data to the constant of the version.
  ghost predicate Closes(end: Word, six: seq<nat>, text: string, version: Version) {
    && |six| == 6
    && AllFives(six)
    && RunWords(end, six) == ConstantWord(version)
    && Bech32.Text(Fives(six)) == text
  }

  lemma SixClose(f0: nat, f1: nat, f2: nat, f3: nat, f4: nat, f5: nat, text: string, version: Version,
                 c0: Word, c1: Word, c2: Word, c3: Word, c4: Word, c5: Word, c6: Word)
    requires f0 < 32 && f1 < 32 && f2 < 32 && f3 < 32 && f4 < 32 && f5 < 32 && c6 == ConstantWord(version)
    requires Steps(c0, f0, c1, f1, c2, f2, c3, f3, c4)
    requires StepWord(c4, Digit(f4)) == c5 && StepWord(c5, Digit(f5)) == c6
    requires Letters(f0, f1, f2, f3) + [Bech32.CharOf(f4)] + [Bech32.CharOf(f5)] == text
    ensures Closes(c0, [f0, f1, f2, f3] + [f4] + [f5], text, version)
  {
    hide FromNat, RunWords, Bech32.Text, ConstantWord, Letters, Bech32.CharOf, Steps, StepWord, Digit, Fives;
    RunFour(c0, f0, c1, f1, c2, f2, c3, f3, c4);
    RunOne(c4, f4);
    RunOne(c5, f5);
    RunWordsConcat(c0, [f0, f1, f2, f3], [f4]);
    RunWordsConcat(c0, [f0, f1, f2, f3] + [f4], [f5]);
    TextFour(f0, f1, f2, f3);
    TextOne(f4);
    TextOne(f5);
    TextJoin([f0, f1, f2, f3], [f4]);
    TextJoin([f0, f1, f2, f3] + [f4], [f5]);
  }

  lemma ChecksumIs(v: nat, fives: seq<nat>, six: seq<nat>, text: string, version: Version, start: Word)
    requires AllFives(BC_FIVES + [v]) && RunWords(Word(1), BC_FIVES + [v]) == start
    requires AllFives(fives) && Closes(RunWords(start, fives), six, text, version)
    ensures v < 32 && ChecksumOf("bc", Fives([v] + fives), version) == Fives(six)
  {
    hide FromNat, RunWords, Thirty, Run, ExpandPrefix, ConstantWord, Constant, ChecksumOf, Bech32.Text;
    var data := [v] + fives;
    var front := BC_FIVES + [v];
    assert front[5] == v;
    PrefixFives();
    OneWord();
    RunWordsConcat(Word(1), front, fives);
    RunWordsConcat(Word(1), front + fives, six);
    RunOnWords(Word(1), front + fives + six);
    assert Fives(front + fives + six) == Fives(BC_FIVES) + (Fives(data) + Fives(six));
    ConstantIsWord(version);
    ConstantsDiffer();
    ChecksumUnique("bc", Fives(data), Fives(six), version);
  }

  // The printed string of a witness version and a program whose five-bit numbers form a piece.
  lemma WitnessText(v: nat, program: seq<byte>, fives: seq<nat>, pad: nat, text: string, six: seq<nat>, tail: string,
                    version: Version, start: Word, end: Word)
    requires pad < 5
    requires AllFives(BC_FIVES + [v]) && RunWords(Word(1), BC_FIVES + [v]) == start
    requires Piece(start, program, fives, pad, text, end) && Closes(end, six, tail, version)
    ensures v < 32 && Bech32.Encode("bc", WitnessData(v, program), version) == "bc1" + [Bech32.CharOf(v)] + text + tail
  {
    hide FromNat, RunWords, Bech32.Text, ConstantWord, Bech32.CharOf, ChecksumOf, Concat, Falses;
    ChecksumIs(v, fives, six, tail, version, start);
    TextOne(v);
    TextJoin([v], fives);
    RegroupOfConcat(Fives(fives), Concat(ByteGroups(program)), pad, 5);
    assert WitnessData(v, program) == Fives([v] + fives);
    Bech32.ToLowerKeeps("bc");
  }

  // ---------- Base58Check addresses ----------

  // A numeral in base 58, the number it denotes and its letters.
  ghost predicate Numeral58(ds: seq<nat>, value: nat, text: string) {
    IsNumeral(ds, 58) && FromDigits(ds, 58) == value && Base58.Chars(ds) == text
  }

  lemma {:induction false} CharsConcat(a: seq<nat>, b: seq<nat>)
    requires IsNumeral(a, 58) && IsNumeral(b, 58)
    ensures IsNumeral(a + b, 58) && Base58.Chars(a + b) == Base58.Chars(a) + Base58.Chars(b)
    decreases |a|
  {
    hide Base58.DigitChar;
    if a == [] {
      assert a + b == b;
    } else {
      assert (a + b)[1..] == a[1..] + b;
      CharsConcat(a[1..], b);
    }
  }

  lemma OneChar(d: nat)
    requires d < 58
    ensures Base58.Chars([d]) == [Base58.DigitChar(d)]
  {
    hide Base58.DigitChar;
    assert [d][1..] == [];
  }

  function Chars4(a: nat, b: nat, c: nat, d: nat): string
    requires a < 58 && b < 58 && c < 58 && d < 58
  {
    [Base58.DigitChar(a), Base58.DigitChar(b), Base58.DigitChar(c), Base58.DigitChar(d)]
  }

  lemma CharsFour(a: nat, b: nat, c: nat, d: nat)
    requires a < 58 && b < 58 && c < 58 && d < 58
    ensures Base58.Chars([a, b, c, d]) == Chars4(a, b, c, d)
  {
    hide Base58.DigitChar, Base58.Chars;
    OneChar(a);
    OneChar(b);
    OneChar(c);
    OneChar(d);
    CharsConcat([a], [b]);
    CharsConcat([a] + [b], [c]);
    CharsConcat([a] + [b] + [c], [d]);
    assert [a] + [b] + [c] + [d] == [a, b, c, d];
  }

  lemma Extend(ds: seq<nat>, n: nat, s: string, a: nat, b: nat, c: nat, d: nat, next: nat, text: string)
    requires a < 58 && b < 58 && c < 58 && d < 58
    requires Numeral58(ds, n, s) && Chars4(a, b, c, d) == text && (((n * 58 + a) * 58 + b) * 58 + c) * 58 + d == next
    ensures Numeral58(ds + [a, b, c, d], next, s + text)
  {
    hide Base58.Chars, Chars4, FromDigits;
    assert IsNumeral([a, b, c, d], 58);
    FourMore(ds, a, b, c, d, 58);
    CharsFour(a, b, c, d);
    CharsConcat(ds, [a, b, c, d]);
  }

  lemma MoreBytes(bs: seq<byte>, n: nat, a: byte, b: byte, c: byte, d: byte, next: nat)
    requires FromDigits(bs, 256) == n && (((n * 256 + a) * 256 + b) * 256 + c) * 256 + d == next
    ensures FromDigits(bs + [a, b, c, d], 256) == next
  {
    hide FromDigits;
    FourMore(bs, a, b, c, d, 256);
  }

  // A payload whose checksum is known is printed as the numeral of the same value, after its leading ones.
  lemma CheckText(digest: Base58.Digest, payload: seq<byte>, version: byte, sum: Base58.Checksum, z: nat,
                  ds: seq<nat>, n: nat, text: string)
    requires digest([version] + payload) == sum
    requires Base58.LeadingZeros([version] + payload + sum) == z
    requires ds != [] && ds[0] > 0 && Numeral58(ds, n, text)
    requires FromDigits([version] + payload + sum, 256) == n
    ensures Base58.CheckEncode(digest, payload, version) == Base58.Chars(Zeros(z)) + text
  {
    hide FromDigits, Base58.LeadingZeros, Base58.Chars;
    DigitsOfFromDigits(ds, 58);
    CharsConcat(Zeros(z), ds);
  }

  lemma OneDigit(d: nat, r: base)
    ensures FromDigits([d], r) == d
  {
    hide FromDigits;
    NoDigits(r);
    ZeroShift(d, r);
    FromDigitsAppend([], d, r);
    assert [] + [d] == [d];
  }

  lemma NoChars()
    ensures Base58.Chars([]) == ""
  {
  }
}
