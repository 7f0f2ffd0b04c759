/**
 The Bech32 checksum on 32-bit words, the form in which it is usually programmed, proved equal to
 the checksum on strings of bits.
 */
module Bech32Words {
  import opened Bits
  import opened Bech32Checksum

  datatype Word = Word(v: bv32)

  function Five(x: Word): (bs: bits)
    ensures |bs| == 5
  {
    [x.v & 16 != 0, x.v & 8 != 0, x.v & 4 != 0, x.v & 2 != 0, x.v & 1 != 0]
  }

  function DownBits(x: bv32): bv32 {
    x >> 5
  }

  function Down(x: Word): Word {
    Word(DownBits(x.v))
  }

  function XorWords(a: Word, b: Word): Word {
    Word(a.v ^ b.v)
  }

  // The five-bit groups of the low thirty bits.
  function SixFives(x: Word): (groups: seq<bits>)
    ensures |groups| == 6 && AllWide(groups, 5)
  {
    var x1 := Down(x);
    var x2 := Down(x1);
    var x3 := Down(x2);
    var x4 := Down(x3);
    [Five(Down(x4)), Five(x4), Five(x3), Five(x2), Five(x1), Five(x)]
  }

  function Join(a: seq<bits>): (bs: bits)
    requires |a| == 6 && AllWide(a, 5)
    ensures |bs| == 30
  {
    a[0] + a[1] + a[2] + a[3] + a[4] + a[5]
  }

  function Thirty(x: Word): (bs: bits)
    ensures |bs| == 30
  {
    Join(SixFives(x))
  }

  // The low 25 bits move up, and five bits come in.
  function EnterBits(c: bv32, v: bv32): bv32 {
    ((c & 0x1ffffff) << 5) ^ (v & 31)
  }

  function Enter(c: Word, v: Word): Word {
    Word(EnterBits(c.v, v.v))
  }

  // The sum of the generators that the five low bits of t select.
  function SelectedBits(t: bv32): bv32 {
    (if t & 1 != 0 then 0x3b6a57b2 else 0) ^ (if t & 2 != 0 then 0x26508e6d else 0)
    ^ (if t & 4 != 0 then 0x1ea119fa else 0) ^ (if t & 8 != 0 then 0x3d4233dd else 0)
    ^ (if t & 16 != 0 then 0x2a1462b3 else 0)
  }

  function SelectedWord(t: Word): Word {
    Word(SelectedBits(t.v))
  }

  function Top(c: Word): Word {
    Word(c.v >> 25)
  }

  function StepWord(c: Word, v: Word): Word {
    XorWords(Enter(c, v), SelectedWord(Top(c)))
  }

  // ---------- bits and words ----------

  lemma BitsOfXor(a: bv32, b: bv32)
    ensures ((a ^ b) & 16 != 0) == ((a & 16 != 0) != (b & 16 != 0))
    ensures ((a ^ b) & 8 != 0) == ((a & 8 != 0) != (b & 8 != 0))
    ensures ((a ^ b) & 4 != 0) == ((a & 4 != 0) != (b & 4 != 0))
    ensures ((a ^ b) & 2 != 0) == ((a & 2 != 0) != (b & 2 != 0))
    ensures ((a ^ b) & 1 != 0) == ((a & 1 != 0) != (b & 1 != 0))
  {
  }

  lemma XorOfFive(a: bits, b: bits)
    requires |a| == |b| == 5
    ensures Xor(a, b) == [a[0] != b[0], a[1] != b[1], a[2] != b[2], a[3] != b[3], a[4] != b[4]]
  {
  }

  lemma XorFive(a: Word, b: Word)
    ensures Xor(Five(a), Five(b)) == Five(XorWords(a, b))
  {
    hide Xor;
    BitsOfXor(a.v, b.v);
    XorOfFive(Five(a), Five(b));
  }

  lemma DownXor(a: Word, b: Word)
    ensures Down(XorWords(a, b)) == XorWords(Down(a), Down(b))
  {
  }

  lemma XorConcat(a: bits, b: bits, c: bits, d: bits)
    requires |a| == |c| && |b| == |d|
    ensures Xor(a + b, c + d) == Xor(a, c) + Xor(b, d)
  {
  }

  lemma XorJoin(a: seq<bits>, b: seq<bits>, c: seq<bits>)
    requires |a| == |b| == |c| == 6 && AllWide(a, 5) && AllWide(b, 5) && AllWide(c, 5)
    requires forall i | 0 <= i < 6 :: Xor(a[i], b[i]) == c[i]
    ensures Xor(Join(a), Join(b)) == Join(c)
  {
    hide Xor;
    XorConcat(a[0], a[1], b[0], b[1]);
    XorConcat(a[0] + a[1], a[2], b[0] + b[1], b[2]);
    XorConcat(a[0] + a[1] + a[2], a[3], b[0] + b[1] + b[2], b[3]);
    XorConcat(a[0] + a[1] + a[2] + a[3], a[4], b[0] + b[1] + b[2] + b[3], b[4]);
    XorConcat(a[0] + a[1] + a[2] + a[3] + a[4], a[5], b[0] + b[1] + b[2] + b[3] + b[4], b[5]);
  }

  lemma XorThirty(a: Word, b: Word)
    ensures Xor(Thirty(a), Thirty(b)) == Thirty(XorWords(a, b))
  {
    hide Xor, Five, Down, XorWords, Join;
    var a1, b1 := Down(a), Down(b);
    var a2, b2 := Down(a1), Down(b1);
    var a3, b3 := Down(a2), Down(b2);
    var a4, b4 := Down(a3), Down(b3);
    DownXor(a, b);
    DownXor(a1, b1);
    DownXor(a2, b2);
    DownXor(a3, b3);
    DownXor(a4, b4);
    XorFive(a, b);
    XorFive(a1, b1);
    XorFive(a2, b2);
    XorFive(a3, b3);
    XorFive(a4, b4);
    XorFive(Down(a4), Down(b4));
    XorJoin(SixFives(a), SixFives(b), SixFives(XorWords(a, b)));
  }

  function LowBits(x: bv32): bv32 {
    x & 31
  }

  function MaskedBits(x: bv32): bv32 {
    x & 0x1ffffff
  }

  function Low(x: Word): Word {
    Word(LowBits(x.v))
  }

  function Masked(x: Word): Word {
    Word(MaskedBits(x.v))
  }

  lemma FiveOfLow(x: Word)
    ensures Five(Low(x)) == Five(x)
  {
    BitsOfLow(x.v);
  }

  lemma BitsOfLow(a: bv32)
    ensures a & 16 == (a & 31) & 16 && a & 8 == (a & 31) & 8 && a & 4 == (a & 31) & 4 && a & 2 == (a & 31) & 2
    ensures a & 1 == (a & 31) & 1
  {
  }

  lemma EnterWords(c: Word, v: Word)
    ensures Low(Enter(c, v)) == Low(v) && Down(Enter(c, v)) == Masked(c)
  {
    hide EnterBits, LowBits, DownBits, MaskedBits;
    EnterLowBits(c.v, v.v);
  }

  lemma EnterLowBits(c: bv32, v: bv32)
    ensures LowBits(EnterBits(c, v)) == LowBits(v)
    ensures DownBits(EnterBits(c, v)) == MaskedBits(c)
  {
  }

  lemma MaskWords(c: Word)
    ensures Low(Masked(c)) == Low(c) && Low(Down(Masked(c))) == Low(Down(c))
    ensures Low(Down(Down(Masked(c)))) == Low(Down(Down(c)))
    ensures Low(Down(Down(Down(Masked(c))))) == Low(Down(Down(Down(c))))
    ensures Low(Down(Down(Down(Down(Masked(c)))))) == Low(Down(Down(Down(Down(c)))))
  {
  }

  lemma SameLow(a: Word, b: Word)
    requires Low(a) == Low(b)
    ensures Five(a) == Five(b)
  {
    hide Five, Low;
    FiveOfLow(a);
    FiveOfLow(b);
  }

  lemma EnterLow(c: Word, v: Word)
    ensures Five(Enter(c, v)) == Five(v) && Down(Enter(c, v)) == Masked(c)
  {
    hide Five, Low, Enter, Down, Masked;
    EnterWords(c, v);
    SameLow(Enter(c, v), v);
  }

  // Cutting off what lies above 25 bits changes none of the five low groups.
  lemma MaskKeeps(c: Word)
    ensures SixFives(Masked(c))[1..] == SixFives(c)[1..]
  {
    hide Five, Low, Down, Masked;
    var x := Masked(c);
    MaskWords(c);
    SameLow(x, c);
    SameLow(Down(x), Down(c));
    SameLow(Down(Down(x)), Down(Down(c)));
    SameLow(Down(Down(Down(x))), Down(Down(Down(c))));
    SameLow(Down(Down(Down(Down(x)))), Down(Down(Down(Down(c)))));
  }

  lemma TopFive(c: Word)
    ensures SixFives(c)[0] == Five(Top(c))
  {
    ShiftFiveTimes(c.v);
  }

  lemma ShiftFiveTimes(c: bv32)
    ensures c >> 5 >> 5 >> 5 >> 5 >> 5 == c >> 25
  {
  }

  // Five more bits enter at the low end.
  lemma ShiftIn(c: Word, v: Word)
    ensures Thirty(c)[..5] == Five(Top(c))
    ensures Thirty(c)[5..] + Five(v) == Thirty(Enter(c, v))
  {
    hide Five, Enter, Down, Join, Masked;
    EnterLow(c, v);
    MaskKeeps(c);
    TopFive(c);
    SixFivesDown(Enter(c, v));
    ShiftGroups(SixFives(c), Five(v), SixFives(Enter(c, v)));
  }

  // The groups of a word are those of the shifted word, without its top one, and its own low one.
  lemma SixFivesDown(x: Word)
    ensures SixFives(x) == SixFives(Down(x))[1..] + [Five(x)]
  {
    hide Five, Down;
  }

  lemma ShiftGroups(a: seq<bits>, v: bits, b: seq<bits>)
    requires |a| == |b| == 6 && AllWide(a, 5) && AllWide(b, 5) && b == a[1..] + [v]
    ensures Join(a)[..5] == a[0] && Join(a)[5..] + v == Join(b)
  {
  }

  // ---------- literals ----------

  lemma FiveDigits(v: nat)
    requires v < 32
    ensures FromNat(v, 5) == [v / 16 % 2 == 1, v / 8 % 2 == 1, v / 4 % 2 == 1, v / 2 % 2 == 1, v % 2 == 1]
  {
    hide FromNat;
    assert v / 2 / 2 == v / 4 && v / 4 / 2 == v / 8 && v / 8 / 2 == v / 16;
    OneMore(v, 4);
    OneMore(v / 2, 3);
    OneMore(v / 4, 2);
    OneMore(v / 8, 1);
    OneMore(v / 16, 0);
  }

  lemma OneMore(n: nat, w: nat)
    ensures FromNat(n, w + 1) == FromNat(n / 2, w) + [n % 2 == 1]
    ensures FromNat(n, 0) == []
  {
  }

  function Push(n: nat, v: nat): nat {
    n * 32 + v
  }

  // One more digit in base 32 is five more bits.
  lemma FiveMore(n: nat, v: nat, w: nat)
    requires v < 32
    ensures FromNat(Push(n, v), w + 5) == FromNat(n, w) + FromNat(v, 5)
  {
    hide FromNat;
    TwoToEight();
    FromNatConcat(n, v, w, 5);
  }

  // A number of 30 bits is its six digits in base 32.
  lemma SixDigits(a: nat, b: nat, c: nat, d: nat, e: nat, f: nat)
    requires a < 32 && b < 32 && c < 32 && d < 32 && e < 32 && f < 32
    ensures FromNat(Push(Push(Push(Push(Push(a, b), c), d), e), f), 30)
         == FromNat(a, 5) + FromNat(b, 5) + FromNat(c, 5) + FromNat(d, 5) + FromNat(e, 5) + FromNat(f, 5)
  {
    hide FromNat, Push;
    FiveMore(a, b, 5);
    FiveMore(Push(a, b), c, 10);
    FiveMore(Push(Push(a, b), c), d, 15);
    FiveMore(Push(Push(Push(a, b), c), d), e, 20);
    FiveMore(Push(Push(Push(Push(a, b), c), d), e), f, 25);
  }

  // A five-bit number as a word.
  function Digit(v: nat): Word
    requires v < 32
  {
    Word(v as bv32)
  }

  lemma FiveOfNat(v: nat)
    requires v < 32
    ensures FromNat(v, 5) == Five(Digit(v))
  {
    hide FromNat;
    FiveDigits(v);
    LowDigits(v);
    HighDigits(v);
  }

  lemma LowDigits(v: nat)
    requires v < 32
    ensures (v / 4 % 2 == 1) == (v as bv32 & 4 != 0) && (v / 2 % 2 == 1) == (v as bv32 & 2 != 0) && (v % 2 == 1) == (v as bv32 & 1 != 0)
  {
    if v < 16 {
      if v == 0 {} else if v == 1 {} else if v == 2 {} else if v == 3 {} else if v == 4 {} else if v == 5 {} else if v == 6 {}
      else if v == 7 {} else if v == 8 {} else if v == 9 {} else if v == 10 {} else if v == 11 {} else if v == 12 {}
      else if v == 13 {} else if v == 14 {} else { assert v == 15; }
    } else {
      if v == 16 {} else if v == 17 {} else if v == 18 {} else if v == 19 {} else if v == 20 {} else if v == 21 {} else if v == 22 {}
      else if v == 23 {} else if v == 24 {} else if v == 25 {} else if v == 26 {} else if v == 27 {} else if v == 28 {}
      else if v == 29 {} else if v == 30 {} else { assert v == 31; }
    }
  }

  lemma HighDigits(v: nat)
    requires v < 32
    ensures (v / 16 % 2 == 1) == (v as bv32 & 16 != 0) && (v / 8 % 2 == 1) == (v as bv32 & 8 != 0)
  {
    if v < 16 {
      if v == 0 {} else if v == 1 {} else if v == 2 {} else if v == 3 {} else if v == 4 {} else if v == 5 {} else if v == 6 {}
      else if v == 7 {} else if v == 8 {} else if v == 9 {} else if v == 10 {} else if v == 11 {} else if v == 12 {}
      else if v == 13 {} else if v == 14 {} else { assert v == 15; }
    } else {
      if v == 16 {} else if v == 17 {} else if v == 18 {} else if v == 19 {} else if v == 20 {} else if v == 21 {} else if v == 22 {}
      else if v == 23 {} else if v == 24 {} else if v == 25 {} else if v == 26 {} else if v == 27 {} else if v == 28 {}
      else if v == 29 {} else if v == 30 {} else { assert v == 31; }
    }
  }

  // ---------- the step ----------

  lemma FiveOfDigit(x: Word, v: nat)
    requires v < 32 && Low(x) == Digit(v)
    ensures Five(x) == FromNat(v, 5)
  {
    hide FromNat, Five, Low, Digit;
    FiveOfNat(v);
    FiveOfLow(x);
  }

  lemma ThirtyIs(x: Word)
    ensures Thirty(x) == Five(Down(Down(Down(Down(Down(x)))))) + Five(Down(Down(Down(Down(x)))))
                       + Five(Down(Down(Down(x)))) + Five(Down(Down(x))) + Five(Down(x)) + Five(x)
  {
    hide Five, Down;
  }

  // A number below 2^30 and a word with the same six digits in base 32 have the same thirty bits.
  lemma NumberWord(n: nat, x: Word, a: nat, b: nat, c: nat, d: nat, e: nat, f: nat)
    requires a < 32 && b < 32 && c < 32 && d < 32 && e < 32 && f < 32
    requires n == Push(Push(Push(Push(Push(a, b), c), d), e), f)
    requires Low(x) == Digit(f) && Low(Down(x)) == Digit(e) && Low(Down(Down(x))) == Digit(d)
    requires Low(Down(Down(Down(x)))) == Digit(c) && Low(Down(Down(Down(Down(x))))) == Digit(b)
    requires Low(Down(Down(Down(Down(Down(x)))))) == Digit(a)
    ensures FromNat(n, 30) == Thirty(x)
  {
    hide *;
    SixDigits(a, b, c, d, e, f);
    ThirtyIs(x);
    FiveOfDigit(x, f);
    FiveOfDigit(Down(x), e);
    FiveOfDigit(Down(Down(x)), d);
    FiveOfDigit(Down(Down(Down(x))), c);
    FiveOfDigit(Down(Down(Down(Down(x)))), b);
    FiveOfDigit(Down(Down(Down(Down(Down(x))))), a);
  }

  lemma Generator0()
    ensures Generator(0) == Thirty(GeneratorWord(0))
  {
    hide FromNat, Five, Thirty, SixFives;
    NumberWord(0x3b6a57b2, Word(0x3b6a57b2), 29, 22, 20, 21, 29, 18);
  }

  lemma Generator1()
    ensures Generator(1) == Thirty(GeneratorWord(1))
  {
    hide FromNat, Five, Thirty, SixFives;
    NumberWord(0x26508e6d, Word(0x26508e6d), 19, 5, 1, 3, 19, 13);
  }

  lemma Generator2()
    ensures Generator(2) == Thirty(GeneratorWord(2))
  {
    hide FromNat, Five, Thirty, SixFives;
    NumberWord(0x1ea119fa, Word(0x1ea119fa), 15, 10, 2, 6, 15, 26);
  }

  lemma Generator3()
    ensures Generator(3) == Thirty(GeneratorWord(3))
  {
    hide FromNat, Five, Thirty, SixFives;
    NumberWord(0x3d4233dd, Word(0x3d4233dd), 30, 20, 4, 12, 30, 29);
  }

  lemma Generator4()
    ensures Generator(4) == Thirty(GeneratorWord(4))
  {
    hide FromNat, Five, Thirty, SixFives;
    NumberWord(0x2a1462b3, Word(0x2a1462b3), 21, 1, 8, 24, 21, 19);
  }

  lemma OneWord()
    ensures FromNat(0x1, 30) == Thirty(Word(0x1))
  {
    hide FromNat, Five, Thirty, SixFives;
    NumberWord(0x1, Word(0x1), 0, 0, 0, 0, 0, 1);
  }

  lemma MWord()
    ensures FromNat(0x2bc830a3, 30) == Thirty(Word(0x2bc830a3))
  {
    hide FromNat, Five, Thirty, SixFives;
    NumberWord(0x2bc830a3, Word(0x2bc830a3), 21, 28, 16, 12, 5, 3);
  }

  lemma ZeroWord()
    ensures Thirty(Word(0)) == Falses(30)
  {
    assert Five(Word(0)) == Falses(5);
    assert Down(Word(0)) == Word(0);
  }

  // The five generators as words.
  function GeneratorWord(i: nat): Word
    requires i < 5
  {
    if i == 0 then Word(0x3b6a57b2) else if i == 1 then Word(0x26508e6d) else if i == 2 then Word(0x1ea119fa)
    else if i == 3 then Word(0x3d4233dd) else Word(0x2a1462b3)
  }

  function Pick(on: bool, i: nat): Word
    requires i < 5
  {
    if on then GeneratorWord(i) else Word(0)
  }

  function Selected(top: bits): Word
    requires |top| == 5
  {
    XorWords(Pick(top[4], 0), XorWords(Pick(top[3], 1), XorWords(Pick(top[2], 2), XorWords(Pick(top[1], 3), Pick(top[0], 4)))))
  }

  function PickBits(b: bool, i: nat): (bs: bits)
    requires i < 5
    ensures |bs| == 30
  {
    if b then Generator(i) else Falses(30)
  }

  lemma SelectionIsXor(top: bits)
    requires |top| == 5
    ensures Selection(top) == Xor(PickBits(top[4], 0), Xor(PickBits(top[3], 1), Xor(PickBits(top[2], 2),
              Xor(PickBits(top[1], 3), PickBits(top[0], 4)))))
  {
    hide Generator;
  }

  lemma PickWord(on: bool, i: nat)
    requires i < 5
    ensures PickBits(on, i) == Thirty(Pick(on, i))
  {
    hide Thirty, Generator, GeneratorWord;
    ZeroWord();
    GeneratorWords(i);
  }

  lemma GeneratorWords(i: nat)
    requires i < 5
    ensures Generator(i) == Thirty(GeneratorWord(i))
  {
    hide Thirty, Generator, GeneratorWord;
    Generator0();
    Generator1();
    Generator2();
    Generator3();
    Generator4();
  }

  lemma SelectionWord(top: bits)
    requires |top| == 5
    ensures Selection(top) == Thirty(Selected(top))
  {
    hide Xor, Thirty, Generator, PickBits, Pick, Selection, XorWords;
    SelectionIsXor(top);
    PickWord(top[4], 0);
    PickWord(top[3], 1);
    PickWord(top[2], 2);
    PickWord(top[1], 3);
    PickWord(top[0], 4);
    var w3 := XorWords(Pick(top[1], 3), Pick(top[0], 4));
    var w2 := XorWords(Pick(top[2], 2), w3);
    var w1 := XorWords(Pick(top[3], 1), w2);
    XorThirty(Pick(top[1], 3), Pick(top[0], 4));
    XorThirty(Pick(top[2], 2), w3);
    XorThirty(Pick(top[3], 1), w2);
    XorThirty(Pick(top[4], 0), w1);
  }

  lemma SelectedIsBits(t: Word)
    ensures Selected(Five(t)) == SelectedWord(t)
  {
    XorOrder(Pick(t.v & 1 != 0, 0).v, Pick(t.v & 2 != 0, 1).v, Pick(t.v & 4 != 0, 2).v, Pick(t.v & 8 != 0, 3).v,
             Pick(t.v & 16 != 0, 4).v);
  }

  lemma XorOrder(a: bv32, b: bv32, c: bv32, d: bv32, e: bv32)
    ensures a ^ (b ^ (c ^ (d ^ e))) == a ^ b ^ c ^ d ^ e
  {
  }

  // One step on bits is one step on words.
  lemma StepOnWords(c: Word, v: Word)
    ensures StepOne(Thirty(c), Five(v)) == Thirty(StepWord(c, v))
  {
    hide Xor, Thirty, Five, Selected, Enter, Selection, Top, XorWords, SelectedWord;
    SelectedIsBits(Top(c));
    ShiftIn(c, v);
    SelectionWord(Five(Top(c)));
    XorThirty(Enter(c, v), Selected(Five(Top(c))));
  }

  // The remainder after a sequence of five-bit numbers.
  function RunWords(c: Word, values: seq<nat>): Word
    requires AllFives(values)
    decreases values
  {
    if values == [] then c else RunWords(StepWord(c, Digit(values[0])), values[1..])
  }

  predicate AllFives(values: seq<nat>) {
    forall i | 0 <= i < |values| :: values[i] < 32
  }

  function Fives(values: seq<nat>): (groups: seq<bits>)
    ensures |groups| == |values| && AllWide(groups, 5)
  {
    seq(|values|, i requires 0 <= i < |values| => FromNat(values[i], 5))
  }

  // The checksum of a sequence of five-bit numbers can be computed on words.
  lemma {:induction false} RunOnWords(c: Word, values: seq<nat>)
    requires AllFives(values)
    ensures Run(Thirty(c), Fives(values)) == Thirty(RunWords(c, values))
    decreases values
  {
    hide Thirty, StepWord, StepOne, FromNat, Five, Digit;
    if values == [] {
    } else {
      var v := values[0];
      FiveOfNat(v);
      StepOnWords(c, Digit(v));
      RunOnWords(StepWord(c, Digit(v)), values[1..]);
      assert Fives(values) == [FromNat(v, 5)] + Fives(values[1..]);
      RunConcat(Thirty(c), [FromNat(v, 5)], Fives(values[1..]));
      OneGroup(Thirty(c), FromNat(v, 5));
    }
  }

  lemma OneGroup(chk: bits, g: bits)
    requires |chk| == 30 && |g| == 5
    ensures Run(chk, [g]) == StepOne(chk, g)
  {
    hide StepOne;
    assert [g][..0] == [];
  }
}
