/** Parsing one row of the funded-address table (funded/parse.go). */
module TsvParse {
  import opened Common
  import opened Decimal
  import Builder

  // Two's-complement wrap-around of a 64-bit int, and its conversion to uint64.
  function WrapInt64(n: int): int {
    (n + TWO_63) % TWO_64 - TWO_63
  }

  function ToUint64(n: int): nat {
    n % TWO_64
  }

  // Accumulates digits with wrap-around; ok exactly on non-empty strings of digits.
  method ParseIntBytes(b: string) returns (n: int, ok: bool)
    ensures ok <==> b != [] && AllDigits(b)
    ensures ok ==> n == WrapInt64(Value(b))
    ensures !ok ==> n == 0
  {
    if |b| == 0 {
      return 0, false;
    }
    n := 0;
    for i := 0 to |b|
      invariant AllDigits(b[..i])
      invariant n == WrapInt64(Value(b[..i]))
    {
      var c := b[i];
      if c < '0' || c > '9' {
        assert c in b;
        return 0, false;
      }
      n := WrapInt64(n * 10 + DigitValue(c));
      assert b[..i + 1][..i] == b[..i] && b[..i + 1][i] == c;
      assert b[..i + 1] == b[..i] + [c];
      WrapStep(Value(b[..i]), DigitValue(c));
    }
    assert b[..|b|] == b;
    ok := true;
  }

  lemma WrapStep(v: nat, d: nat)
    ensures WrapInt64(WrapInt64(v) * 10 + d) == WrapInt64(v * 10 + d)
  {
    var q := (v + TWO_63) / TWO_64;
    assert WrapInt64(v) == v - q * TWO_64;
    assert WrapInt64(v) * 10 + d + TWO_63 == (v * 10 + d + TWO_63) + (-10 * q) * TWO_64;
    AddMultiple(v * 10 + d + TWO_63, -10 * q);
  }

  lemma AddMultiple(a: int, k: int)
    ensures (a + k * TWO_64) % TWO_64 == a % TWO_64
  {
  }

  // Read back as unsigned, the parsed number is the written one modulo 2^64.
  lemma UnsignedOfWrapped(v: nat)
    ensures ToUint64(WrapInt64(v)) == v % TWO_64
  {
    var q := (v + TWO_63) / TWO_64;
    assert WrapInt64(v) == v + (-q) * TWO_64;
    AddMultiple(v, -q);
  }

  // ---------- one line ----------

  // unicode.IsSpace
  predicate IsSpace(c: char) {
    || c == ' ' || 9 as char <= c <= 13 as char || c == '\U{85}' || c == '\U{A0}'
    || c == '\U{1680}' || '\U{2000}' <= c <= '\U{200A}' || c == '\U{2028}' || c == '\U{2029}'
    || c == '\U{202F}' || c == '\U{205F}' || c == '\U{3000}'
  }

  // The code points, as Unicode's White_Space property lists them.
  lemma SpaceCodes(c: char)
    ensures IsSpace(c) <==> c as int in {9, 10, 11, 12, 13, 32, 133, 160, 5760, 8192, 8193, 8194, 8195, 8196, 8197, 8198,
                                         8199, 8200, 8201, 8202, 8232, 8233, 8239, 8287, 12288}
  {
  }

  // bytes.TrimSpace on a line read as Unicode code points.
  function TrimLeft(s: string): string {
    if s != [] && IsSpace(s[0]) then TrimLeft(s[1..]) else s
  }

  function TrimRight(s: string): string {
    if s != [] && IsSpace(s[|s| - 1]) then TrimRight(s[..|s| - 1]) else s
  }

  function TrimSpace(s: string): string {
    TrimRight(TrimLeft(s))
  }

  // bytes.IndexByte(s, '\t')
  function IndexTab(s: string): (i: Option<nat>)
    ensures i.Some? ==> i.value < |s| && s[i.value] == '\t' && forall k | 0 <= k < i.value :: s[k] != '\t'
    ensures i.None? ==> '\t' !in s
  {
    if s == [] then None
    else if s[0] == '\t' then Some(0)
    else
      match IndexTab(s[1..])
      case None => None
      case Some(i) => Some(i + 1)
  }

  function ParsedRow(line: string): Option<Builder.Row> {
    match IndexTab(line)
    case None => None
    case Some(tab) =>
      var digits := TrimSpace(line[tab + 1..]);
      if digits != [] && AllDigits(digits) then Some(Builder.Row(line[..tab], Value(digits) % TWO_64)) else None
  }

  method ParseTSVLine(line: string) returns (addr: string, balance: int, ok: bool)
    ensures ok <==> ParsedRow(line).Some?
    ensures ok ==> ParsedRow(line) == Some(Builder.Row(addr, ToUint64(balance)))
  {
    var tab := IndexTab(line);
    if tab.None? {
      return [], 0, false;
    }
    balance, ok := ParseIntBytes(TrimSpace(line[tab.value + 1..]));
    if !ok {
      return [], 0, false;
    }
    addr := line[..tab.value];
    UnsignedOfWrapped(Value(TrimSpace(line[tab.value + 1..])));
  }

  predicate AllSpace(s: string) {
    forall c | c in s :: IsSpace(c)
  }

  // The line is an address without tabs, a tab, and a numeral that may be surrounded by blanks.
  ghost predicate RowSyntax(line: string, addr: string, left: string, digits: string, right: string) {
    && line == addr + "\t" + left + digits + right
    && '\t' !in addr && AllSpace(left) && AllSpace(right)
    && digits != [] && AllDigits(digits)
  }

  ghost predicate Written(line: string, row: Builder.Row) {
    exists left, digits, right ::
      RowSyntax(line, row.addr, left, digits, right) && row.balance == Value(digits) % TWO_64
  }

  // The parser accepts exactly the lines of that shape, with the value of the numeral modulo 2^64.
  lemma ParsedRowIff(line: string, row: Builder.Row)
    ensures ParsedRow(line) == Some(row) <==> Written(line, row)
  {
    if ParsedRow(line) == Some(row) {
      ParsedIsWritten(line, row);
    }
    if Written(line, row) {
      var left, digits, right :|
        RowSyntax(line, row.addr, left, digits, right) && row.balance == Value(digits) % TWO_64;
      ParseFormatted(line, row.addr, left, digits, right);
    }
  }

  lemma ParsedIsWritten(line: string, row: Builder.Row)
    requires ParsedRow(line) == Some(row)
    ensures Written(line, row)
  {
    var tab := IndexTab(line).value;
    var rest := line[tab + 1..];
    var left := TrimLeftSplit(rest);
    var right := TrimRightSplit(TrimLeft(rest));
    JoinParts(line, tab, left, TrimSpace(rest), right);
  }

  lemma JoinParts(line: string, tab: nat, left: string, digits: string, right: string)
    requires tab < |line| && line[tab] == '\t' && '\t' !in line[..tab]
    requires line[tab + 1..] == left + (digits + right)
    requires AllSpace(left) && AllSpace(right) && digits != [] && AllDigits(digits)
    ensures RowSyntax(line, line[..tab], left, digits, right)
  {
    assert line == line[..tab] + [line[tab]] + line[tab + 1..];
    assert line == line[..tab] + "\t" + left + digits + right;
  }

  lemma ParseFormatted(line: string, addr: string, left: string, digits: string, right: string)
    requires RowSyntax(line, addr, left, digits, right)
    ensures ParsedRow(line) == Some(Builder.Row(addr, Value(digits) % TWO_64))
  {
    hide TrimSpace, Value, AllDigits, AllSpace;
    var rest := left + (digits + right);
    assert line == addr + "\t" + rest;
    FirstTab(line, addr, rest);
    TrimmedDigits(left, digits, right);
  }

  lemma FirstTab(line: string, addr: string, rest: string)
    requires line == addr + "\t" + rest && '\t' !in addr
    ensures IndexTab(line) == Some(|addr|) && line[..|addr|] == addr && line[|addr| + 1..] == rest
  {
    hide IndexTab;
    assert line[|addr|] == '\t';
    forall k | 0 <= k < |addr| ensures line[k] != '\t' {
      assert line[k] == addr[k];
    }
  }

  lemma TrimmedDigits(left: string, digits: string, right: string)
    requires AllSpace(left) && AllSpace(right) && digits != [] && AllDigits(digits)
    ensures TrimSpace(left + (digits + right)) == digits
  {
    hide TrimLeft, TrimRight;
    assert digits[0] in digits && digits[|digits| - 1] in digits;
    TrimLeftDrops(left, digits + right);
    TrimRightDrops(digits, right);
  }

  lemma {:induction false} TrimLeftDrops(left: string, s: string)
    requires AllSpace(left) && s != [] && !IsSpace(s[0])
    ensures TrimLeft(left + s) == s
  {
    if left == [] {
      assert left + s == s;
    } else {
      assert (left + s)[1..] == left[1..] + s;
      TrimLeftDrops(left[1..], s);
    }
  }

  lemma {:induction false} TrimRightDrops(s: string, right: string)
    requires AllSpace(right) && s != [] && !IsSpace(s[|s| - 1])
    ensures TrimRight(s + right) == s
  {
    if right == [] {
      assert s + right == s;
    } else {
      var all := s + right;
      assert all[..|all| - 1] == s + right[..|right| - 1];
      TrimRightDrops(s, right[..|right| - 1]);
    }
  }

  lemma {:induction false} TrimLeftSplit(s: string) returns (left: string)
    ensures AllSpace(left) && s == left + TrimLeft(s)
  {
    hide IsSpace;
    if s != [] && IsSpace(s[0]) {
      var rest := TrimLeftSplit(s[1..]);
      left := [s[0]] + rest;
      assert TrimLeft(s) == TrimLeft(s[1..]);
      assert s == [s[0]] + (rest + TrimLeft(s[1..]));
    } else {
      left := [];
    }
  }

  lemma {:induction false} TrimRightSplit(s: string) returns (right: string)
    ensures AllSpace(right) && s == TrimRight(s) + right
  {
    hide IsSpace;
    if s != [] && IsSpace(s[|s| - 1]) {
      right := TrimRightSplit(s[..|s| - 1]);
      right := right + [s[|s| - 1]];
      assert s == s[..|s| - 1] + [s[|s| - 1]];
    } else {
      right := [];
    }
  }

  // A row as the table's publisher writes it is read back, for every unsigned 64-bit balance.
  lemma RowRoundTrip(line: string, addr: string, balance: nat)
    requires '\t' !in addr && balance < TWO_64
    requires line == addr + "\t" + Numeral(balance)
    ensures ParsedRow(line) == Some(Builder.Row(addr, balance))
  {
    hide ParsedRow, Numeral, Value;
    var digits, none := Numeral(balance), "";
    assert line == addr + "\t" + none + digits + none;
    assert RowSyntax(line, addr, none, digits, none);
    ParseFormatted(line, addr, none, digits, none);
    NumeralValue(balance);
  }
}
