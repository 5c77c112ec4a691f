/** 64-bit arithmetic and the text operations the signature header needs: printing and parsing
    decimal integers, hexadecimal, splitting and trimming. */
module Text {
  import opened Options

  newtype byte = x: int | 0 <= x < 0x100

  const LIMIT := 0x8000_0000_0000_0000

  type int64 = x: int | -LIMIT <= x < LIMIT

  // ---------- 64-bit arithmetic ----------

  /** Two's complement. */
  function Wrap(x: int): (r: int64)
    ensures exists k :: r == x + k * (2 * LIMIT)
    ensures -LIMIT <= x < LIMIT ==> r == x
  {
    var r := (x + LIMIT) % (2 * LIMIT) - LIMIT;
    assert r == x + (-((x + LIMIT) / (2 * LIMIT))) * (2 * LIMIT);
    r
  }

  /** 64-bit subtraction. */
  function Minus(a: int64, b: int64): int64 { Wrap(a as int - b as int) }

  /** Negation wraps on one value only, the least. */
  lemma WrapNegates(d: int)
    requires -2 * LIMIT < d < 2 * LIMIT
    ensures Wrap(-d) == if Wrap(d) == -LIMIT then -LIMIT else -Wrap(d)
  {}

  // ---------- Decimal ----------

  predicate IsDigit(c: char) { '0' <= c <= '9' }

  predicate AllDigits(s: string) { forall i :: 0 <= i < |s| ==> IsDigit(s[i]) }

  function DigitChar(d: nat): (c: char)
    requires d < 10
    ensures IsDigit(c) && (c as int) - ('0' as int) == d
  {
    '0' + d as char
  }

  function Decimal(n: nat): (s: string)
    ensures |s| > 0 && AllDigits(s)
  {
    if n < 10 then [DigitChar(n)] else Decimal(n / 10) + [DigitChar(n % 10)]
  }

  function Value(s: string): nat
    requires AllDigits(s)
  {
    if s == "" then 0 else Value(s[..|s| - 1]) * 10 + (s[|s| - 1] as int - '0' as int)
  }

  lemma {:induction false} ValueOfDecimal(n: nat)
    ensures Value(Decimal(n)) == n
  {
    var s := Decimal(n);
    if n < 10 {
      assert s[..|s| - 1] == "";
    } else {
      assert s[..|s| - 1] == Decimal(n / 10);
      ValueOfDecimal(n / 10);
    }
  }

  /** `%d` */
  function PrintInt(n: int): (s: string)
    ensures |s| > 0 && AllDigits(s[1..]) && (IsDigit(s[0]) || s[0] == '-')
  {
    if n < 0 then "-" + Decimal(-n) else Decimal(n)
  }

  /** `strconv.ParseInt(s, 10, 64)`: an optional sign and at least one digit, in range. */
  function ParseInt(s: string): Option<int64> {
    if s == "" then None
    else
      var digits := if s[0] == '+' || s[0] == '-' then s[1..] else s;
      if digits == "" || !AllDigits(digits) then None
      else
        var v: int := if s[0] == '-' then 0 - Value(digits) else Value(digits);
        if -LIMIT <= v < LIMIT then Some(v) else None
  }

  lemma ParsePrinted(n: int64)
    ensures ParseInt(PrintInt(n)) == Some(n)
  {
    var s := PrintInt(n);
    if n < 0 {
      var m: nat := -(n as int);
      assert s[1..] == Decimal(m);
      ValueOfDecimal(m);
    } else {
      assert IsDigit(s[0]);
      ValueOfDecimal(n);
    }
  }

  predicate AllZeros(s: string) { forall i :: 0 <= i < |s| ==> s[i] == '0' }

  /** A string of digits is the decimal of its value, but for leading zeros. */
  lemma {:induction false} DigitsAreDecimal(s: string) returns (zeros: string)
    requires s != "" && AllDigits(s)
    ensures AllZeros(zeros) && s == zeros + Decimal(Value(s))
  {
    var init, d := s[..|s| - 1], s[|s| - 1];
    assert s == init + [d];
    if init == "" || Value(init) == 0 {
      assert Value("") == 0 && Decimal(Value(s)) == [d];
      zeros := init;
      if init != "" {
        var z := DigitsAreDecimal(init);
        assert Decimal(0) == "0";
      }
    } else {
      zeros := DigitsAreDecimal(init);
      assert Decimal(Value(s)) == Decimal(Value(init)) + [d];
    }
  }

  /** What parses, exactly: an optional sign and digits whose value, with that sign, is in range. */
  lemma ParsesExactly(s: string, v: int64)
    ensures ParseInt(s) == Some(v) <==>
              && s != "" && var digits := if s[0] in "+-" then s[1..] else s;
              && digits != "" && AllDigits(digits)
              && v == if s[0] == '-' then -(Value(digits) as int) else Value(digits)
  {}

  // ---------- Hexadecimal ----------

  predicate IsHex(c: char) { '0' <= c <= '9' || 'a' <= c <= 'f' }

  predicate AllHex(s: string) { forall i :: 0 <= i < |s| ==> IsHex(s[i]) }

  function HexChar(d: nat): (c: char)
    requires d < 16
    ensures IsHex(c)
    ensures d == (c as int) - if IsDigit(c) then '0' as int else 'a' as int - 10
  {
    if d < 10 then '0' + d as char else 'a' + (d - 10) as char
  }

  /** `hex.EncodeToString` */
  function Hex(b: seq<byte>): (s: string)
    ensures |s| == 2 * |b| && AllHex(s)
  {
    if b == [] then "" else [HexChar(b[0] as int / 16), HexChar(b[0] as int % 16)] + Hex(b[1..])
  }

  lemma {:induction false} HexInjective(b: seq<byte>, b': seq<byte>)
    requires Hex(b) == Hex(b')
    ensures b == b'
  {
    if b != [] {
      var s, s' := Hex(b), Hex(b');
      assert s[0] == s'[0] && s[1] == s'[1];
      assert b[0] as int / 16 == b'[0] as int / 16 && b[0] as int % 16 == b'[0] as int % 16;
      assert s[2..] == Hex(b[1..]) && s'[2..] == Hex(b'[1..]);
      HexInjective(b[1..], b'[1..]);
      assert b == [b[0]] + b[1..] && b' == [b'[0]] + b'[1..];
    }
  }

  function LowerChar(c: char): char { if 'A' <= c <= 'Z' then c - 'A' + 'a' else c }

  /** `strings.ToLower`, on ASCII letters. */
  function ToLower(s: string): (r: string)
    ensures |r| == |s| && forall i :: 0 <= i < |s| ==> r[i] == LowerChar(s[i])
  {
    seq(|s|, i requires 0 <= i < |s| => LowerChar(s[i]))
  }

  lemma HexIsLower(s: string)
    requires AllHex(s)
    ensures ToLower(s) == s
  {
    assert forall i :: 0 <= i < |s| ==> IsHex(s[i]) && ToLower(s)[i] == s[i];
  }

  function UpperChar(c: char): char { if 'a' <= c <= 'z' then c - 'a' + 'A' else c }

  function ToUpper(s: string): (r: string)
    ensures |r| == |s| && forall i :: 0 <= i < |s| ==> r[i] == UpperChar(s[i])
  {
    seq(|s|, i requires 0 <= i < |s| => UpperChar(s[i]))
  }

  /** Hex in capitals lowers to the hex. */
  lemma UpperHexLowers(b: seq<byte>)
    ensures ToLower(ToUpper(Hex(b))) == Hex(b)
  {
    var s := Hex(b);
    forall i | 0 <= i < |s| ensures ToLower(ToUpper(s))[i] == s[i] { assert IsHex(s[i]); }
  }

  // ---------- Splitting and trimming ----------

  ghost predicate Lacks(s: string, c: char) { c !in s }

  /** Puts one more character in front of the first part. */
  function Grow(c: char, parts: seq<string>): (r: seq<string>)
    requires |parts| > 0
    ensures |r| == |parts|
  {
    [[c] + parts[0]] + parts[1..]
  }

  /** `strings.Split(s, ",")` */
  function Split(s: string): (parts: seq<string>)
    ensures |parts| > 0
  {
    if s == "" then [""]
    else if s[0] == ',' then [""] + Split(s[1..])
    else Grow(s[0], Split(s[1..]))
  }

  lemma GrowLeft(c: char, p: seq<string>, q: seq<string>)
    requires |p| > 0
    ensures Grow(c, p + q) == Grow(c, p) + q
  {
    assert (p + q)[1..] == p[1..] + q;
  }

  lemma SplitComma(s: string)
    requires s != "" && s[0] == ','
    ensures Split(s) == [""] + Split(s[1..])
  {}

  /** A comma always separates: nothing on its left affects how its right is split. */
  lemma {:induction false} SplitAtComma(a: string, b: string)
    ensures Split(a + "," + b) == Split(a) + Split(b)
  {
    var s := a + "," + b;
    if a == "" {
      assert s[1..] == b;
      SplitComma(s);
    } else {
      assert s[0] == a[0] && s[1..] == a[1..] + "," + b;
      SplitAtComma(a[1..], b);
      var p, q := Split(a[1..]), Split(b);
      if a[0] == ',' {
        assert [""] + (p + q) == ([""] + p) + q;
      } else {
        GrowLeft(a[0], p, q);
      }
    }
  }

  lemma {:induction false} SplitWithoutComma(s: string)
    requires Lacks(s, ',')
    ensures Split(s) == [s]
  {
    if s != "" {
      assert Lacks(s[1..], ',');
      SplitWithoutComma(s[1..]);
      assert s == [s[0]] + s[1..];
    }
  }

  predicate IsSpace(c: char) {
    || '\t' <= c <= '\r' || c == ' ' || c == '\U{85}' || c == '\U{A0}' || c == '\U{1680}'
    || '\U{2000}' <= c <= '\U{200A}' || c == '\U{2028}' || c == '\U{2029}' || c == '\U{202F}'
    || c == '\U{205F}' || c == '\U{3000}'
  }

  /** `strings.TrimSpace` */
  function TrimSpace(s: string): string {
    if s == "" then ""
    else if IsSpace(s[0]) then TrimSpace(s[1..])
    else if IsSpace(s[|s| - 1]) then TrimSpace(s[..|s| - 1])
    else s
  }

  ghost predicate AllSpace(s: string) { forall i :: 0 <= i < |s| ==> IsSpace(s[i]) }

  ghost predicate Bare(s: string) { s != "" ==> !IsSpace(s[0]) && !IsSpace(s[|s| - 1]) }

  ghost predicate Trimmed(s: string, before: string, mid: string, behind: string) {
    s == before + mid + behind && AllSpace(before) && AllSpace(behind) && Bare(mid)
  }

  lemma TrimmedFront(c: char, s: string, before: string, mid: string, behind: string)
    requires Trimmed(s, before, mid, behind) && IsSpace(c)
    ensures Trimmed([c] + s, [c] + before, mid, behind)
  {
    assert [c] + s == ([c] + before) + mid + behind;
  }

  lemma TrimmedBack(c: char, s: string, before: string, mid: string, behind: string)
    requires Trimmed(s, before, mid, behind) && IsSpace(c)
    ensures Trimmed(s + [c], before, mid, behind + [c])
  {
    assert s + [c] == before + mid + (behind + [c]);
  }

  /** Trimming removes the spaces at both ends, all of them and nothing else. */
  lemma {:induction false} TrimsExactly(s: string) returns (before: string, behind: string)
    ensures Trimmed(s, before, TrimSpace(s), behind)
  {
    before, behind := "", "";
    if s == "" {
    } else if IsSpace(s[0]) {
      before, behind := TrimsExactly(s[1..]);
      TrimmedFront(s[0], s[1..], before, TrimSpace(s), behind);
      assert s == [s[0]] + s[1..];
      before := [s[0]] + before;
    } else if IsSpace(s[|s| - 1]) {
      before, behind := TrimsExactly(s[..|s| - 1]);
      TrimmedBack(s[|s| - 1], s[..|s| - 1], before, TrimSpace(s), behind);
      assert s == s[..|s| - 1] + [s[|s| - 1]];
      behind := behind + [s[|s| - 1]];
    }
  }

  predicate HasPrefix(s: string, p: string) { |p| <= |s| && s[..|p|] == p }
}
