/** Fixed-point credit amounts (src-core/src/credits.rs:13-81): text in, millionths of a credit kept. */
module CreditAmounts {
  import opened Basics

  const MICRO: int := 1_000_000
  const MAX_DECIMALS: nat := 6
  const MAX_LENGTH: nat := 64

  function Ten(k: nat): nat { if k == 0 then 1 else 10 * Ten(k - 1) }

  predicate Digit(c: char) { '0' <= c <= '9' }

  predicate AllDigits(s: string) { forall k :: 0 <= k < |s| ==> Digit(s[k]) }

  /** The number a string of digits spells. */
  function ValueOf(s: string): nat
    requires AllDigits(s)
  {
    if s == [] then 0 else ValueOf(s[..|s| - 1]) * 10 + (s[|s| - 1] as int - '0' as int)
  }

  /** Unicode's White_Space characters, which str::trim removes. */
  predicate Blank(c: char) {
    || '\t' <= c <= '\r' || c == ' ' || c as int == 0x85 || c as int == 0xA0 || c as int == 0x1680
    || 0x2000 <= c as int <= 0x200A || c as int == 0x2028 || c as int == 0x2029 || c as int == 0x202F
    || c as int == 0x205F || c as int == 0x3000
  }

  function Trimmed(s: string): string {
    if s != [] && Blank(s[0]) then Trimmed(s[1..])
    else if s != [] && Blank(s[|s| - 1]) then Trimmed(s[..|s| - 1])
    else s
  }

  // ---------------------------------------------------------------- grammar

  /** t spells an amount: digits, and perhaps a point with one to six more. */
  predicate Spells(t: string, whole: string, fraction: string) {
    && |t| <= MAX_LENGTH
    && whole != [] && AllDigits(whole) && AllDigits(fraction) && |fraction| <= MAX_DECIMALS
    && t == if fraction == [] then whole else whole + "." + fraction
  }

  /** The exact amount, in millionths. */
  function Millionths(whole: string, fraction: string): nat
    requires AllDigits(whole) && AllDigits(fraction) && |fraction| <= MAX_DECIMALS
  {
    ValueOf(whole) * MICRO + ValueOf(fraction) * Ten(MAX_DECIMALS - |fraction|)
  }

  /** A credit is a million, its smallest part is one, and nothing smaller can be spelled. */
  lemma Units(t: string, whole: string, fraction: string)
    ensures Millionths("1", "") == 1_000_000 && Millionths("0", "000001") == 1 && Millionths("0", "1") == 100_000
    ensures Spells(t, whole, fraction) ==> |t| <= 64 && 1 <= |whole| && |fraction| <= 6
  {
    assert Ten(6) == 1_000_000 && Ten(5) == 100_000 by { assert Ten(3) == 1000; }
    assert ValueOf("000001") == ValueOf("00000") * 10 + 1 by { assert "000001"[..5] == "00000"; }
    assert ValueOf("00000") == ValueOf("0000") * 10 by { assert "00000"[..4] == "0000"; }
    assert ValueOf("0000") == ValueOf("000") * 10 by { assert "0000"[..3] == "000"; }
    assert ValueOf("000") == ValueOf("00") * 10 by { assert "000"[..2] == "00"; }
    assert ValueOf("00") == ValueOf("0") * 10 by { assert "00"[..1] == "0"; }
    assert "1"[..0] == "" && "0"[..0] == "";
  }

  lemma SpellingIsUnique(t: string, w: string, f: string, v: string, g: string)
    requires Spells(t, w, f) && Spells(t, v, g)
    ensures w == v && f == g
  {
    PointIsAfterWhole(t, w, f);
    PointIsAfterWhole(t, v, g);
  }

  lemma PointIsAfterWhole(t: string, w: string, f: string)
    requires Spells(t, w, f)
    ensures 0 < |w| <= |t| && t[..|w|] == w && (forall k :: 0 <= k < |w| ==> Digit(t[k]))
    ensures if f == [] then |w| == |t| else |w| < |t| && t[|w|] == '.' && t[|w| + 1..] == f
  {
    assert forall k :: 0 <= k < |w| ==> t[k] == w[k];
  }

  // ---------------------------------------------------------------- parsing

  method FindPoint(t: string) returns (at: nat)
    ensures at <= |t| && (at < |t| ==> t[at] == '.') && forall k :: 0 <= k < at ==> t[k] != '.'
  {
    at := 0;
    while at < |t| && t[at] != '.'
      invariant at <= |t| && forall k :: 0 <= k < at ==> t[k] != '.'
    {
      at := at + 1;
    }
  }

  method AreDigits(s: string) returns (yes: bool)
    ensures yes == AllDigits(s)
  {
    for i := 0 to |s|
      invariant forall k :: 0 <= k < i ==> Digit(s[k])
    {
      if !Digit(s[i]) { return false; }
    }
    return true;
  }

  /** The digits as an i64, if they fit. */
  method ParseInteger(s: string) returns (n: Option<int>)
    requires AllDigits(s)
    ensures n == if ValueOf(s) <= MAX_I64 then Some(ValueOf(s)) else None
  {
    var total := 0;
    for i := 0 to |s|
      invariant total == ValueOf(s[..i]) <= MAX_I64
    {
      assert s[..i + 1][..i] == s[..i];
      total := total * 10 + (s[i] as int - '0' as int);
      if total > MAX_I64 {
        PrefixIsLess(s, i + 1);
        return None;
      }
    }
    assert s[..|s|] == s;
    return Some(total);
  }

  lemma {:induction false} PrefixIsLess(s: string, n: nat)
    requires AllDigits(s) && n <= |s|
    ensures ValueOf(s[..n]) <= ValueOf(s)
    decreases |s|
  {
    if n < |s| {
      PrefixIsLess(s[..|s| - 1], n);
      assert s[..|s| - 1][..n] == s[..n];
    } else {
      assert s[..n] == s;
    }
  }

  method ParseFraction(s: string) returns (n: nat)
    requires AllDigits(s) && |s| <= MAX_DECIMALS
    ensures n == ValueOf(s) * Ten(MAX_DECIMALS - |s|)
  {
    n := 0;
    for i := 0 to |s|
      invariant n == ValueOf(s[..i])
    {
      assert s[..i + 1][..i] == s[..i];
      n := n * 10 + (s[i] as int - '0' as int);
    }
    assert s[..|s|] == s;
    for i := |s| to MAX_DECIMALS
      invariant n == ValueOf(s) * Ten(i - |s|)
    {
      n := n * 10;
    }
  }

  /** CreditAmount::parse; None stands for its error messages. The length limit counts bytes,
      which for the texts that get any further are the characters. */
  method Parse(text: string, credits: bool) returns (amount: Option<int>)
    ensures amount.Some? <==>
      credits && exists w, f :: Spells(Trimmed(text), w, f) && Millionths(w, f) <= MAX_I64
    ensures forall w, f :: Spells(Trimmed(text), w, f) && amount.Some? ==> amount.value == Millionths(w, f)
  {
    if !credits { return None; }
    var t := Trimmed(text);
    if t == [] || |t| > MAX_LENGTH || t[0] == '-' || t[0] == '+' { NothingSpelt(t); return None; }
    var at := FindPoint(t);
    var whole, fraction := t[..at], if at < |t| then t[at + 1..] else [];
    if at < |t| && fraction == [] { BadSpelling(t, at); return None; }
    var wholeDigits := AreDigits(whole);
    var fractionDigits := AreDigits(fraction);
    if whole == [] || !wholeDigits || |fraction| > MAX_DECIMALS || !fractionDigits { BadSpelling(t, at); return None; }
    assert Spells(t, whole, fraction);
    forall w, f | Spells(t, w, f) ensures w == whole && f == fraction { SpellingIsUnique(t, w, f, whole, fraction); }
    var units := ParseInteger(whole);
    var micro := ParseFraction(fraction);
    if units.None? { return None; }
    if units.value * MICRO > MAX_I64 || units.value * MICRO + micro > MAX_I64 { return None; }
    assert Spells(t, whole, fraction) && Millionths(whole, fraction) <= MAX_I64;
    return Some(units.value * MICRO + micro);
  }

  lemma NothingSpelt(t: string)
    requires t == [] || |t| > MAX_LENGTH || t[0] == '-' || t[0] == '+'
    ensures forall w, f :: !Spells(t, w, f)
  {
    forall w, f ensures !Spells(t, w, f) {
      if Spells(t, w, f) { PointIsAfterWhole(t, w, f); }
    }
  }

  lemma BadSpelling(t: string, at: nat)
    requires at <= |t| && (at < |t| ==> t[at] == '.') && forall k :: 0 <= k < at ==> t[k] != '.'
    requires var fraction := if at < |t| then t[at + 1..] else [];
      (at < |t| && fraction == []) || at == 0 || !AllDigits(t[..at]) || |fraction| > MAX_DECIMALS || !AllDigits(fraction)
    ensures forall w, f :: !Spells(t, w, f)
  {
    forall w, f ensures !Spells(t, w, f) {
      if Spells(t, w, f) { PointIsAfterWhole(t, w, f); }
    }
  }

  // --------------------------------------------------------------- printing

  function DigitOf(n: nat): char
    requires n < 10
  {
    '0' + n as char
  }

  function Decimal(n: nat): (s: string)
    ensures s != [] && AllDigits(s)
  {
    if n < 10 then [DigitOf(n)] else Decimal(n / 10) + [DigitOf(n % 10)]
  }

  function Padded(n: nat, k: nat): (s: string)
    ensures |s| == k && AllDigits(s)
  {
    if k == 0 then [] else Padded(n / 10, k - 1) + [DigitOf(n % 10)]
  }

  /** Display for CreditAmount. */
  function Display(amount: nat): string { Decimal(amount / MICRO) + "." + Padded(amount % MICRO, MAX_DECIMALS) }

  lemma {:induction false} DecimalIsRead(n: nat)
    ensures ValueOf(Decimal(n)) == n
  {
    if n >= 10 {
      DecimalIsRead(n / 10);
      assert Decimal(n)[..|Decimal(n)| - 1] == Decimal(n / 10);
    } else {
      assert ValueOf([]) == 0 && [DigitOf(n)][..0] == [];
    }
  }

  lemma {:induction false} DecimalLength(n: nat, k: nat)
    requires n < Ten(k) && k > 0
    ensures |Decimal(n)| <= k
  {
    if n >= 10 { DecimalLength(n / 10, k - 1); }
  }

  lemma {:induction false} PaddedIsRead(n: nat, k: nat)
    requires n < Ten(k)
    ensures ValueOf(Padded(n, k)) == n
  {
    if k > 0 {
      PaddedIsRead(n / 10, k - 1);
      assert Padded(n, k)[..k - 1] == Padded(n / 10, k - 1);
    }
  }

  lemma DisplaySpells(amount: nat)
    requires amount <= MAX_I64
    ensures var w, f := Decimal(amount / MICRO), Padded(amount % MICRO, MAX_DECIMALS);
      Spells(Display(amount), w, f) && Millionths(w, f) == amount
  {
    assert Ten(6) == 1_000_000 && Ten(13) == 1_000_000 * Ten(7) && Ten(7) == 10_000_000;
    DecimalLength(amount / MICRO, 13);
    DecimalIsRead(amount / MICRO);
    PaddedIsRead(amount % MICRO, MAX_DECIMALS);
    assert Ten(0) == 1;
  }

  /** Printing every amount there is and parsing it again gives the amount back. */
  method PrintAndParse(amount: nat) returns (parsed: Option<int>)
    requires amount <= MAX_I64
    ensures parsed == Some(amount)
  {
    DisplaySpells(amount);
    var s := Display(amount);
    assert Digit(s[0]) && Digit(s[|s| - 1]);
    parsed := Parse(s, true);
  }
}
