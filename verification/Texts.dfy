/** Lines, decimal numbers, and `key=value` fields as text. */
module Texts {

  // ---------- Lines ----------

  predicate OneLine(s: string) {
    '\n' !in s
  }

  /** The position of the first newline, or the length. */
  function Break(s: string): (i: nat)
    ensures i <= |s| && OneLine(s[..i]) && (i < |s| ==> s[i] == '\n')
  {
    if s == "" || s[0] == '\n' then 0 else
      var i := 1 + Break(s[1..]);
      assert s[..i] == [s[0]] + s[1..][..i - 1];
      i
  }

  /** What repeated `getline` calls read: no line follows a final newline. */
  function Lines(s: string): (ls: seq<string>)
    ensures forall i :: 0 <= i < |ls| ==> OneLine(ls[i])
  {
    if s == "" then []
    else
      var i := Break(s);
      if i == |s| then [s] else [s[..i]] + Lines(s[i + 1..])
  }

  /** What Python's `split("\n")` gives: one piece more than there are newlines. */
  function Split(s: string): (ls: seq<string>)
    ensures |ls| > 0 && forall i :: 0 <= i < |ls| ==> OneLine(ls[i])
  {
    var i := Break(s);
    if i == |s| then [s] else [s[..i]] + Split(s[i + 1..])
  }

  /** The lines, each with a newline behind it. */
  function Ended(ls: seq<string>): string {
    if ls == [] then "" else ls[0] + "\n" + Ended(ls[1..])
  }

  /** The lines with a newline between any two. */
  function Joined(ls: seq<string>): string {
    if ls == [] then "" else if |ls| == 1 then ls[0] else ls[0] + "\n" + Joined(ls[1..])
  }

  ghost predicate AllOneLine(ls: seq<string>) {
    forall i :: 0 <= i < |ls| ==> OneLine(ls[i])
  }

  lemma {:induction false} BreakAt(s: string, t: string)
    requires OneLine(s)
    ensures Break(s + "\n" + t) == |s| && Break(s) == |s|
  {
    if s != "" {
      assert (s + "\n" + t)[1..] == s[1..] + "\n" + t;
      BreakAt(s[1..], t);
    }
  }

  lemma FirstLine(s: string, t: string)
    requires OneLine(s)
    ensures Lines(s + "\n" + t) == [s] + Lines(t) && Split(s + "\n" + t) == [s] + Split(t)
    ensures Split(s) == [s] && (s != "" ==> Lines(s) == [s])
  {
    BreakAt(s, t);
    assert (s + "\n" + t)[..|s|] == s && (s + "\n" + t)[|s| + 1..] == t;
  }

  lemma {:induction false} EndedLines(ls: seq<string>)
    requires AllOneLine(ls)
    ensures Lines(Ended(ls)) == ls && Split(Ended(ls)) == ls + [""]
  {
    if ls == [] {
      FirstLine("", "");
    } else {
      FirstLine(ls[0], Ended(ls[1..]));
      EndedLines(ls[1..]);
      assert ls == [ls[0]] + ls[1..];
      assert ls + [""] == [ls[0]] + (ls[1..] + [""]);
    }
  }

  lemma {:induction false} JoinedLines(ls: seq<string>)
    requires AllOneLine(ls) && ls != [] && ls[|ls| - 1] != ""
    ensures Lines(Joined(ls)) == ls && Split(Joined(ls)) == ls
  {
    if |ls| == 1 {
      FirstLine(ls[0], "");
    } else {
      FirstLine(ls[0], Joined(ls[1..]));
      JoinedLines(ls[1..]);
      assert ls == [ls[0]] + ls[1..];
    }
  }

  // ---------- Natural numbers ----------

  predicate IsDigit(c: char) {
    '0' <= c <= '9'
  }

  predicate AllDigits(s: string) {
    forall i :: 0 <= i < |s| ==> IsDigit(s[i])
  }

  function Digit(d: nat): char
    requires d < 10
  {
    ('0' as int + d) as char
  }

  function Digits(n: nat): string {
    if n < 10 then [Digit(n)] else Digits(n / 10) + [Digit(n % 10)]
  }

  function NatOf(s: string): nat
    requires AllDigits(s)
  {
    if s == "" then 0 else 10 * NatOf(s[..|s| - 1]) + (s[|s| - 1] as int - '0' as int)
  }

  lemma {:induction false} DigitsRead(n: nat)
    ensures Digits(n) != "" && AllDigits(Digits(n)) && NatOf(Digits(n)) == n
  {
    if n < 10 {
      assert [Digit(n)][..0] == "";
    } else {
      DigitsRead(n / 10);
      assert Digits(n)[..|Digits(n)| - 1] == Digits(n / 10);
    }
  }

  /** How many digits the text starts with. */
  function DigitRun(s: string): (n: nat)
    ensures n <= |s| && AllDigits(s[..n]) && (n < |s| ==> !IsDigit(s[n]))
  {
    if s == "" || !IsDigit(s[0]) then 0 else
      var n := 1 + DigitRun(s[1..]);
      assert s[..n] == [s[0]] + s[1..][..n - 1];
      n
  }

  lemma RunOf(s: string, t: string)
    requires AllDigits(s) && (t != "" ==> !IsDigit(t[0]))
    ensures DigitRun(s + t) == |s| && (s + t)[..|s|] == s && (s + t)[|s|..] == t
  {
    var n := DigitRun(s + t);
    assert forall i :: 0 <= i < |s| ==> (s + t)[i] == s[i];
    assert t != "" ==> (s + t)[|s|] == t[0];
    assert forall i :: 0 <= i < n ==> (s + t)[..n][i] == (s + t)[i];
  }

  /** Stream extraction of an unsigned number: the leading digits, at most `max`; zero without any. */
  function StreamNat(s: string, max: nat): nat {
    var n := DigitRun(s);
    if NatOf(s[..n]) <= max then NatOf(s[..n]) else max
  }

  /** Python's `int`, zero when the text is no number. */
  function PythonNat(s: string): nat {
    if s != "" && AllDigits(s) then NatOf(s) else 0
  }

  lemma NatReadBack(n: nat, max: nat)
    requires n <= max
    ensures StreamNat(Digits(n), max) == n && PythonNat(Digits(n)) == n
  {
    DigitsRead(n);
    RunOf(Digits(n), "");
    assert Digits(n) + "" == Digits(n);
    assert Digits(n)[..|Digits(n)|] == Digits(n);
  }

  // ---------- Decimal fractions ----------

  /** The nearest whole number of hundredths. */
  function Cents(x: real): int {
    (x * 100.0 + 0.5).Floor
  }

  function InCents(c: int): real {
    c as real / 100.0
  }

  /** Whole hundredths, which two decimals show in full. */
  predicate Whole(x: real) {
    InCents(Cents(x)) == x
  }

  /** A number with two decimals. A negative number keeps its sign even when it rounds to zero. */
  function Fixed2(x: real): string {
    var c := Cents(x);
    if x < 0.0 then "-" + Unsigned2(-c) else Unsigned2(c)
  }

  function Unsigned2(c: nat): string {
    Digits(c / 100) + "." + [Digit(c / 10 % 10), Digit(c % 10)]
  }

  function Power10(k: nat): nat
    ensures Power10(k) > 0
  {
    if k == 0 then 1 else 10 * Power10(k - 1)
  }

  /** Stream extraction of a plain decimal number: digits, then perhaps a point and more digits. */
  function StreamUnsigned(s: string): real {
    var n := DigitRun(s);
    var whole := NatOf(s[..n]) as real;
    if n < |s| && s[n] == '.' then
      var f := s[n + 1..];
      var k := DigitRun(f);
      whole + NatOf(f[..k]) as real / Power10(k) as real
    else
      whole
  }

  function StreamReal(s: string): real {
    if s != "" && s[0] == '-' then -StreamUnsigned(s[1..]) else StreamUnsigned(s)
  }

  /** Plain decimal notation: digits, with a point and more digits behind it or not. */
  predicate PlainDecimal(s: string) {
    var n := DigitRun(s);
    n > 0 && (n == |s| || (s[n] == '.' && AllDigits(s[n + 1..])))
  }

  /** Python's `float`, zero when the text is no number. */
  function PythonReal(s: string): real {
    if s != "" && s[0] == '-' then (if PlainDecimal(s[1..]) then -StreamUnsigned(s[1..]) else 0.0)
    else if PlainDecimal(s) then StreamUnsigned(s)
    else 0.0
  }

  lemma Unsigned2Read(c: nat)
    ensures PlainDecimal(Unsigned2(c)) && StreamUnsigned(Unsigned2(c)) == InCents(c)
    ensures Unsigned2(c) != "" && Unsigned2(c)[0] != '-'
  {
    var w, f := Digits(c / 100), [Digit(c / 10 % 10), Digit(c % 10)];
    var s := Unsigned2(c);
    DigitsRead(c / 100);
    RunOf(w, "." + f);
    assert s == w + ("." + f);
    assert s[|w| + 1..] == f;
    RunOf(f, "");
    assert f + "" == f && f[..2] == f;
    TwoDigits(c);
    assert IsDigit(s[0]) by { assert s[0] == w[0]; }
    HundredthsAdd(c);
  }

  lemma TwoDigits(c: nat)
    ensures var f := [Digit(c / 10 % 10), Digit(c % 10)]; AllDigits(f) && NatOf(f) == c % 100
    ensures Power10(2) == 100
  {
    var a, b := c / 10 % 10, c % 10;
    assert [Digit(a), Digit(b)][..1] == [Digit(a)] && [Digit(a)][..0] == "";
    assert NatOf([Digit(a)]) == a;
    assert Power10(1) == 10;
  }

  lemma HundredthsAdd(c: nat)
    ensures (c / 100) as real + (c % 100) as real / 100.0 == InCents(c)
  {
    assert c as real == 100.0 * (c / 100) as real + (c % 100) as real;
  }

  /** Two decimals read back as the nearest hundredth, by either reader. */
  lemma Fixed2Read(x: real)
    ensures StreamReal(Fixed2(x)) == InCents(Cents(x)) && PythonReal(Fixed2(x)) == InCents(Cents(x))
  {
    hide StreamUnsigned, PlainDecimal, Unsigned2;
    var c := Cents(x);
    if x < 0.0 {
      Unsigned2Read(-c);
      assert ("-" + Unsigned2(-c))[1..] == Unsigned2(-c);
    } else {
      Unsigned2Read(c);
    }
  }

  // ---------- Numbers are one line ----------

  lemma DigitsOneLine(s: string)
    requires AllDigits(s)
    ensures OneLine(s)
  {
  }

  lemma NatOneLine(n: nat)
    ensures OneLine(Digits(n))
  {
    DigitsRead(n);
    DigitsOneLine(Digits(n));
  }

  lemma Fixed2OneLine(x: real)
    ensures OneLine(Fixed2(x))
  {
    var c := Cents(x);
    var n: nat := if c < 0 then -c else c;
    NatOneLine(n / 100);
    TwoDigits(n);
  }
}
