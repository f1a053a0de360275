/** Small shared vocabulary: optional values, decimal rendering of integers, text search. */
module Prelude {

  datatype Option<+T> = None | Some(value: T) {
    function GetOr(default: T): T {
      if Some? then value else default
    }
  }

  datatype Result<+R, +E> = Success(value: R) | Failure(error: E)

  function Max(a: int, b: int): int {
    if a < b then b else a
  }

  function Min(a: int, b: int): int {
    if a < b then a else b
  }

  // ----- Decimal text -----

  function NatText(n: nat): string {
    if n < 10 then [DigitChar(n)] else NatText(n / 10) + [DigitChar(n % 10)]
  }

  function DigitChar(d: nat): char
    requires d < 10
  {
    ('0' as int + d) as char
  }

  function IntText(n: int): string {
    if n < 0 then "-" + NatText(-n) else NatText(n)
  }

  predicate IsDigits(s: string) {
    forall i | 0 <= i < |s| :: '0' <= s[i] <= '9'
  }

  function NatValue(s: string): nat
    requires IsDigits(s)
  {
    if s == "" then 0
    else 10 * NatValue(s[..|s| - 1]) + (s[|s| - 1] as int - '0' as int)
  }

  lemma {:induction false} NatTextReadsBack(n: nat)
    ensures NatText(n) != "" && IsDigits(NatText(n)) && NatValue(NatText(n)) == n
  {
    if n < 10 {
      assert NatText(n)[..0] == "";
    } else {
      NatTextReadsBack(n / 10);
      var s := NatText(n);
      assert s[..|s| - 1] == NatText(n / 10);
    }
  }

  lemma IntTextInjective(a: int, b: int)
    requires IntText(a) == IntText(b)
    ensures a == b
  {
    NatTextReadsBack(if a < 0 then -a else a);
    NatTextReadsBack(if b < 0 then -b else b);
    assert a >= 0 ==> '0' <= IntText(a)[0] <= '9';
    assert b >= 0 ==> '0' <= IntText(b)[0] <= '9';
    assert IntText(a)[0] == '-' <==> a < 0;
    assert IntText(b)[0] == '-' <==> b < 0;
    if a < 0 {
      assert IntText(a)[1..] == NatText(-a);
      assert IntText(b)[1..] == NatText(-b);
    }
  }

  lemma IntTextAlphabet(n: int)
    ensures IntText(n) != ""
    ensures forall i | 0 <= i < |IntText(n)| :: IntText(n)[i] == '-' || '0' <= IntText(n)[i] <= '9'
  {
    NatTextReadsBack(if n < 0 then -n else n);
  }

  // ----- Text -----

  function LowerChar(c: char): char {
    if 'A' <= c <= 'Z' then (c as int + 32) as char else c
  }

  function Lower(s: string): string {
    seq(|s|, i requires 0 <= i < |s| => LowerChar(s[i]))
  }

  predicate OccursAt(s: string, part: string, i: nat) {
    i + |part| <= |s| && s[i..i + |part|] == part
  }

  predicate Contains(s: string, part: string) {
    exists i | 0 <= i <= |s| :: OccursAt(s, part, i)
  }

  ghost predicate Lacks(s: string, c: char) {
    forall i | 0 <= i < |s| :: s[i] != c
  }

  /** Two texts that agree as "field, separator, rest" agree in both parts. */
  lemma SplitAtFirst(sep: char, f: string, g: string, rest: string, rest': string)
    requires Lacks(f, sep) && Lacks(g, sep)
    requires f + [sep] + rest == g + [sep] + rest'
    ensures f == g && rest == rest'
  {
    var s := f + [sep] + rest;
    assert s[|f|] == sep && s[|g|] == sep;
    assert |f| == |g| by {
      if |f| < |g| { assert false; }
      if |g| < |f| { assert false; }
    }
    assert f == s[..|f|] && g == s[..|g|];
    assert rest == s[|f| + 1..] && rest' == s[|g| + 1..];
  }

  // ----- Duplicate-free listings -----

  ghost predicate Distinct<T>(s: seq<T>) {
    forall i, j | 0 <= i < j < |s| :: s[i] != s[j]
  }

  /** `order` lists every key exactly once; it stands for the row order a query happens to return. */
  ghost predicate Lists<V>(order: seq<string>, m: map<string, V>) {
    Distinct(order) && forall k :: k in order <==> k in m
  }
}
