/**
 * The few JavaScript string operations the client relies on, over `seq<char>`:
 * ASCII case mapping, `trim`, `startsWith`/`endsWith`/`includes`, and the decimal
 * rendering of an integer (template literals and `String(n)`).
 */
module JsText {

  function LowerChar(c: char): char {
    if 'A' <= c <= 'Z' then (c as int + 32) as char else c
  }

  function UpperChar(c: char): char {
    if 'a' <= c <= 'z' then (c as int - 32) as char else c
  }

  /** `toLowerCase()`, for the ASCII letters. */
  function Lower(s: string): (r: string)
    ensures |r| == |s|
    ensures forall i :: 0 <= i < |s| ==> r[i] == LowerChar(s[i])
  {
    seq(|s|, i requires 0 <= i < |s| => LowerChar(s[i]))
  }

  /** `toUpperCase()`, for the ASCII letters. */
  function Upper(s: string): (r: string)
    ensures |r| == |s|
    ensures forall i :: 0 <= i < |s| ==> r[i] == UpperChar(s[i])
  {
    seq(|s|, i requires 0 <= i < |s| => UpperChar(s[i]))
  }

  /** The characters `String.prototype.trim` removes (WhiteSpace and LineTerminator of ECMAScript). */
  predicate IsWhiteSpace(c: char) {
    c == '\t' || c == '\n' || c == '\U{000B}' || c == '\U{000C}' || c == '\r' || c == ' '
    || c == '\U{00A0}' || c == '\U{1680}' || ('\U{2000}' <= c <= '\U{200A}')
    || c == '\U{2028}' || c == '\U{2029}' || c == '\U{202F}' || c == '\U{205F}'
    || c == '\U{3000}' || c == '\U{FEFF}'
  }

  function TrimStart(s: string): string
    decreases |s|
  {
    if s != [] && IsWhiteSpace(s[0]) then TrimStart(s[1..]) else s
  }

  function TrimEnd(s: string): string
    decreases |s|
  {
    if s != [] && IsWhiteSpace(s[|s| - 1]) then TrimEnd(s[..|s| - 1]) else s
  }

  function Trim(s: string): string {
    TrimEnd(TrimStart(s))
  }

  predicate AllWhiteSpace(s: string) {
    forall i :: 0 <= i < |s| ==> IsWhiteSpace(s[i])
  }

  lemma {:induction false} TrimStartEmpty(s: string)
    ensures TrimStart(s) == [] <==> AllWhiteSpace(s)
    decreases |s|
  {
    if s != [] && IsWhiteSpace(s[0]) {
      TrimStartEmpty(s[1..]);
      assert AllWhiteSpace(s[1..]) ==> AllWhiteSpace(s) by {
        if AllWhiteSpace(s[1..]) {
          forall i | 0 <= i < |s| ensures IsWhiteSpace(s[i]) {
            if i > 0 { assert s[i] == s[1..][i - 1]; }
          }
        }
      }
      assert AllWhiteSpace(s) ==> AllWhiteSpace(s[1..]) by {
        if AllWhiteSpace(s) {
          forall i | 0 <= i < |s| - 1 ensures IsWhiteSpace(s[1..][i]) {
            assert s[1..][i] == s[i + 1];
          }
        }
      }
    }
  }

  lemma {:induction false} TrimEndEmpty(s: string)
    ensures TrimEnd(s) == [] <==> AllWhiteSpace(s)
    decreases |s|
  {
    if s != [] && IsWhiteSpace(s[|s| - 1]) {
      var p := s[..|s| - 1];
      TrimEndEmpty(p);
      assert AllWhiteSpace(p) ==> AllWhiteSpace(s) by {
        if AllWhiteSpace(p) {
          forall i | 0 <= i < |s| ensures IsWhiteSpace(s[i]) {
            if i < |s| - 1 { assert s[i] == p[i]; }
          }
        }
      }
      assert AllWhiteSpace(s) ==> AllWhiteSpace(p) by {
        if AllWhiteSpace(s) {
          forall i | 0 <= i < |p| ensures IsWhiteSpace(p[i]) {
            assert p[i] == s[i];
          }
        }
      }
    }
  }

  lemma {:induction false} TrimStartKeepsSuffix(s: string)
    ensures |TrimStart(s)| <= |s| && TrimStart(s) == s[|s| - |TrimStart(s)|..]
    ensures TrimStart(s) != [] ==> !IsWhiteSpace(TrimStart(s)[0])
    decreases |s|
  {
    if s != [] && IsWhiteSpace(s[0]) {
      TrimStartKeepsSuffix(s[1..]);
    }
  }

  /** `s.trim() === ''` exactly when every character of `s` is white space. */
  lemma TrimIsEmpty(s: string)
    ensures Trim(s) == [] <==> AllWhiteSpace(s)
  {
    var t := TrimStart(s);
    TrimEndEmpty(t);
    TrimStartEmpty(s);
    TrimStartKeepsSuffix(s);
    if t != [] {
      assert !IsWhiteSpace(t[0]);
      assert !AllWhiteSpace(s) by { assert s[|s| - |t|] == t[0]; }
    }
  }

  predicate StartsWith(s: string, prefix: string) {
    |prefix| <= |s| && s[..|prefix|] == prefix
  }

  predicate EndsWith(s: string, suffix: string) {
    |suffix| <= |s| && s[|s| - |suffix|..] == suffix
  }

  /** `s.includes(part)`. */
  predicate Contains(s: string, part: string)
    decreases |s|
  {
    StartsWith(s, part) || (s != [] && Contains(s[1..], part))
  }

  /** `part` occurs in `s` at position `i`. */
  predicate OccursAt(s: string, part: string, i: int) {
    0 <= i && i + |part| <= |s| && s[i..i + |part|] == part
  }

  lemma {:induction false} ContainsIffOccurs(s: string, part: string)
    ensures Contains(s, part) <==> exists i :: OccursAt(s, part, i)
    decreases |s|
  {
    if StartsWith(s, part) {
      assert OccursAt(s, part, 0);
    } else if s == [] {
    } else {
      ContainsIffOccurs(s[1..], part);
      if exists i :: OccursAt(s[1..], part, i) {
        var i :| OccursAt(s[1..], part, i);
        assert s[1..][i..i + |part|] == s[i + 1..i + 1 + |part|];
        assert OccursAt(s, part, i + 1);
      }
      if exists i :: OccursAt(s, part, i) {
        var i :| OccursAt(s, part, i);
        assert i != 0;
        assert s[1..][i - 1..i - 1 + |part|] == s[i..i + |part|];
        assert OccursAt(s[1..], part, i - 1);
      }
    }
  }

  /** `s.indexOf(part, from)`: the first position at or after `from` where `part` occurs, or -1. */
  function IndexFrom(s: string, part: string, from: nat): (r: int)
    ensures r == -1 || (from <= r && OccursAt(s, part, r))
    ensures forall k :: from <= k && (r == -1 || k < r) ==> !OccursAt(s, part, k)
    decreases |s| - from
  {
    if from + |part| > |s| then -1
    else if s[from..from + |part|] == part then from
    else IndexFrom(s, part, from + 1)
  }

  /** `s.indexOf(part)`. */
  function IndexOf(s: string, part: string): int {
    IndexFrom(s, part, 0)
  }

  /** `s.replace(part, rep)` with a string pattern: only the first occurrence is replaced. */
  function ReplaceFirst(s: string, part: string, rep: string): (r: string)
    ensures (forall k :: !OccursAt(s, part, k)) ==> r == s
    ensures StartsWith(s, part) ==> r == rep + s[|part|..]
  {
    var i := IndexOf(s, part);
    if i < 0 then s
    else
      assert OccursAt(s, part, i);
      assert StartsWith(s, part) ==> OccursAt(s, part, 0);
      s[..i] + rep + s[i + |part|..]
  }

  function DigitChar(d: nat): char
    requires d < 10
  {
    ('0' as int + d) as char
  }

  function NatText(n: nat): (r: string)
    ensures r != []
    ensures forall i :: 0 <= i < |r| ==> '0' <= r[i] <= '9'
    decreases n
  {
    if n < 10 then [DigitChar(n)] else NatText(n / 10) + [DigitChar(n % 10)]
  }

  /** `String(n)` for an integer `n`. */
  function IntText(n: int): string {
    if n < 0 then "-" + NatText(-n) else NatText(n)
  }

  predicate IsDigit(c: char) {
    '0' <= c <= '9'
  }

  predicate AllDigits(s: string) {
    forall i :: 0 <= i < |s| ==> IsDigit(s[i])
  }

  /** The value of a run of decimal digits, read left to right (leading zeros allowed). */
  function DigitsValue(s: string): nat
    requires AllDigits(s)
    decreases |s|
  {
    if s == [] then 0 else 10 * DigitsValue(s[..|s| - 1]) + (s[|s| - 1] as int - '0' as int)
  }

  /** Reading back the digits `String(n)` writes gives `n`. */
  lemma {:induction false} DigitsValueOfNatText(n: nat)
    ensures AllDigits(NatText(n)) && DigitsValue(NatText(n)) == n
    decreases n
  {
    if n >= 10 {
      var p := NatText(n / 10);
      var t := p + [DigitChar(n % 10)];
      assert t[..|t| - 1] == p;
      DigitsValueOfNatText(n / 10);
    }
  }

  lemma {:induction false} NatTextInjective(n: nat, m: nat)
    requires NatText(n) == NatText(m)
    ensures n == m
    decreases n
  {
    if n < 10 || m < 10 {
    } else {
      var a, b := NatText(n / 10), NatText(m / 10);
      assert a + [DigitChar(n % 10)] == b + [DigitChar(m % 10)];
      assert a == (a + [DigitChar(n % 10)])[..|a|];
      assert b == (b + [DigitChar(m % 10)])[..|b|];
      assert n % 10 == m % 10;
      NatTextInjective(n / 10, m / 10);
    }
  }

  /** The text after the last `sep` (all of it when there is none). */
  function AfterLast(s: string, sep: char): string
    decreases |s|
  {
    if s == [] then []
    else if s[|s| - 1] == sep then []
    else AfterLast(s[..|s| - 1], sep) + [s[|s| - 1]]
  }

  lemma {:induction false} AfterLastOf(p: string, sep: char, d: string)
    requires sep !in d
    ensures AfterLast(p + [sep] + d, sep) == d
    decreases |d|
  {
    var s := p + [sep] + d;
    if d == [] {
      assert s[|s| - 1] == sep;
    } else {
      var d' := d[..|d| - 1];
      assert s[..|s| - 1] == p + [sep] + d';
      assert s[|s| - 1] == d[|d| - 1];
      assert sep !in d' by { assert forall c :: c in d' ==> c in d; }
      AfterLastOf(p, sep, d');
      assert d' + [d[|d| - 1]] == d;
    }
  }

  /** A decimal counter after a non-digit separator can be read back from the end of the text. */
  lemma CounterSuffixInjective(p: string, q: string, sep: char, n: nat, m: nat)
    requires !('0' <= sep <= '9')
    requires p + [sep] + NatText(n) == q + [sep] + NatText(m)
    ensures n == m
  {
    assert sep !in NatText(n) && sep !in NatText(m);
    AfterLastOf(p, sep, NatText(n));
    AfterLastOf(q, sep, NatText(m));
    NatTextInjective(n, m);
  }
}
