/** The few JavaScript string operations the dashboard relies on:
    `toLowerCase`, `includes`, `split('-')[0]`, `join(', ')` and the
    `toFixed(2)` rendering of an amount. */
module JsText {

  function LowerChar(c: char): char {
    if 'A' <= c <= 'Z' then (c as int + 32) as char else c
  }

  /** `s.toLowerCase()` over ASCII letters. */
  function Lower(s: string): (r: string)
    ensures |r| == |s|
    ensures forall i :: 0 <= i < |s| ==> r[i] == LowerChar(s[i])
  {
    seq(|s|, i requires 0 <= i < |s| => LowerChar(s[i]))
  }

  /** `s.includes(sub)`: `sub` occurs in `s` as a contiguous piece. */
  predicate Includes(s: string, sub: string) {
    sub <= s || (s != [] && Includes(s[1..], sub))
  }

  /** `s.split('-')[0]`: everything before the first dash, or all of `s`. */
  function BeforeDash(s: string): (r: string)
    ensures r <= s
    ensures '-' !in r
    ensures |r| < |s| ==> s[|r|] == '-'
  {
    if s == [] || s[0] == '-' then [] else [s[0]] + BeforeDash(s[1..])
  }

  /** `parts.join(sep)`. */
  function Join(parts: seq<string>, sep: string): string {
    if parts == [] then []
    else if |parts| == 1 then parts[0]
    else Join(parts[..|parts| - 1], sep) + sep + parts[|parts| - 1]
  }

  function DigitChar(d: nat): char
    requires d < 10
  {
    ('0' as int + d) as char
  }

  /** The value of a decimal digit character. */
  function DigitValue(c: char): int {
    c as int - '0' as int
  }

  /** The value of a string of decimal digits, read most significant first. */
  function DigitsValue(s: string): int {
    if s == [] then 0 else DigitsValue(s[..|s| - 1]) * 10 + DigitValue(s[|s| - 1])
  }

  /** The decimal numeral of `n`, as `String(n)` writes it. */
  function Decimal(n: nat): (r: string)
    ensures |r| >= 1
    ensures forall i :: 0 <= i < |r| ==> '0' <= r[i] <= '9'
  {
    if n < 10 then [DigitChar(n)] else Decimal(n / 10) + [DigitChar(n % 10)]
  }

  /** Reading the numeral back gives the number. */
  lemma {:induction false} DecimalRoundTrip(n: nat)
    ensures DigitsValue(Decimal(n)) == n
  {
    if n < 10 {
      assert Decimal(n)[..0] == [];
    } else {
      var r := Decimal(n);
      assert r[..|r| - 1] == Decimal(n / 10);
      DecimalRoundTrip(n / 10);
    }
  }

  /** `(cents / 100).toFixed(2)` for a non-negative amount held in cents:
      the whole units in decimal, a point, and exactly two digits. */
  function Fixed2(cents: nat): (r: string)
    ensures '-' !in r
    ensures |r| >= 4 && r[|r| - 3] == '.'
    ensures forall i :: 0 <= i < |r| && i != |r| - 3 ==> '0' <= r[i] <= '9'
  {
    Decimal(cents / 100) + "." + [DigitChar(cents / 10 % 10), DigitChar(cents % 10)]
  }

  /** The number of cents a `toFixed(2)` rendering stands for: the units
      before the point times 100 plus the two digits after it. */
  function CentsOf(r: string): int {
    if |r| < 3 then 0 else DigitsValue(r[..|r| - 3]) * 100 + DigitsValue(r[|r| - 2..])
  }

  /** The rendering loses nothing: reading it back gives the cents. */
  lemma Fixed2RoundTrip(cents: nat)
    ensures CentsOf(Fixed2(cents)) == cents
  {
    var r := Fixed2(cents);
    assert r[..|r| - 3] == Decimal(cents / 100);
    DecimalRoundTrip(cents / 100);
    var tail := r[|r| - 2..];
    assert tail == [DigitChar(cents / 10 % 10), DigitChar(cents % 10)];
    assert tail[..1] == [DigitChar(cents / 10 % 10)];
    assert tail[..1][..0] == [];
    assert DigitValue(DigitChar(cents / 10 % 10)) == cents / 10 % 10;
    assert DigitValue(DigitChar(cents % 10)) == cents % 10;
    assert DigitsValue(tail[..1]) == cents / 10 % 10;
    assert DigitsValue(tail) == cents / 10 % 10 * 10 + cents % 10;
    var h, a := cents / 100, cents % 100;
    assert cents == 100 * h + a;
    assert cents / 10 == 10 * h + a / 10;
    assert cents / 10 % 10 == a / 10;
    assert cents % 10 == a % 10;
  }

  /** Two amounts render alike exactly when they are the same amount. */
  lemma Fixed2Injective(a: nat, b: nat)
    ensures Fixed2(a) == Fixed2(b) <==> a == b
  {
    Fixed2RoundTrip(a);
    Fixed2RoundTrip(b);
  }

  /** The part of `s` after its last dash (all of `s` without a dash). */
  function AfterLastDash(s: string): string {
    if s == [] || s[|s| - 1] == '-' then [] else AfterLastDash(s[..|s| - 1]) + [s[|s| - 1]]
  }

  /** The part of `s` before its last dash (empty without a dash). */
  function BeforeLastDash(s: string): string {
    if s == [] then []
    else if s[|s| - 1] == '-' then s[..|s| - 1]
    else BeforeLastDash(s[..|s| - 1])
  }

  /** Joining `d` and a dash-free `f` with a dash can be undone at the last
      dash, whatever dashes `d` holds. */
  lemma {:induction false} LastDashSplit(d: string, f: string)
    requires '-' !in f
    ensures BeforeLastDash(d + "-" + f) == d
    ensures AfterLastDash(d + "-" + f) == f
  {
    var s := d + "-" + f;
    if f == [] {
      assert s[..|s| - 1] == d;
    } else {
      var g := f[..|f| - 1];
      assert s[..|s| - 1] == d + "-" + g;
      assert s[|s| - 1] == f[|f| - 1];
      assert '-' !in g by {
        forall i | 0 <= i < |g| ensures g[i] != '-' {
          assert g[i] == f[i];
        }
      }
      LastDashSplit(d, g);
      assert g + [f[|f| - 1]] == f;
    }
  }

  /** A piece found at position `i` is included. */
  lemma {:induction false} IncludesAt(s: string, sub: string, i: nat)
    requires i + |sub| <= |s| && s[i..i + |sub|] == sub
    ensures Includes(s, sub)
  {
    if i > 0 {
      assert s[1..][i - 1..i - 1 + |sub|] == s[i..i + |sub|];
      IncludesAt(s[1..], sub, i - 1);
    }
  }

  /** A string lacking one of the characters of `sub` does not include it. */
  lemma {:induction false} MissingCharExcludes(s: string, sub: string, c: char)
    requires c in sub && c !in s
    ensures !Includes(s, sub)
  {
    if s != [] {
      assert c !in s[1..] by {
        forall i | 0 <= i < |s| - 1 ensures s[1..][i] != c {
          assert s[1..][i] == s[i + 1];
        }
      }
      MissingCharExcludes(s[1..], sub, c);
    }
  }

  /** Splitting `d + "-" + rest` at its first dash gives back `d` exactly when
      `d` has no dash of its own; otherwise it gives the part of `d` before
      its first dash. */
  lemma {:induction false} BeforeDashOfJoined(d: string, rest: string)
    ensures BeforeDash(d + "-" + rest) == BeforeDash(d)
    ensures BeforeDash(d) == d <==> '-' !in d
  {
    if d != [] && d[0] != '-' {
      assert (d + "-" + rest)[1..] == d[1..] + "-" + rest;
      BeforeDashOfJoined(d[1..], rest);
    }
  }
}
