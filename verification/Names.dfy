/** The names the driver derives from a volume name, and why they never collide. */
module Names {
  predicate IsDigit(c: char) {
    '0' <= c <= '9'
  }

  /** Decimal printing of a list index. */
  function Decimal(n: nat): string {
    if n < 10 then [('0' as int + n) as char] else Decimal(n / 10) + [('0' as int + n % 10) as char]
  }

  predicate AllDigits(s: string) {
    forall i | 0 <= i < |s| :: IsDigit(s[i])
  }

  /** The number a string of digits denotes. */
  function Denoted(s: string): int {
    if s == [] then 0 else 10 * Denoted(s[..|s| - 1]) + (s[|s| - 1] as int - '0' as int)
  }

  lemma {:induction false} DenotedDecimal(n: nat)
    ensures Denoted(Decimal(n)) == n && AllDigits(Decimal(n)) && |Decimal(n)| > 0
    decreases n
  {
    var s := Decimal(n);
    if n < 10 {
      assert s[..|s| - 1] == [];
    } else {
      DenotedDecimal(n / 10);
      assert s[..|s| - 1] == Decimal(n / 10);
    }
  }

  lemma DecimalIsInjective(m: nat, n: nat)
    requires Decimal(m) == Decimal(n)
    ensures m == n
  {
    DenotedDecimal(m);
    DenotedDecimal(n);
  }

  lemma NoLonger(a: string, d: string, b: string, e: string)
    requires a + d == b + e && AllDigits(d) && b != [] && !IsDigit(b[|b| - 1])
    ensures |b| <= |a|
  {
    var last := (a + d)[|b| - 1];
    assert last == b[|b| - 1];
    assert forall k | |a| <= k < |a + d| :: IsDigit((a + d)[k]);
  }

  /** A string splits in only one way into a part that does not end in a digit and digits. */
  lemma DigitsAtTheEnd(a: string, d: string, b: string, e: string)
    requires a + d == b + e && AllDigits(d) && AllDigits(e)
    requires a != [] && !IsDigit(a[|a| - 1]) && b != [] && !IsDigit(b[|b| - 1])
    ensures a == b && d == e
  {
    NoLonger(a, d, b, e);
    NoLonger(b, e, a, d);
    var s := a + d;
    assert a == s[..|a|] && b == s[..|b|];
    assert d == s[|a|..] && e == s[|b|..];
  }

  const SPLIT_SUFFIX := "-split"

  function SplitName(volumeId: string): string {
    volumeId + SPLIT_SUFFIX
  }

  lemma SplitNameIsInjective(v: string, w: string)
    requires SplitName(v) == SplitName(w)
    ensures v == w
  {
    assert v == SplitName(v)[..|SplitName(v)| - |SPLIT_SUFFIX|];
    assert w == SplitName(w)[..|SplitName(w)| - |SPLIT_SUFFIX|];
  }

  function ClaimStem(prefix: string, name: string): string {
    (if prefix != "" then prefix + "-" else "") + name + "-lower"
  }

  function ClaimName(prefix: string, name: string, index: nat): string {
    ClaimStem(prefix, name) + Decimal(index)
  }

  lemma StemIsInjective(prefix: string, v: string, w: string)
    requires ClaimStem(prefix, v) == ClaimStem(prefix, w)
    ensures v == w
  {
    var p := if prefix != "" then prefix + "-" else "";
    var s := ClaimStem(prefix, v);
    assert v == s[|p|..|s| - |"-lower"|] && w == s[|p|..|s| - |"-lower"|];
  }

  /** Claims of different volumes, or of different places in one split, have different names:
      for all volume names, even ones that look like claim names themselves. */
  lemma ClaimNameIsInjective(prefix: string, v: string, i: nat, w: string, j: nat)
    requires ClaimName(prefix, v, i) == ClaimName(prefix, w, j)
    ensures v == w && i == j
  {
    var a, b := ClaimStem(prefix, v), ClaimStem(prefix, w);
    DenotedDecimal(i);
    DenotedDecimal(j);
    assert a[|a| - 1] == "-lower"[5] && b[|b| - 1] == "-lower"[5];
    DigitsAtTheEnd(a, Decimal(i), b, Decimal(j));
    DecimalIsInjective(i, j);
    StemIsInjective(prefix, v, w);
  }
}
