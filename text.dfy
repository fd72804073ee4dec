/** String operations the handlers rely on: `str.lower()` (on ASCII),
    the substring test `q in s`, and `str(n)` / `int(s)` on naturals. */
module Text {

  /** Python's `str.lower()` on one character, restricted to ASCII letters;
      every other character (the Hebrew of the catalog among them) is kept. */
  function LowerChar(c: char): char
  {
    if 'A' <= c <= 'Z' then (c as int + 32) as char else c
  }

  /** Same length; every ASCII capital becomes its small letter and nothing else changes. */
  function Lower(s: string): (r: string)
    ensures |r| == |s|
    ensures forall i :: 0 <= i < |r| ==> !('A' <= r[i] <= 'Z')
    ensures forall i :: 0 <= i < |s| && !('A' <= s[i] <= 'Z') ==> r[i] == s[i]
    ensures forall i :: 0 <= i < |s| && 'A' <= s[i] <= 'Z' ==> r[i] as int == s[i] as int + 32
  {
    seq(|s|, i requires 0 <= i < |s| => LowerChar(s[i]))
  }

  /** Lowering twice is lowering once: the result holds no upper-case letter. */
  lemma LowerIdempotent(s: string)
    ensures Lower(Lower(s)) == Lower(s)
  {
    var once := Lower(s);
    forall i | 0 <= i < |s|
      ensures Lower(once)[i] == once[i]
    {
      assert LowerChar(LowerChar(s[i])) == LowerChar(s[i]);
    }
  }

  predicate IsPrefix(p: string, s: string)
  {
    |p| <= |s| && s[..|p|] == p
  }

  /** `sub` occurs in `s` starting at index `i`. */
  predicate OccursAt(s: string, sub: string, i: int)
  {
    0 <= i && i + |sub| <= |s| && s[i..i + |sub|] == sub
  }

  /** Python's `sub in s` for strings, scanning the start positions left to right. */
  predicate Contains(s: string, sub: string)
    ensures Contains(s, sub) ==> |sub| <= |s|
    ensures sub == [] ==> Contains(s, sub)
    decreases |s|
  {
    IsPrefix(sub, s) || (|s| > 0 && Contains(s[1..], sub))
  }

  /** The scan agrees with the definition of a substring: some window of `s` is `sub`. */
  lemma {:induction false} ContainsIffOccurs(s: string, sub: string)
    ensures Contains(s, sub) <==> exists i :: OccursAt(s, sub, i)
    decreases |s|
  {
    if IsPrefix(sub, s) {
      assert OccursAt(s, sub, 0);
    } else if |s| > 0 {
      ContainsIffOccurs(s[1..], sub);
      if Contains(s[1..], sub) {
        var j :| OccursAt(s[1..], sub, j);
        assert s[1..][j..j + |sub|] == s[j + 1..j + 1 + |sub|];
        assert OccursAt(s, sub, j + 1);
      }
      if i :| OccursAt(s, sub, i) {
        assert i != 0;
        assert s[1..][i - 1..i - 1 + |sub|] == s[i..i + |sub|];
        assert OccursAt(s[1..], sub, i - 1);
      }
    }
  }

  function DigitChar(d: nat): char
    requires d < 10
  {
    ('0' as int + d) as char
  }

  /** Python's `str(n)` for a natural number: decimal digits, no leading zero. */
  function NatToString(n: nat): (s: string)
    ensures 1 <= |s|
    ensures (|s| == 1) == (n < 10)
    ensures forall i :: 0 <= i < |s| ==> '0' <= s[i] <= '9'
    ensures n >= 10 ==> s[0] != '0'
    decreases n
  {
    if n < 10 then [DigitChar(n)] else NatToString(n / 10) + [DigitChar(n % 10)]
  }

  /** Python's `int(s)` for a string of decimal digits. */
  function DecimalValue(s: string): nat
    requires forall i :: 0 <= i < |s| ==> '0' <= s[i] <= '9'
  {
    if s == [] then 0
    else DecimalValue(s[..|s| - 1]) * 10 + (s[|s| - 1] as int - '0' as int)
  }

  /** `int(str(n)) == n`. */
  lemma {:induction false} DecimalRoundTrip(n: nat)
    ensures DecimalValue(NatToString(n)) == n
    decreases n
  {
    var s := NatToString(n);
    if n >= 10 {
      DecimalRoundTrip(n / 10);
      assert s[..|s| - 1] == NatToString(n / 10);
    }
  }

  /** Different numbers print differently, so `prefix + str(i)` tells the `i` apart. */
  lemma NatToStringInjective(m: nat, n: nat)
    requires NatToString(m) == NatToString(n)
    ensures m == n
  {
    DecimalRoundTrip(m);
    DecimalRoundTrip(n);
  }

  lemma PrefixedNatInjective(prefix: string, m: nat, n: nat)
    requires prefix + NatToString(m) == prefix + NatToString(n)
    ensures m == n
  {
    var a, b := prefix + NatToString(m), prefix + NatToString(n);
    assert a[|prefix|..] == NatToString(m);
    assert b[|prefix|..] == NatToString(n);
    NatToStringInjective(m, n);
  }
}
