/** The few java.lang.String operations the core relies on, over `seq<char>`. */
module Text {

  /** String.startsWith. */
  predicate StartsWith(s: string, prefix: string) {
    |prefix| <= |s| && s[..|prefix|] == prefix
  }

  /** String.contains: some suffix of `s` starts with `t`. */
  predicate Contains(s: string, t: string)
    decreases |s|
  {
    StartsWith(s, t) || (|s| > 0 && Contains(s[1..], t))
  }

  /** A string contains every `t` that starts at one of its positions. */
  lemma {:induction false} ContainsAt(s: string, t: string, k: nat)
    requires k <= |s| && StartsWith(s[k..], t)
    ensures Contains(s, t)
    decreases k
  {
    if k == 0 {
      assert s[0..] == s;
    } else {
      assert s[1..][k - 1..] == s[k..];
      ContainsAt(s[1..], t, k - 1);
    }
  }

  /** A string lacking one of the characters of `t` does not contain `t`. */
  lemma {:induction false} MissingChar(s: string, t: string, c: char)
    requires c in t && c !in s
    ensures !Contains(s, t)
    decreases |s|
  {
    if |t| <= |s| {
      var i :| 0 <= i < |t| && t[i] == c;
      assert s[..|t|][i] == s[i];
    }
    if |s| > 0 {
      assert forall x :: x in s[1..] ==> x in s;
      MissingChar(s[1..], t, c);
    }
  }

  /** A string none of whose suffixes starts with `t` does not contain `t`. */
  lemma {:induction false} NoOccurrence(s: string, t: string)
    requires forall k :: 0 <= k <= |s| ==> !StartsWith(s[k..], t)
    ensures !Contains(s, t)
    decreases |s|
  {
    assert s[0..] == s;
    if |s| > 0 {
      forall k | 0 <= k <= |s[1..]| ensures !StartsWith(s[1..][k..], t) {
        assert s[1..][k..] == s[k + 1..];
      }
      NoOccurrence(s[1..], t);
    }
  }

  function DigitChar(d: nat): char
    requires d < 10
  {
    "0123456789"[d]
  }

  /** Integer.toString for a non-negative value: decimal, no leading zeros. */
  function NatToDecimal(n: nat): (s: string)
    ensures |s| >= 1
    ensures n < 10 <==> |s| == 1
    ensures forall i :: 0 <= i < |s| ==> s[i] in "0123456789"
  {
    if n < 10 then [DigitChar(n)] else NatToDecimal(n / 10) + [DigitChar(n % 10)]
  }

  /** Distinct numbers print differently, so labels built from them are distinct. */
  lemma {:induction false} NatToDecimalInjective(n: nat, m: nat)
    requires NatToDecimal(n) == NatToDecimal(m)
    ensures n == m
  {
    if n < 10 || m < 10 {
      assert n < 10 && m < 10;
      assert DigitChar(n) == NatToDecimal(n)[0] == NatToDecimal(m)[0] == DigitChar(m);
    } else {
      var sn, sm := NatToDecimal(n / 10), NatToDecimal(m / 10);
      assert NatToDecimal(n) == sn + [DigitChar(n % 10)];
      assert NatToDecimal(m) == sm + [DigitChar(m % 10)];
      assert |sn| == |sm|;
      assert sn == NatToDecimal(n)[..|sn|] == NatToDecimal(m)[..|sm|] == sm;
      assert DigitChar(n % 10) == NatToDecimal(n)[|sn|] == NatToDecimal(m)[|sm|] == DigitChar(m % 10);
      NatToDecimalInjective(n / 10, m / 10);
    }
  }
}
