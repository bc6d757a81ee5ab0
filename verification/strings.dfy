/** Decimal rendering of integers the way Python's `str(int)` and f-strings
    print them, its inverse on digit strings, and the facts about `/`-separated
    paths that the storage layout relies on. */
module Strings {

  predicate IsDigit(c: char) {
    '0' <= c <= '9'
  }

  predicate AllDigits(s: string) {
    forall i | 0 <= i < |s| :: IsDigit(s[i])
  }

  function DigitValue(c: char): nat
    requires IsDigit(c)
  {
    c as int - '0' as int
  }

  function DigitChar(d: nat): (c: char)
    requires d < 10
    ensures IsDigit(c) && DigitValue(c) == d
  {
    ('0' as int + d) as char
  }

  /** `str(n)` for a non-negative Python int: decimal digits, no leading zero. */
  function NatToString(n: nat): (s: string)
    ensures |s| >= 1
    ensures AllDigits(s)
    ensures |s| > 1 ==> s[0] != '0'
    decreases n
  {
    if n < 10 then [DigitChar(n)] else NatToString(n / 10) + [DigitChar(n % 10)]
  }

  /** Reads a string of decimal digits back as a number. */
  function ParseNat(s: string): nat
    requires AllDigits(s)
    decreases |s|
  {
    if s == [] then 0 else ParseNat(s[..|s| - 1]) * 10 + DigitValue(s[|s| - 1])
  }

  /** Reading back what `NatToString` printed gives the number again. */
  lemma {:induction false} ParseNatToString(n: nat)
    ensures ParseNat(NatToString(n)) == n
    decreases n
  {
    if n >= 10 {
      var s := NatToString(n / 10);
      var t := s + [DigitChar(n % 10)];
      assert t[..|t| - 1] == s;
      ParseNatToString(n / 10);
    }
  }

  lemma NatToStringInjective(m: nat, n: nat)
    ensures NatToString(m) == NatToString(n) ==> m == n
  {
    ParseNatToString(m);
    ParseNatToString(n);
  }

  /** `str(i)` for any Python int: a minus sign before the digits of `|i|`. */
  function IntToString(i: int): (s: string)
    ensures |s| >= 1
    ensures '/' !in s
    ensures s[0] == '-' <==> i < 0
  {
    NoSlashInDigits(NatToString(if i < 0 then -i else i));
    if i < 0 then "-" + NatToString(-i) else NatToString(i)
  }

  lemma IntToStringInjective(i: int, j: int)
    ensures IntToString(i) == IntToString(j) ==> i == j
  {
    if IntToString(i) == IntToString(j) {
      if i < 0 && j < 0 {
        assert NatToString(-i) == IntToString(i)[1..];
        NatToStringInjective(-i, -j);
      } else if i >= 0 && j >= 0 {
        NatToStringInjective(i, j);
      }
    }
  }

  lemma NoSlashInDigits(s: string)
    requires AllDigits(s)
    ensures '/' !in s
  {
  }

  /** A tail that starts with the only `/` it contains. */
  predicate SlashTail(t: string) {
    |t| > 0 && t[0] == '/' && '/' !in t[1..]
  }

  /** Position of the last `/` in `s`, or -1 when there is none. */
  function LastSlash(s: string): (k: int)
    ensures -1 <= k < |s|
    ensures k >= 0 ==> s[k] == '/'
    decreases |s|
  {
    if s == [] then -1
    else if s[|s| - 1] == '/' then |s| - 1
    else LastSlash(s[..|s| - 1])
  }

  /** The last `/` of `a + t` is the one that starts the tail `t`. */
  lemma {:induction false} LastSlashOfTail(a: string, t: string)
    requires SlashTail(t)
    ensures LastSlash(a + t) == |a|
    decreases |t|
  {
    var s := a + t;
    if |t| > 1 {
      assert t[|t| - 1] == t[1..][|t| - 2];
      var t' := t[..|t| - 1];
      assert t'[1..] == t[1..][..|t| - 2];
      assert s[..|s| - 1] == a + t';
      LastSlashOfTail(a, t');
    }
  }

  /** Splitting a string before its last `/` is unique: if `a1 + t1` and
      `a2 + t2` spell the same path and both tails hold exactly one leading
      `/`, the heads and the tails agree. */
  lemma SlashSplitUnique(a1: string, t1: string, a2: string, t2: string)
    requires SlashTail(t1) && SlashTail(t2)
    requires a1 + t1 == a2 + t2
    ensures a1 == a2 && t1 == t2
  {
    var s := a1 + t1;
    LastSlashOfTail(a1, t1);
    LastSlashOfTail(a2, t2);
    assert a1 == s[..|a1|] == a2;
    assert t1 == s[|a1|..] == t2;
  }

  predicate StartsWith(s: string, prefix: string) {
    |prefix| <= |s| && s[..|prefix|] == prefix
  }

  /** `t` occurs in `s` as a contiguous substring. */
  predicate Contains(s: string, t: string) {
    exists i | 0 <= i <= |s| :: StartsWith(s[i..], t)
  }

  lemma StartsWithAppend(s: string, t: string)
    ensures StartsWith(s + t, s)
  {
    assert (s + t)[..|s|] == s;
  }

  /** A prefix stays a prefix when more is appended. */
  lemma StartsWithExtend(s: string, prefix: string, t: string)
    requires StartsWith(s, prefix)
    ensures StartsWith(s + t, prefix)
  {
    assert (s + t)[..|prefix|] == s[..|prefix|];
  }

  /** What was appended last occurs in the result. */
  lemma ContainsAppended(s: string, t: string)
    ensures Contains(s + t, t)
  {
    assert (s + t)[|s|..] == t;
    assert StartsWith((s + t)[|s|..], t);
  }

  /** An occurrence survives appending more. */
  lemma ContainsExtend(s: string, t: string, u: string)
    requires Contains(s, t)
    ensures Contains(s + u, t)
  {
    var i :| 0 <= i <= |s| && StartsWith(s[i..], t);
    assert (s + u)[i..][..|t|] == s[i..][..|t|];
    assert StartsWith((s + u)[i..], t);
  }

  /** The shape of every object path the fetchers build: a fixed directory,
      the athlete id, then a tail that starts with the path's last `/`
      followed by a slash-free middle part and a fixed extension. */
  lemma PathShape(dir: string, athleteId: string, mid: string, n: string, ext: string)
    requires |mid| > 0 && mid[0] == '/' && '/' !in mid[1..]
    requires '/' !in n && '/' !in ext
    ensures dir + athleteId + mid + n + ext == dir + (athleteId + (mid + n + ext))
    ensures SlashTail(mid + n + ext)
  {
    var t := mid + n + ext;
    assert t[1..] == mid[1..] + n + ext;
  }

  /** The middle part of `pre + n + suf` is determined by the whole. */
  lemma MiddleInjective(pre: string, n1: string, n2: string, suf: string)
    ensures pre + n1 + suf == pre + n2 + suf ==> n1 == n2
  {
    if pre + n1 + suf == pre + n2 + suf {
      assert n1 == (pre + n1 + suf)[|pre|..|pre| + |n1|];
      assert n2 == (pre + n2 + suf)[|pre|..|pre| + |n2|];
    }
  }

  lemma DropPrefix(pre: string, x: string, y: string)
    ensures pre + x == pre + y ==> x == y
  {
    if pre + x == pre + y {
      assert x == (pre + x)[|pre|..];
    }
  }
}
