/** Text primitives the component relies on: JavaScript's `String.prototype.includes`
    and the decimal rendering of an integer that string concatenation (`n + 'px'`)
    performs, together with a parser that shows the rendering loses nothing. */
module Strings {

  datatype Option<T> = None | Some(value: T)

  /** `s.includes(t)`: `t` occurs in `s` at some offset (the empty string occurs everywhere). */
  predicate Includes(s: string, t: string)
    decreases |s|
  {
    if |s| < |t| then false
    else if s[..|t|] == t then true
    else Includes(s[1..], t)
  }

  /** `t` occurs in `s` starting at index `i`. */
  predicate OccursAt(s: string, t: string, i: int) {
    0 <= i <= |s| - |t| && s[i..i + |t|] == t
  }

  /** A slice of the tail is the slice one further along. */
  lemma SliceOfTail(s: string, i: int, len: int)
    requires 1 <= i && 0 <= len && i + len <= |s|
    ensures s[1..][i - 1..i - 1 + len] == s[i..i + len]
  {
    var u, w := s[1..][i - 1..i - 1 + len], s[i..i + len];
    forall k | 0 <= k < len
      ensures u[k] == w[k]
    {
    }
  }

  /** `Includes` agrees with the plain definition of an occurrence at an offset. */
  lemma {:induction false} IncludesAtOffset(s: string, t: string)
    ensures Includes(s, t) <==> exists i :: OccursAt(s, t, i)
    decreases |s|
  {
    if |s| < |t| {
    } else if s[..|t|] == t {
      assert OccursAt(s, t, 0);
    } else {
      IncludesAtOffset(s[1..], t);
      // Past the first offset, the occurrences in `s` are those in its tail, shifted by one.
      forall i | OccursAt(s[1..], t, i)
        ensures OccursAt(s, t, i + 1)
      {
        SliceOfTail(s, i + 1, |t|);
      }
      forall i | OccursAt(s, t, i)
        ensures OccursAt(s[1..], t, i - 1)
      {
        assert i != 0;
        SliceOfTail(s, i, |t|);
      }
    }
  }

  /** A pattern that disagrees with `n` at one of its positions does not occur at that offset. */
  lemma MismatchAt(n: string, t: string, j: nat, i: int)
    requires 0 <= i <= |n| - |t| && j < |t| && n[i + j] != t[j]
    ensures !OccursAt(n, t, i)
  {
    assert n[i..i + |t|][j] == n[i + j];
  }

  /** A pattern character that never appears in `n` rules out every occurrence. */
  lemma {:induction false} AbsentCharRulesOut(n: string, t: string, j: nat)
    requires j < |t| && t[j] !in n
    ensures !Includes(n, t)
  {
    IncludesAtOffset(n, t);
    forall i | 0 <= i <= |n| - |t|
      ensures !OccursAt(n, t, i)
    {
      assert n[i + j] in n;
      MismatchAt(n, t, j, i);
    }
  }

  /** A pattern character that appears in `n` exactly once leaves a single candidate
      offset; if the pattern does not occur there, it does not occur at all. */
  lemma {:induction false} SingleAnchorRulesOut(a: string, b: string, t: string, j: nat)
    requires j < |t| && t[j] !in a && t[j] !in b
    requires j <= |a| ==> !OccursAt(a + [t[j]] + b, t, |a| - j)
    ensures !Includes(a + [t[j]] + b, t)
  {
    var n := a + [t[j]] + b;
    IncludesAtOffset(n, t);
    forall i | 0 <= i <= |n| - |t| && i != |a| - j
      ensures !OccursAt(n, t, i)
    {
      var k := i + j;
      if k < |a| {
        assert n[k] == a[k] && a[k] in a;
      } else {
        assert k - |a| - 1 < |b|;
        assert n[k] == b[k - |a| - 1] && b[k - |a| - 1] in b;
      }
      MismatchAt(n, t, j, i);
    }
  }

  /** A string includes each of its prefixes. */
  lemma PrefixIncludes(t: string, s: string)
    ensures Includes(t + s, t)
  {
    assert (t + s)[0..0 + |t|] == t;
    OccursAtIncludes(t + s, t, 0);
  }

  /** An occurrence at a known offset is an occurrence. */
  lemma OccursAtIncludes(s: string, t: string, i: int)
    requires OccursAt(s, t, i)
    ensures Includes(s, t)
  {
    IncludesAtOffset(s, t);
  }

  predicate IsDigit(c: char) {
    '0' <= c <= '9'
  }

  function DigitChar(d: nat): (c: char)
    requires d < 10
    ensures IsDigit(c)
  {
    ('0' as int + d) as char
  }

  function DigitValue(c: char): nat
    requires IsDigit(c)
  {
    c as int - '0' as int
  }

  /** The decimal digits of `n`, most significant first, with no leading zero. */
  function Digits(n: nat): (r: string)
    ensures |r| > 0 && forall i :: 0 <= i < |r| ==> IsDigit(r[i])
    ensures |r| > 1 ==> r[0] != '0'
    decreases n
  {
    if n < 10 then [DigitChar(n)] else Digits(n / 10) + [DigitChar(n % 10)]
  }

  /** JavaScript's `String(n)` for an integral number below 10^21 in magnitude (larger
      ones print in exponent notation): a minus sign, then the digits. */
  function IntToString(n: int): (r: string)
    ensures |r| > 0
  {
    if n < 0 then "-" + Digits(-n) else Digits(n)
  }

  /** Reads a non-empty run of decimal digits. */
  function ParseNat(s: string): Option<nat>
    decreases |s|
  {
    if |s| == 0 || !IsDigit(s[|s| - 1]) then None
    else if |s| == 1 then Some(DigitValue(s[0]))
    else match ParseNat(s[..|s| - 1])
      case None => None
      case Some(v) => Some(10 * v + DigitValue(s[|s| - 1]))
  }

  /** Reads an optionally negated run of decimal digits. */
  function ParseInt(s: string): Option<int> {
    if |s| > 0 && s[0] == '-' then
      match ParseNat(s[1..])
      case None => None
      case Some(v) => Some(-(v as int))
    else
      match ParseNat(s)
      case None => None
      case Some(v) => Some(v)
  }

  lemma {:induction false} ParseDigits(n: nat)
    ensures ParseNat(Digits(n)) == Some(n)
    decreases n
  {
    if n >= 10 {
      var s := Digits(n);
      assert s[..|s| - 1] == Digits(n / 10);
      ParseDigits(n / 10);
    }
  }

  /** Rendering an integer and reading it back gives the integer. */
  lemma IntToStringRoundTrip(n: int)
    ensures ParseInt(IntToString(n)) == Some(n)
  {
    if n < 0 {
      assert ("-" + Digits(-n))[1..] == Digits(-n);
      ParseDigits(-n);
    } else {
      ParseDigits(n);
    }
  }
}
