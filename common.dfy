/** Shared helpers: an Option type and the few string operations the
    bakery code relies on (ASCII case mapping, substring search, decimal
    digits, whitespace trimming). */
module Common {

  datatype Option<+T> = None | Some(value: T)

  /** `t` occurs in `s` starting at index `i`. */
  predicate OccursAt(s: string, t: string, i: nat)
  {
    i + |t| <= |s| && s[i..i + |t|] == t
  }

  /** JavaScript's `s.includes(t)`: `t` occurs somewhere in `s`. */
  predicate Contains(s: string, t: string)
    decreases |s|
  {
    t <= s || (|s| > 0 && Contains(s[1..], t))
  }

  lemma {:induction false} ContainsAt(s: string, t: string, i: nat)
    requires OccursAt(s, t, i)
    ensures Contains(s, t)
    decreases i
  {
    if i == 0 {
      assert s[..|t|] == t;
    } else {
      assert s[1..][i - 1..i - 1 + |t|] == s[i..i + |t|];
      ContainsAt(s[1..], t, i - 1);
    }
  }

  lemma {:induction false} ContainsWitness(s: string, t: string) returns (i: nat)
    requires Contains(s, t)
    ensures OccursAt(s, t, i)
    decreases |s|
  {
    if t <= s {
      i := 0;
      assert s[..|t|] == t;
    } else {
      var j := ContainsWitness(s[1..], t);
      i := j + 1;
      assert s[i..i + |t|] == s[1..][j..j + |t|];
    }
  }

  /** `Contains` agrees with the index-based definition of an occurrence. */
  lemma ContainsIff(s: string, t: string)
    ensures Contains(s, t) <==> exists i: nat :: OccursAt(s, t, i)
  {
    if Contains(s, t) {
      var i := ContainsWitness(s, t);
    }
    if exists i: nat :: OccursAt(s, t, i) {
      var i: nat :| OccursAt(s, t, i);
      ContainsAt(s, t, i);
    }
  }

  /** A string containing `t` contains it again once more text is put around it. */
  lemma ContainsExtended(pre: string, s: string, post: string, t: string)
    requires Contains(s, t)
    ensures Contains(pre + s + post, t)
  {
    var i := ContainsWitness(s, t);
    assert (pre + s + post)[|pre| + i..|pre| + i + |t|] == s[i..i + |t|];
    ContainsAt(pre + s + post, t, |pre| + i);
  }

  /** A character that cannot occur in `s` rules out every occurrence of a `t` starting with it. */
  lemma {:induction false} NotContainsChar(s: string, t: string, c: char)
    requires |t| > 0 && t[0] == c
    requires forall k :: 0 <= k < |s| ==> s[k] != c
    ensures !Contains(s, t)
    decreases |s|
  {
    if |s| > 0 {
      NotContainsChar(s[1..], t, c);
    }
  }

  // ---------------------------------------------------------------------
  // ASCII case mapping (JavaScript's toLowerCase/toUpperCase restricted to
  // the ASCII letters)

  function LowerChar(c: char): (r: char)
    ensures 'A' <= r <= 'Z' ==> false
    ensures !('A' <= c <= 'Z') ==> r == c
  {
    if 'A' <= c <= 'Z' then (c as int + 32) as char else c
  }

  function UpperChar(c: char): (r: char)
    ensures 'a' <= r <= 'z' ==> false
    ensures !('a' <= c <= 'z') ==> r == c
  {
    if 'a' <= c <= 'z' then (c as int - 32) as char else c
  }

  function ToLower(s: string): (r: string)
    ensures |r| == |s|
    ensures forall i :: 0 <= i < |s| ==> r[i] == LowerChar(s[i])
  {
    seq(|s|, i requires 0 <= i < |s| => LowerChar(s[i]))
  }

  function ToUpper(s: string): (r: string)
    ensures |r| == |s|
    ensures forall i :: 0 <= i < |s| ==> r[i] == UpperChar(s[i])
  {
    seq(|s|, i requires 0 <= i < |s| => UpperChar(s[i]))
  }

  /** Lower-casing twice is lower-casing once. */
  lemma ToLowerIdempotent(s: string)
    ensures ToLower(ToLower(s)) == ToLower(s)
  {
  }

  // ---------------------------------------------------------------------
  // Decimal digits

  predicate IsDigit(c: char)
  {
    '0' <= c <= '9'
  }

  predicate AllDigits(s: string)
  {
    forall i :: 0 <= i < |s| ==> IsDigit(s[i])
  }

  function DigitChar(d: nat): (c: char)
    requires d < 10
    ensures IsDigit(c)
  {
    ('0' as int + d) as char
  }

  function DigitValue(c: char): (d: nat)
    requires IsDigit(c)
    ensures d < 10 && DigitChar(d) == c
  {
    c as int - '0' as int
  }

  /** JavaScript's `n.toString()` for a non-negative integer. */
  function NatToString(n: nat): (s: string)
    decreases n
  {
    if n < 10 then [DigitChar(n)] else NatToString(n / 10) + [DigitChar(n % 10)]
  }

  /** The value of a string of decimal digits. */
  function ParseDigits(s: string): nat
    requires AllDigits(s)
    decreases |s|
  {
    if s == [] then 0 else 10 * ParseDigits(s[..|s| - 1]) + DigitValue(s[|s| - 1])
  }

  function Pow10(k: nat): (p: nat)
    ensures p >= 1
  {
    if k == 0 then 1 else 10 * Pow10(k - 1)
  }

  /** A number with k digits is printed as k digit characters, without a leading zero,
      and reading them back gives the number. */
  lemma {:induction false} NatToStringDigits(n: nat, k: nat)
    requires k >= 1 && Pow10(k - 1) <= n < Pow10(k)
    ensures |NatToString(n)| == k
    ensures AllDigits(NatToString(n))
    ensures k > 1 ==> NatToString(n)[0] != '0'
    ensures ParseDigits(NatToString(n)) == n
    decreases k
  {
    if k == 1 {
      assert n < 10;
    } else {
      assert n >= 10;
      var s := NatToString(n);
      var p := NatToString(n / 10);
      assert Pow10(k - 2) <= n / 10 < Pow10(k - 1);
      NatToStringDigits(n / 10, k - 1);
      assert s == p + [DigitChar(n % 10)];
      assert s[..|s| - 1] == p;
      if k - 1 == 1 {
        assert 1 <= n / 10;
        assert p[0] != '0';
      }
      assert s[0] == p[0];
    }
  }

  /** What JavaScript's `trim` removes: the white space characters (tab, vertical tab, form
      feed, the byte order mark and the space separators) and the line terminators. */
  predicate IsWhiteSpace(c: char)
  {
    c in WhiteSpace
  }

  const WhiteSpace: set<char> :=
    {'\t', '\n', '\U{B}', '\U{C}', '\r', ' ', '\U{A0}', '\U{1680}', '\U{2000}', '\U{2001}', '\U{2002}',
     '\U{2003}', '\U{2004}', '\U{2005}', '\U{2006}', '\U{2007}', '\U{2008}', '\U{2009}', '\U{200A}', '\U{2028}',
     '\U{2029}', '\U{202F}', '\U{205F}', '\U{3000}', '\U{FEFF}'}

  /** The index of the first character at or after i that is not white space (|s| if none). */
  function SkipSpaceForward(s: string, i: nat): (r: nat)
    requires i <= |s|
    ensures i <= r <= |s| && (r == |s| || !IsWhiteSpace(s[r]))
    ensures forall k :: i <= k < r ==> IsWhiteSpace(s[k])
    decreases |s| - i
  {
    if i == |s| || !IsWhiteSpace(s[i]) then i else SkipSpaceForward(s, i + 1)
  }

  /** The end of the text before j once the white space down to lo is cut off. */
  function SkipSpaceBackward(s: string, lo: nat, j: nat): (r: nat)
    requires lo <= j <= |s|
    ensures lo <= r <= j && (r == lo || !IsWhiteSpace(s[r - 1]))
    ensures forall k :: r <= k < j ==> IsWhiteSpace(s[k])
    decreases j
  {
    if j == lo || !IsWhiteSpace(s[j - 1]) then j else SkipSpaceBackward(s, lo, j - 1)
  }

  /** `s.trim()`: the text between its leading and its trailing white space. Every character
      cut off is white space; the result is empty exactly when the text is all white space,
      and otherwise starts and ends with a character that is not white space. */
  function Trim(s: string): (r: string)
    ensures exists i, j :: 0 <= i <= j <= |s| && r == s[i..j] &&
                           (forall k :: 0 <= k < i ==> IsWhiteSpace(s[k])) &&
                           (forall k :: j <= k < |s| ==> IsWhiteSpace(s[k]))
    ensures r == [] <==> forall k :: 0 <= k < |s| ==> IsWhiteSpace(s[k])
    ensures r != [] ==> !IsWhiteSpace(r[0]) && !IsWhiteSpace(r[|r| - 1])
  {
    var i := SkipSpaceForward(s, 0);
    var j := SkipSpaceBackward(s, i, |s|);
    assert i < j ==> s[i..j][0] == s[i] && s[i..j][j - i - 1] == s[j - 1];
    s[i..j]
  }

  /** A text that neither starts nor ends with white space is left as it is, and trimming
      a second time changes nothing. */
  lemma TrimIdempotent(s: string)
    ensures s == [] || (!IsWhiteSpace(s[0]) && !IsWhiteSpace(s[|s| - 1])) ==> Trim(s) == s
    ensures Trim(Trim(s)) == Trim(s)
  {
  }
}
