/** Helpers shared by the client's modules: an optional value, the
    first-match search that Python's `for ... break` loops perform,
    subsequences, and the few Python string operations the client relies on
    (`in` on strings, `str.strip()`, `''.join`, `str(int)`). */
module Common {

  datatype Option<+T> = None | Some(value: T) {
    function GetOr(default: T): T {
      if Some? then value else default
    }
  }

  // ---------------------------------------------------------------------------
  // First match

  /** Index of the first element of `s` satisfying `p`. */
  function FirstWhere<T>(s: seq<T>, p: T -> bool): (r: Option<nat>)
    ensures r.Some? ==> r.value < |s| && p(s[r.value])
    ensures r.Some? ==> forall j :: 0 <= j < r.value ==> !p(s[j])
    ensures r.None? ==> forall j :: 0 <= j < |s| ==> !p(s[j])
  {
    if |s| == 0 then None
    else if p(s[0]) then Some(0)
    else
      match FirstWhere(s[1..], p)
      case Some(i) => Some(i + 1)
      case None => None
  }

  /** The values `f` picks out of the elements of `s`, in order. */
  function Select<T, U>(s: seq<T>, f: T -> Option<U>): seq<U> {
    if s == [] then []
    else
      var rest := Select(s[..|s| - 1], f);
      match f(s[|s| - 1])
      case Some(u) => rest + [u]
      case None => rest
  }

  /** Selecting from a concatenation selects from each part. */
  lemma {:induction false} SelectAppend<T, U>(a: seq<T>, b: seq<T>, f: T -> Option<U>)
    ensures Select(a + b, f) == Select(a, f) + Select(b, f)
    decreases |b|
  {
    if b == [] {
      assert a + b == a;
    } else {
      var b' := b[..|b| - 1];
      SelectAppend(a, b', f);
      assert (a + b)[..|a + b| - 1] == a + b';
      assert (a + b)[|a + b| - 1] == b[|b| - 1];
    }
  }

  function OptionToSeq<U>(o: Option<U>): seq<U> {
    if o.Some? then [o.value] else []
  }

  /** Membership after appending one element. */
  lemma InSnoc<T>(s: seq<T>, x: T, c: T)
    ensures c in s + [x] <==> c in s || c == x
  {
    if c in s + [x] && c != x {
      var k :| 0 <= k < |s| + 1 && (s + [x])[k] == c;
      assert k < |s| && s[k] == c;
    }
  }

  /** The elements of `s` that `drop` does not reject, in order. */
  function FilterOut<T>(s: seq<T>, drop: T -> bool): seq<T> {
    if s == [] then [] else FilterOut(s[..|s| - 1], drop) + (if drop(s[|s| - 1]) then [] else [s[|s| - 1]])
  }

  /** An element is kept exactly when it occurs and is not rejected. */
  lemma {:induction false} FilterOutMembers<T>(s: seq<T>, drop: T -> bool, c: T)
    ensures c in FilterOut(s, drop) <==> c in s && !drop(c)
  {
    if s != [] {
      var front, x := s[..|s| - 1], s[|s| - 1];
      FilterOutMembers(front, drop, c);
      assert s == front + [x];
      InSnoc(front, x, c);
      if !drop(x) {
        InSnoc(FilterOut(front, drop), x, c);
      } else {
        assert FilterOut(s, drop) == FilterOut(front, drop);
      }
    }
  }

  /** Selecting from two elements. */
  lemma SelectPair<T, U>(x: T, y: T, f: T -> Option<U>)
    ensures Select([x, y], f) == OptionToSeq(f(x)) + OptionToSeq(f(y))
  {
    var s := [x, y];
    assert s[..|s| - 1] == [x] && s[|s| - 1] == y;
    assert Select(s, f) == Select([x], f) + OptionToSeq(f(y));
    assert [x][..0] == [];
    assert Select([x], f) == OptionToSeq(f(x));
  }

  // ---------------------------------------------------------------------------
  // Subsequences

  /** `a` can be obtained from `b` by deleting elements, keeping the order. */
  ghost predicate IsSubsequence<T>(a: seq<T>, b: seq<T>)
    decreases |b|
  {
    if a == [] then true
    else if b == [] then false
    else (a[|a| - 1] == b[|b| - 1] && IsSubsequence(a[..|a| - 1], b[..|b| - 1]))
         || IsSubsequence(a, b[..|b| - 1])
  }

  /** A subsequence of `b` stays one when `b` is extended at the end. */
  lemma {:induction false} SubsequenceExtend<T>(a: seq<T>, b: seq<T>, c: seq<T>)
    requires IsSubsequence(a, b)
    ensures IsSubsequence(a, b + c)
    decreases |c|
  {
    if c != [] && a != [] {
      var c' := c[..|c| - 1];
      SubsequenceExtend(a, b, c');
      var bc := b + c;
      assert bc[..|bc| - 1] == b + c';
      assert IsSubsequence(a, bc[..|bc| - 1]);
      assert bc != [];
    } else if c == [] {
      assert b + c == b;
    }
  }

  lemma {:induction false} SubsequenceReflexive<T>(a: seq<T>)
    ensures IsSubsequence(a, a)
    decreases |a|
  {
    if a != [] {
      SubsequenceReflexive(a[..|a| - 1]);
    }
  }

  /** Every prefix of `b` is a subsequence of `b`. */
  lemma {:induction false} PrefixIsSubsequence<T>(b: seq<T>, i: nat)
    requires i <= |b|
    ensures IsSubsequence(b[..i], b)
    decreases i
  {
    SubsequenceReflexive(b[..i]);
    assert b[..i] + b[i..] == b;
    SubsequenceExtend(b[..i], b[..i], b[i..]);
  }

  /** A subsequence of a prefix of `b` is a subsequence of `b`. */
  lemma SubsequenceOfPrefix<T>(a: seq<T>, b: seq<T>, cut: nat)
    requires cut <= |b| && IsSubsequence(a, b[..cut])
    ensures IsSubsequence(a, b)
  {
    assert b[..cut] + b[cut..] == b;
    SubsequenceExtend(a, b[..cut], b[cut..]);
  }

  // ---------------------------------------------------------------------------
  // Strings

  /** `sub` occurs in `s` starting at index `i`. */
  predicate OccursAt(s: string, sub: string, i: int) {
    0 <= i && i + |sub| <= |s| && s[i..i + |sub|] == sub
  }

  /** Python's `sub in s` for two strings. */
  predicate Contains(s: string, sub: string)
    ensures Contains(s, sub) ==> |sub| <= |s|
  {
    exists i | 0 <= i <= |s| - |sub| :: OccursAt(s, sub, i)
  }

  /** Python's `''.join(parts)`. */
  function Concat(parts: seq<string>): string {
    if parts == [] then "" else Concat(parts[..|parts| - 1]) + parts[|parts| - 1]
  }

  /** Joining two lists of parts one after the other joins their texts. */
  lemma {:induction false} ConcatAppend(a: seq<string>, b: seq<string>)
    ensures Concat(a + b) == Concat(a) + Concat(b)
  {
    if b == [] {
      assert a + b == a;
    } else {
      var front := b[..|b| - 1];
      ConcatAppend(a, front);
      assert (a + b)[..|a + b| - 1] == a + front;
    }
  }

  /** The characters for which Python's `str.isspace()` holds, i.e. those
      `str.strip()` removes when called without arguments. */
  predicate IsSpace(c: char) {
    || ('\t' <= c <= '\r')
    || ('\U{1c}' <= c <= ' ')
    || c == '\U{85}' || c == '\U{a0}' || c == '\U{1680}'
    || ('\U{2000}' <= c <= '\U{200a}')
    || c == '\U{2028}' || c == '\U{2029}' || c == '\U{202f}' || c == '\U{205f}'
    || c == '\U{3000}'
  }

  /** Python's `s.lstrip()`. */
  function TrimLeft(s: string): (r: string)
    ensures |r| <= |s| && r == s[|s| - |r|..]
    ensures forall k :: 0 <= k < |s| - |r| ==> IsSpace(s[k])
    ensures r == [] || !IsSpace(r[0])
  {
    if s != [] && IsSpace(s[0]) then TrimLeft(s[1..]) else s
  }

  /** Python's `s.rstrip()`. */
  function TrimRight(s: string): (r: string)
    ensures |r| <= |s| && r == s[..|r|]
    ensures forall k :: |r| <= k < |s| ==> IsSpace(s[k])
    ensures r == [] || !IsSpace(r[|r| - 1])
  {
    if s != [] && IsSpace(s[|s| - 1]) then TrimRight(s[..|s| - 1]) else s
  }

  /** Python's `s.strip()`. */
  function Strip(s: string): string {
    TrimRight(TrimLeft(s))
  }

  /** `t` occurs in `s` at index `i`. */
  predicate SliceAt<T(==)>(s: seq<T>, i: int, t: seq<T>) {
    0 <= i && i + |t| <= |s| && s[i..i + |t|] == t
  }

  /** A prefix of a suffix of `s` is a slice of `s`. */
  lemma SuffixPrefix<T>(s: seq<T>, suffix: seq<T>, part: seq<T>)
    requires |suffix| <= |s| && suffix == s[|s| - |suffix|..]
    requires |part| <= |suffix| && part == suffix[..|part|]
    ensures SliceAt(s, |s| - |suffix|, part)
  {
  }

  /** `strip()` keeps a contiguous part of the string and removes only
      white space around it. */
  lemma StripTrims(s: string)
    ensures SliceAt(s, |s| - |TrimLeft(s)|, Strip(s))
    ensures forall k :: 0 <= k < |s| - |TrimLeft(s)| ==> IsSpace(s[k])
    ensures forall k :: |s| - |TrimLeft(s)| + |Strip(s)| <= k < |s| ==> IsSpace(s[k])
  {
    SuffixPrefix(s, TrimLeft(s), Strip(s));
    StripTrailing(s);
  }

  lemma StripTrailing(s: string)
    ensures forall k :: |s| - |TrimLeft(s)| + |Strip(s)| <= k < |s| ==> IsSpace(s[k])
  {
    var l := TrimLeft(s);
    var r := TrimRight(l);
    var i := |s| - |l|;
    assert l == s[i..];
    forall k | i + |r| <= k < |s|
      ensures IsSpace(s[k])
    {
      assert s[k] == l[k - i];
    }
  }

  /** `strip()` leaves no white space at either end. */
  lemma StripEnds(s: string)
    ensures Strip(s) == [] || (!IsSpace(Strip(s)[0]) && !IsSpace(Strip(s)[|Strip(s)| - 1]))
  {
    var l := TrimLeft(s);
    var r := TrimRight(l);
    if r != [] {
      assert r[0] == l[0];
    }
  }

  /** Whether the stripped text starts with `p` depends only on the leading
      whitespace, as long as `p` does not end in whitespace. */
  lemma StripStartsWith(s: string, p: string)
    requires p != [] && !IsSpace(p[|p| - 1])
    ensures p <= Strip(s) <==> p <= TrimLeft(s)
  {
    TrimRightPrefix(TrimLeft(s), p);
  }

  lemma TrimRightPrefix(t: string, p: string)
    requires p != [] && !IsSpace(p[|p| - 1])
    ensures p <= TrimRight(t) <==> p <= t
  {
    var r := TrimRight(t);
    if p <= t {
      var k := |p| - 1;
      assert t[k] == p[k];
      assert k < |r|;
      assert p == t[..|p|] == r[..|p|];
    }
  }

  // ---------------------------------------------------------------------------
  // Decimal rendering of integers, as Python's `str(int)`

  predicate IsDigit(c: char) {
    '0' <= c <= '9'
  }

  predicate AllDigits(s: string) {
    forall k | 0 <= k < |s| :: IsDigit(s[k])
  }

  function DigitChar(d: nat): (c: char)
    requires d < 10
    ensures IsDigit(c)
  {
    ('0' as int + d) as char
  }

  function DigitValue(c: char): nat
    requires IsDigit(c)
  {
    c as int - '0' as int
  }

  /** Decimal digits of `n` without leading zeros. */
  function NatToDecimal(n: nat): (s: string)
    ensures |s| >= 1 && AllDigits(s)
    ensures |s| > 1 ==> s[0] != '0'
  {
    if n < 10 then [DigitChar(n)] else NatToDecimal(n / 10) + [DigitChar(n % 10)]
  }

  /** Python's `str(i)` for an integer `i`. */
  function IntToDecimal(i: int): (s: string)
    ensures |s| >= 1
    ensures s[0] == '-' <==> i < 0
  {
    if i < 0 then "-" + NatToDecimal(-i) else NatToDecimal(i)
  }

  /** The value of a nonempty run of decimal digits. */
  function ParseNat(s: string): nat
    requires AllDigits(s)
  {
    if s == [] then 0 else ParseNat(s[..|s| - 1]) * 10 + DigitValue(s[|s| - 1])
  }

  /** Reads back an optionally negative decimal integer. */
  function ParseInt(s: string): Option<int> {
    if |s| > 1 && s[0] == '-' && AllDigits(s[1..]) then Some(0 - ParseNat(s[1..]))
    else if s != [] && AllDigits(s) then Some(ParseNat(s))
    else None
  }

  lemma {:induction false} NatDecimalRoundTrip(n: nat)
    ensures ParseNat(NatToDecimal(n)) == n
  {
    if n >= 10 {
      NatDecimalRoundTrip(n / 10);
      var s := NatToDecimal(n);
      assert s[..|s| - 1] == NatToDecimal(n / 10);
    }
  }

  /** `str(i)` can be read back: decimal rendering is injective. */
  lemma IntDecimalRoundTrip(i: int)
    ensures ParseInt(IntToDecimal(i)) == Some(i)
  {
    if i < 0 {
      NatDecimalRoundTrip(-i);
      assert IntToDecimal(i)[1..] == NatToDecimal(-i);
    } else {
      NatDecimalRoundTrip(i);
    }
  }
}
