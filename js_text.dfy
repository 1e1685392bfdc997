/**
  The JavaScript string primitives the task codec relies on, written out over
  `seq<char>`: `String.prototype.trim`, `indexOf` and `split` with a string
  separator, and the longest-run scan that a greedy character class performs.
 */
module JsText {
  import opened Wrappers

  // ---------------------------------------------------------------------------
  // Greedy runs

  /** Length of the longest prefix of `s` whose characters all satisfy `p`. */
  function Span(s: string, p: char -> bool): (n: nat)
    ensures n <= |s|
    decreases |s|
  {
    if |s| > 0 && p(s[0]) then 1 + Span(s[1..], p) else 0
  }

  /** The run holds only characters that satisfy `p`, and it stops at the end or at one that does not. */
  lemma {:induction false} SpanStops(s: string, p: char -> bool)
    ensures forall i :: 0 <= i < Span(s, p) ==> p(s[i])
    ensures Span(s, p) == |s| || !p(s[Span(s, p)])
    decreases |s|
  {
    if |s| > 0 && p(s[0]) {
      SpanStops(s[1..], p);
      assert forall i :: 1 <= i < |s| ==> s[i] == s[1..][i - 1];
    }
  }

  /** A run of `n` characters satisfying `p`, ended by the end or by one that does not, is the span. */
  lemma {:induction false} SpanIs(s: string, p: char -> bool, n: nat)
    requires n <= |s| && forall i :: 0 <= i < n ==> p(s[i])
    requires n == |s| || !p(s[n])
    ensures Span(s, p) == n
    decreases n
  {
    if n > 0 {
      var t := s[1..];
      assert forall i :: 0 <= i < n - 1 ==> t[i] == s[i + 1];
      assert n - 1 == |t| || t[n - 1] == s[n];
      SpanIs(t, p, n - 1);
    }
  }

  // ---------------------------------------------------------------------------
  // String.prototype.trim

  /** ECMAScript WhiteSpace and LineTerminator code points: what `trim` removes. */
  predicate IsTrimmable(c: char) {
    || c == '\t' || c == '\n' || c == '\U{B}' || c == '\U{C}' || c == '\r'
    || c == ' ' || c == '\U{A0}' || c == '\U{1680}'
    || ('\U{2000}' <= c <= '\U{200A}')
    || c == '\U{2028}' || c == '\U{2029}' || c == '\U{202F}' || c == '\U{205F}'
    || c == '\U{3000}' || c == '\U{FEFF}'
  }

  /** `s` with its leading white space removed: a suffix of `s`. */
  function TrimStart(s: string): (r: string)
    ensures |r| <= |s| && r == s[|s| - |r|..]
    ensures r == [] || !IsTrimmable(r[0])
    ensures forall i :: 0 <= i < |s| - |r| ==> IsTrimmable(s[i])
    decreases |s|
  {
    if |s| > 0 && IsTrimmable(s[0]) then TrimStart(s[1..]) else s
  }

  /** `s` with its trailing white space removed: a prefix of `s`. */
  function TrimEnd(s: string): (r: string)
    ensures |r| <= |s| && r == s[..|r|]
    ensures r == [] || !IsTrimmable(r[|r| - 1])
    ensures forall i :: |r| <= i < |s| ==> IsTrimmable(s[i])
    decreases |s|
  {
    if |s| > 0 && IsTrimmable(s[|s| - 1]) then TrimEnd(s[..|s| - 1]) else s
  }

  /** `s.trim()`: neither end of the result is white space, and only white space was cut. */
  function Trim(s: string): (r: string)
    ensures |r| <= |s|
    ensures r == [] || (!IsTrimmable(r[0]) && !IsTrimmable(r[|r| - 1]))
  {
    TrimEnd(TrimStart(s))
  }

  /** A string that is already trimmed is left alone. */
  lemma TrimOfTrimmed(s: string)
    requires s == [] || (!IsTrimmable(s[0]) && !IsTrimmable(s[|s| - 1]))
    ensures Trim(s) == s
  {
  }

  /** Trimming twice is trimming once. */
  lemma TrimIdempotent(s: string)
    ensures Trim(Trim(s)) == Trim(s)
  {
    TrimOfTrimmed(Trim(s));
  }

  /** A leading white-space character makes no difference to `trim`. */
  lemma TrimSkipsLeading(c: char, s: string)
    requires IsTrimmable(c)
    ensures Trim([c] + s) == Trim(s)
  {
    assert ([c] + s)[1..] == s;
  }

  /**
    Trim(s) is the slice of `s` between its first and last non-white-space
    characters: everything cut before `i` and from `j` on is white space.
   */
  lemma TrimIsSlice(s: string) returns (i: nat, j: nat)
    ensures i <= j <= |s| && Trim(s) == s[i..j]
    ensures forall k :: 0 <= k < i ==> IsTrimmable(s[k])
    ensures forall k :: j <= k < |s| ==> IsTrimmable(s[k])
    ensures i < j ==> !IsTrimmable(s[i]) && !IsTrimmable(s[j - 1])
  {
    var t := TrimStart(s);
    i := |s| - |t|;
    j := i + |TrimEnd(t)|;
    assert t == s[i..];
    assert TrimEnd(t) == t[..j - i] == s[i..j];
  }

  // ---------------------------------------------------------------------------
  // indexOf and split with a string separator

  /** `pat` occurs in `s` starting at index `i`. */
  predicate OccursAt(s: string, pat: string, i: nat) {
    i + |pat| <= |s| && s[i..i + |pat|] == pat
  }

  /** `pat` occurs nowhere in `s`. */
  predicate NotIn(pat: string, s: string) {
    forall i: nat | i <= |s| :: !OccursAt(s, pat, i)
  }

  /** `s.indexOf(pat, from)`: the first occurrence at or after `from`, if any. */
  function IndexOf(s: string, pat: string, from: nat): (r: Option<nat>)
    requires from <= |s|
    ensures r.Some? ==> from <= r.value && r.value + |pat| <= |s|
    decreases |s| - from
  {
    if OccursAt(s, pat, from) then Some(from)
    else if from == |s| then None
    else IndexOf(s, pat, from + 1)
  }

  /** The search finds an occurrence with none before it, and finds nothing only when there is none. */
  lemma {:induction false} IndexOfSpec(s: string, pat: string, from: nat)
    requires from <= |s|
    ensures var r := IndexOf(s, pat, from);
      && (r.Some? ==> OccursAt(s, pat, r.value) && forall k: nat :: from <= k < r.value ==> !OccursAt(s, pat, k))
      && (r.None? ==> forall k: nat :: from <= k ==> !OccursAt(s, pat, k))
    decreases |s| - from
  {
    if !OccursAt(s, pat, from) && from < |s| {
      IndexOfSpec(s, pat, from + 1);
    }
  }

  /** The first occurrence at or after `from` is the one the search returns. */
  lemma {:induction false} IndexOfIs(s: string, pat: string, from: nat, i: nat)
    requires from <= i && OccursAt(s, pat, i)
    requires forall k: nat :: from <= k < i ==> !OccursAt(s, pat, k)
    ensures IndexOf(s, pat, from) == Some(i)
    decreases i - from
  {
    if from < i {
      assert !OccursAt(s, pat, from);
      IndexOfIs(s, pat, from + 1, i);
    }
  }

  /** With no occurrence at or after `from`, the search finds nothing. */
  lemma {:induction false} IndexOfNone(s: string, pat: string, from: nat)
    requires from <= |s|
    requires forall k: nat :: from <= k ==> !OccursAt(s, pat, k)
    ensures IndexOf(s, pat, from) == None
    decreases |s| - from
  {
    assert !OccursAt(s, pat, from);
    if from < |s| {
      IndexOfNone(s, pat, from + 1);
    }
  }

  /** The pieces of `s[from..]` between successive occurrences of `sep`. */
  function SplitFrom(s: string, sep: string, from: nat): (r: seq<string>)
    requires |sep| > 0 && from <= |s|
    ensures |r| >= 1
    decreases |s| - from
  {
    match IndexOf(s, sep, from)
    case None => [s[from..]]
    case Some(i) => [s[from..i]] + SplitFrom(s, sep, i + |sep|)
  }

  /** `s.split(sep)` for a non-empty separator. */
  function Split(s: string, sep: string): (r: seq<string>)
    requires |sep| > 0
    ensures |r| >= 1
  {
    SplitFrom(s, sep, 0)
  }

  // ---------------------------------------------------------------------------
  // Facts about occurrences

  /** An occurrence inside a slice is an occurrence in the whole string. */
  lemma NotInSlice(pat: string, s: string, i: nat, j: nat)
    requires i <= j <= |s| && NotIn(pat, s)
    ensures NotIn(pat, s[i..j])
  {
    forall k: nat | k <= j - i
      ensures !OccursAt(s[i..j], pat, k)
    {
      if k + |pat| <= j - i {
        var a := s[i..j][k..k + |pat|];
        var b := s[i + k..i + k + |pat|];
        forall m | 0 <= m < |pat|
          ensures a[m] == b[m]
        {
          assert a[m] == s[i + k + m];
        }
        assert a == b;
        assert !OccursAt(s, pat, i + k);
      }
    }
  }

  /** A separator that does not occur in a string does not occur in its trimmed form. */
  lemma NotInTrim(pat: string, s: string)
    requires NotIn(pat, s)
    ensures NotIn(pat, Trim(s))
  {
    var i, j := TrimIsSlice(s);
    NotInSlice(pat, s, i, j);
  }

  /** A pattern holding a character the string lacks cannot occur in it. */
  lemma NotInMissingChar(pat: string, s: string, c: char)
    requires c in pat && c !in s
    ensures NotIn(pat, s)
  {
    var m :| 0 <= m < |pat| && pat[m] == c;
    forall k: nat | k <= |s|
      ensures !OccursAt(s, pat, k)
    {
      if k + |pat| <= |s| {
        assert s[k..k + |pat|][m] == s[k + m];
      }
    }
  }

  /**
    Gluing two strings free of `pat` gives a string free of `pat` when one of
    the two characters at the seam cannot be part of `pat`.
   */
  lemma NotInJoin(pat: string, a: string, b: string)
    requires NotIn(pat, a) && NotIn(pat, b)
    requires (|a| > 0 && a[|a| - 1] !in pat) || (|b| > 0 && b[0] !in pat)
    ensures NotIn(pat, a + b)
  {
    var s := a + b;
    forall k: nat | k <= |s|
      ensures !OccursAt(s, pat, k)
    {
      if k + |pat| <= |s| {
        var w := s[k..k + |pat|];
        if k + |pat| <= |a| {
          assert w == a[k..k + |pat|];
          assert !OccursAt(a, pat, k);
        } else if k >= |a| {
          assert w == b[k - |a|..k - |a| + |pat|];
          assert !OccursAt(b, pat, k - |a|);
        } else {
          assert w[|a| - 1 - k] == a[|a| - 1];
          assert w[|a| - k] == b[0];
        }
      }
    }
  }

  /** A prefix that lacks the first character of `pat` cannot start an occurrence. */
  lemma NotInLead(pat: string, c: string, s: string)
    requires |pat| > 0 && pat[0] !in c && NotIn(pat, s)
    ensures NotIn(pat, c + s)
  {
    var t := c + s;
    forall k: nat | k <= |t|
      ensures !OccursAt(t, pat, k)
    {
      if k + |pat| <= |t| {
        if k < |c| {
          assert t[k..k + |pat|][0] == c[k];
        } else {
          assert t[k..k + |pat|] == s[k - |c|..k - |c| + |pat|];
          assert !OccursAt(s, pat, k - |c|);
        }
      }
    }
  }

  // ---------------------------------------------------------------------------
  // Facts about split

  /** A string that does not contain the separator splits into itself alone. */
  lemma SplitWhole(s: string, sep: string, from: nat)
    requires |sep| > 0 && from <= |s|
    requires forall k: nat :: from <= k ==> !OccursAt(s, sep, k)
    ensures SplitFrom(s, sep, from) == [s[from..]]
  {
    IndexOfNone(s, sep, from);
  }

  /**
    Splitting `a + sep + b` gives exactly `[a, b]` when `sep` occurs in neither
    part and the last character of `a` and the first of `b` cannot belong to it.
   */
  lemma SplitAround(a: string, sep: string, b: string)
    requires |sep| > 0 && NotIn(sep, a) && NotIn(sep, b)
    requires |a| > 0 && a[|a| - 1] !in sep
    requires |b| > 0 && b[0] !in sep
    ensures Split(a + sep + b, sep) == [a, b]
  {
    var s := a + sep + b;
    forall k: nat | k < |a|
      ensures !OccursAt(s, sep, k)
    {
      if k + |sep| <= |s| {
        if k + |sep| <= |a| {
          assert s[k..k + |sep|] == a[k..k + |sep|];
          assert !OccursAt(a, sep, k);
        } else {
          assert s[k..k + |sep|][|a| - 1 - k] == a[|a| - 1];
        }
      }
    }
    assert s[|a|..|a| + |sep|] == sep;
    assert OccursAt(s, sep, |a|);
    IndexOfIs(s, sep, 0, |a|);
    var from := |a| + |sep|;
    assert s[from..] == b;
    forall k: nat | from <= k
      ensures !OccursAt(s, sep, k)
    {
      if k + |sep| <= |s| {
        assert s[k..k + |sep|] == b[k - from..k - from + |sep|];
        assert !OccursAt(b, sep, k - from);
      }
    }
    SplitWhole(s, sep, from);
    assert s[0..|a|] == a;
  }

  /** With a one-character separator, an occurrence is just that character. */
  lemma OccursAtChar(s: string, c: char, k: nat)
    ensures OccursAt(s, [c], k) <==> k < |s| && s[k] == c
  {
    if k < |s| {
      assert s[k..k + 1] == [s[k]];
    }
  }
}
