/**
  Facts about the two scanners of the decoder: the tag-token scan and the
  name-line match, and about how a tag token splits into key and value.
 */
module ScanFacts {
  import opened Wrappers
  import opened JsText
  import opened Records
  import opened TaskCodec

  // ---------------------------------------------------------------------------
  // Greedy runs over concatenations

  /** A run that stops inside `x`, or at a character of `y` that ends it, ignores the rest of `y`. */
  lemma SpanAppend(x: string, y: string, p: char -> bool)
    requires Span(x, p) < |x| || |y| == 0 || !p(y[0])
    ensures Span(x + y, p) == Span(x, p)
  {
    var n := Span(x, p);
    var s := x + y;
    SpanStops(x, p);
    assert forall i :: 0 <= i < n ==> s[i] == x[i];
    if n < |x| {
      assert s[n] == x[n];
    } else if |y| > 0 {
      assert s[n] == y[0];
    }
    SpanIs(s, p, n);
  }

  // ---------------------------------------------------------------------------
  // The tag-token scan

  /** `s` holds no `#` directly followed by a token character. */
  predicate HasNoTag(s: string) {
    forall i :: 0 <= i < |s| - 1 && s[i] == '#' ==> !IsTokenChar(s[i + 1])
  }

  /** No token can run across the seam between `a` and `b`. */
  predicate SeamSafe(a: string, b: string) {
    || |b| == 0 || !IsTokenChar(b[0])
    || (|a| > 0 && a[|a| - 1] != '#' && !IsTokenChar(a[|a| - 1]))
  }

  /** How the scan of `c + rest` begins, when `c` is not `#` or starts no token. */
  lemma TokensSkip(s: string)
    requires |s| > 0 && (s[0] != '#' || Span(s[1..], IsTokenChar) == 0)
    ensures Tokens(s) == Tokens(s[1..])
  {
  }

  /** How the scan of `s` begins when `s` starts with a token of `n + 1` characters. */
  lemma TokensTake(s: string, n: nat)
    requires |s| > 0 && s[0] == '#' && n == Span(s[1..], IsTokenChar) && n > 0
    ensures Tokens(s) == [s[..n + 1]] + Tokens(s[n + 1..])
  {
  }

  /** Every match the scan reports is `#` followed by one or more token characters. */
  lemma {:induction false} TokensAreMatches(s: string)
    ensures forall i :: 0 <= i < |Tokens(s)| ==> IsToken(Tokens(s)[i])
    decreases |s|
  {
    if |s| > 0 {
      var n := Span(s[1..], IsTokenChar);
      if s[0] == '#' && n > 0 {
        var t := s[..n + 1];
        SpanStops(s[1..], IsTokenChar);
        assert IsToken(t) by {
          forall i | 1 <= i < |t| ensures IsTokenChar(t[i]) {
            assert t[i] == s[1..][i - 1];
          }
        }
        TokensAreMatches(s[n + 1..]);
        TokensTake(s, n);
      } else {
        TokensAreMatches(s[1..]);
        TokensSkip(s);
      }
    }
  }

  /** A one-character first part adds no token. */
  lemma TokensAppendChar(a: string, b: string)
    requires |a| == 1 && SeamSafe(a, b)
    ensures Tokens(a + b) == Tokens(b)
  {
    var s := a + b;
    assert s[1..] == b;
    TokensSkip(a);
    assert a[1..] == [];
    if a[0] == '#' {
      assert Span(b, IsTokenChar) == 0;
    }
    TokensSkip(s);
  }

  /** The step of `TokensAppend` past a token that ends inside the first part. */
  lemma TokensAppendTake(a: string, b: string, n: nat)
    requires |a| > 0 && a[0] == '#' && n == Span(a[1..], IsTokenChar) && 0 < n
    requires Span((a + b)[1..], IsTokenChar) == n
    requires Tokens(a[n + 1..] + b) == Tokens(a[n + 1..]) + Tokens(b)
    ensures Tokens(a + b) == Tokens(a) + Tokens(b)
  {
    var s := a + b;
    var t := a[..n + 1];
    var ra := a[n + 1..];
    assert s[..n + 1] == t;
    assert s[n + 1..] == ra + b;
    TokensTake(s, n);
    TokensTake(a, n);
    PrependAppend(t, Tokens(ra), Tokens(b));
  }

  lemma PrependAppend(t: string, x: seq<string>, y: seq<string>)
    ensures [t] + (x + y) == ([t] + x) + y
  {
  }

  /** The step of `TokensAppend` past a character that starts no token. */
  lemma TokensAppendSkip(a: string, b: string)
    requires |a| > 0 && (a[0] != '#' || Span(a[1..], IsTokenChar) == 0)
    requires a[0] != '#' || Span((a + b)[1..], IsTokenChar) == 0
    requires Tokens(a[1..] + b) == Tokens(a[1..]) + Tokens(b)
    ensures Tokens(a + b) == Tokens(a) + Tokens(b)
  {
    var s := a + b;
    assert s[1..] == a[1..] + b;
    TokensSkip(s);
    TokensSkip(a);
  }

  /**
    The scan of a concatenation is the scans of the parts, when no token can
    run across the seam: the second part starts with a character that ends a
    token, or the first part ends with one that neither ends nor starts one.
   */
  lemma {:induction false} TokensAppend(a: string, b: string)
    requires SeamSafe(a, b)
    ensures Tokens(a + b) == Tokens(a) + Tokens(b)
    decreases |a|
  {
    if |a| == 0 {
      assert a + b == b;
    } else if |a| == 1 {
      TokensAppendChar(a, b);
      TokensSkip(a);
    } else {
      var x := a[1..];
      assert (a + b)[1..] == x + b;
      assert x[|x| - 1] == a[|a| - 1];
      var n := Span(x, IsTokenChar);
      if a[0] == '#' {
        SpanStops(x, IsTokenChar);
        if n == |x| {
          assert IsTokenChar(x[|x| - 1]);
        }
        SpanAppend(x, b, IsTokenChar);
      }
      if a[0] == '#' && n > 0 {
        var rest := a[n + 1..];
        if |rest| > 0 {
          assert rest[|rest| - 1] == a[|a| - 1];
          TokensAppend(rest, b);
        } else {
          assert rest + b == b && Tokens(rest) == [];
          assert Tokens(rest + b) == Tokens(rest) + Tokens(b);
        }
        TokensAppendTake(a, b, n);
      } else {
        TokensAppend(x, b);
        TokensAppendSkip(a, b);
      }
    }
  }

  /** The scan finds nothing exactly when no `#` is followed by a token character. */
  lemma {:induction false} NoTagIffNoTokens(s: string)
    ensures HasNoTag(s) <==> Tokens(s) == []
    decreases |s|
  {
    if |s| > 0 {
      NoTagIffNoTokens(s[1..]);
      var n := Span(s[1..], IsTokenChar);
      if s[0] == '#' && n > 0 {
        assert !HasNoTag(s) by {
          assert s[1] == s[1..][0];
        }
      } else {
        assert Tokens(s) == Tokens(s[1..]);
        assert |s| > 1 && s[0] == '#' ==> !IsTokenChar(s[1]) by {
          if |s| > 1 {
            assert s[1] == s[1..][0];
          }
        }
        assert HasNoTag(s) <==> HasNoTag(s[1..]) by {
          if HasNoTag(s[1..]) {
            forall i | 0 <= i < |s| - 1 && s[i] == '#'
              ensures !IsTokenChar(s[i + 1])
            {
              if i > 0 {
                assert s[1..][i - 1] == s[i] && s[1..][i] == s[i + 1];
              }
            }
          }
          if HasNoTag(s) {
            forall i | 0 <= i < |s[1..]| - 1 && s[1..][i] == '#'
              ensures !IsTokenChar(s[1..][i + 1])
            {
              assert s[1..][i] == s[i + 1] && s[1..][i + 1] == s[i + 2];
            }
          }
        }
      }
    }
  }

  /** Text without `#` holds no tag token. */
  lemma NoHashNoTokens(s: string)
    requires '#' !in s
    ensures Tokens(s) == []
  {
    NoTagIffNoTokens(s);
  }

  /** Cutting white space off the ends cannot create a tag token. */
  lemma NoTagTrim(s: string)
    requires HasNoTag(s)
    ensures HasNoTag(Trim(s))
  {
    var i, j := TrimIsSlice(s);
    var t := s[i..j];
    forall k | 0 <= k < |t| - 1 && t[k] == '#'
      ensures !IsTokenChar(t[k + 1])
    {
      assert t[k] == s[i + k] && t[k + 1] == s[i + k + 1];
    }
  }

  /** A whole tag token scans as itself. */
  lemma TokensOfToken(t: string)
    requires IsToken(t)
    ensures Tokens(t) == [t]
  {
    var x := t[1..];
    assert forall i :: 0 <= i < |x| ==> IsTokenChar(x[i]) by {
      forall i | 0 <= i < |x| ensures IsTokenChar(x[i]) {
        assert x[i] == t[i + 1];
      }
    }
    SpanIs(x, IsTokenChar, |x|);
    assert t[..|x| + 1] == t && t[|x| + 1..] == [];
  }

  // ---------------------------------------------------------------------------
  // Splitting a token on '/'

  /** A tag word: one or more of `[A-Za-z0-9_-]`, so a token character other than '/'. */
  predicate IsTagWord(w: string) {
    |w| > 0 && forall i :: 0 <= i < |w| ==> IsTokenChar(w[i]) && w[i] != '/'
  }

  /** The token the encoder writes for one key and value. */
  function TagToken(key: string, value: string): string {
    "#" + TaskTagPrefix + "/" + key + "/" + value
  }

  lemma TagTokenIsToken(key: string, value: string)
    requires IsTagWord(key) && IsTagWord(value)
    ensures IsToken(TagToken(key, value))
  {
    var t := TagToken(key, value);
    forall i | 1 <= i < |t|
      ensures IsTokenChar(t[i])
    {
      if i >= 7 && i < 7 + |key| {
        assert t[i] == key[i - 7];
      } else if i >= 8 + |key| {
        assert t[i] == value[i - 8 - |key|];
      }
    }
  }

  /** A text with exactly two slashes splits on '/' into the three pieces around them. */
  lemma SplitTwoSlashes(t: string, k1: nat, k2: nat)
    requires k1 < k2 < |t|
    requires forall k :: 0 <= k < |t| ==> (t[k] == '/' <==> k == k1 || k == k2)
    ensures Split(t, "/") == [t[..k1], t[k1 + 1..k2], t[k2 + 1..]]
  {
    forall k: nat
      ensures OccursAt(t, "/", k) <==> k == k1 || k == k2
    {
      OccursAtChar(t, '/', k);
    }
    IndexOfIs(t, "/", 0, k1);
    IndexOfIs(t, "/", k1 + 1, k2);
    IndexOfNone(t, "/", k2 + 1);
    assert Split(t, "/") == [t[0..k1]] + SplitFrom(t, "/", k1 + 1);
    assert SplitFrom(t, "/", k1 + 1) == [t[k1 + 1..k2]] + SplitFrom(t, "/", k2 + 1);
  }

  /** Splitting `#<prefix>/<key>/<value>` on '/' gives back its three parts. */
  lemma SplitPrefixedToken(prefix: string, key: string, value: string)
    requires forall i :: 0 <= i < |prefix| ==> IsTokenChar(prefix[i]) && prefix[i] != '/'
    requires IsTagWord(key) && IsTagWord(value)
    ensures Split("#" + prefix + "/" + key + "/" + value, "/") == ["#" + prefix, key, value]
    ensures TokenKey("#" + prefix + "/" + key + "/" + value) == key
    ensures TokenValue("#" + prefix + "/" + key + "/" + value) == value
  {
    var t := "#" + prefix + "/" + key + "/" + value;
    var k1 := 1 + |prefix|;
    var k2 := k1 + 1 + |key|;
    forall k | 0 <= k < |t|
      ensures t[k] == '/' <==> k == k1 || k == k2
    {
      if 1 <= k < k1 {
        assert t[k] == prefix[k - 1];
      } else if k1 < k < k2 {
        assert t[k] == key[k - k1 - 1];
      } else if k2 < k < |t| {
        assert t[k] == value[k - k2 - 1];
      }
    }
    SplitTwoSlashes(t, k1, k2);
    assert t[..k1] == "#" + prefix;
    assert t[k1 + 1..k2] == key;
    assert t[k2 + 1..] == value;
  }

  /** Splitting the encoder's token on '/' gives back its prefix, key and value. */
  lemma SplitTagToken(key: string, value: string)
    requires IsTagWord(key) && IsTagWord(value)
    ensures Split(TagToken(key, value), "/") == ["#" + TaskTagPrefix, key, value]
    ensures TokenKey(TagToken(key, value)) == key && TokenValue(TagToken(key, value)) == value
  {
    var pre := TaskTagPrefix;
    assert forall i :: 0 <= i < |pre| ==> IsTokenChar(pre[i]) && pre[i] != '/';
    SplitPrefixedToken(pre, key, value);
  }

  // ---------------------------------------------------------------------------
  // The tokens of the encoder's lines

  /** A tag line holds exactly the one token it was written for. */
  lemma TokensOfTagLine(key: string, value: string, desc: string)
    requires IsTagWord(key) && IsTagWord(value) && HasNoTag(desc)
    ensures Tokens(TagLine(key, value, desc)) == [TagToken(key, value)]
  {
    var lead := "\n" + key + ": ";
    var tok := TagToken(key, value);
    var tail := if desc != "" then " " + desc else "";
    assert TagLine(key, value, desc) == lead + tok + tail;
    assert '#' !in lead by {
      forall i | 0 <= i < |lead| ensures lead[i] != '#' {
        if 1 <= i < 1 + |key| {
          assert lead[i] == key[i - 1];
        }
      }
    }
    NoHashNoTokens(lead);
    TagTokenIsToken(key, value);
    TokensOfToken(tok);
    TokensAppend(lead, tok);
    assert HasNoTag(tail) by {
      forall i | 0 <= i < |tail| - 1 && tail[i] == '#'
        ensures !IsTokenChar(tail[i + 1])
      {
        assert i > 0;
        assert tail[i] == desc[i - 1] && tail[i + 1] == desc[i];
      }
    }
    NoTagIffNoTokens(tail);
    TokensAppend(lead + tok, tail);
  }

  /** The encoder's lines for one property, each starting a new line. */
  lemma EntryLinesStart(key: string, values: seq<string>)
    ensures EntryLines(key, values) == "" || EntryLines(key, values)[0] == '\n'
  {
    if |values| > 0 {
      EntryLinesStart(key, values[..|values| - 1]);
    }
  }

  lemma TagLinesStart(tags: seq<Tag>)
    ensures TagLines(tags) == "" || TagLines(tags)[0] == '\n'
  {
    if |tags| > 0 {
      TagLinesStart(tags[..|tags| - 1]);
      var last := tags[|tags| - 1];
      EntryLinesStart(last.key, last.values);
    }
  }

  /** The tokens written for one property: one per value, in order. */
  function EntryTokens(key: string, values: seq<string>): (r: seq<string>)
    ensures |r| == |values|
  {
    if |values| == 0 then []
    else EntryTokens(key, values[..|values| - 1]) + [TagToken(key, values[|values| - 1])]
  }

  /** The tokens written for all properties, in key order. */
  function TagTokens(tags: seq<Tag>): seq<string> {
    if |tags| == 0 then []
    else
      var last := tags[|tags| - 1];
      TagTokens(tags[..|tags| - 1]) + EntryTokens(last.key, last.values)
  }

  /** Every key and value of the tag part is a tag word. */
  predicate TagWords(tags: seq<Tag>) {
    forall i :: 0 <= i < |tags| ==>
      IsTagWord(tags[i].key) && forall j :: 0 <= j < |tags[i].values| ==> IsTagWord(tags[i].values[j])
  }

  lemma {:induction false} TokensOfEntryLines(key: string, values: seq<string>)
    requires IsTagWord(key) && forall j :: 0 <= j < |values| ==> IsTagWord(values[j])
    ensures Tokens(EntryLines(key, values)) == EntryTokens(key, values)
  {
    if |values| > 0 {
      var init := values[..|values| - 1];
      var last := values[|values| - 1];
      TokensOfEntryLines(key, init);
      TokensOfTagLine(key, last, "");
      TokensAppend(EntryLines(key, init), TagLine(key, last, ""));
    }
  }

  /** The scan of the custom-tag lines finds one token per value, in key and array order. */
  lemma {:induction false} TokensOfTagLines(tags: seq<Tag>)
    requires TagWords(tags)
    ensures Tokens(TagLines(tags)) == TagTokens(tags)
  {
    if |tags| > 0 {
      var init := tags[..|tags| - 1];
      var last := tags[|tags| - 1];
      TokensOfTagLines(init);
      TokensOfEntryLines(last.key, last.values);
      EntryLinesStart(last.key, last.values);
      TokensAppend(TagLines(init), EntryLines(last.key, last.values));
    }
  }

  // ---------------------------------------------------------------------------
  // The name match

  /** A name the pattern captures whole: name characters only, not starting with a space. */
  predicate IsTaskName(n: string) {
    |n| > 0 && n[0] != ' ' && forall i :: 0 <= i < |n| ==> IsNameChar(n[i])
  }

  /** The pattern does not match on the opening `---` line, so the search moves to the next line. */
  lemma SkipOpeningLine(line: string)
    ensures FindName("---\n" + line) == FindName(line)
  {
    var s := "---\n" + line;
    assert s[..4] == "---\n";
    assert NameAtLineStart(s) == None by {
      if |s| >= 6 {
        assert s[..6][0] == '-';
      }
    }
    assert s[3] == '\n' && s[0] == '-' && s[1] == '-' && s[2] == '-';
    SpanIs(s, NotLineTerminator, 3);
    assert s[4..] == line;
  }

  /** The encoder's name line captures exactly the name. */
  lemma NameLineMatches(n: string, rest: string)
    requires IsTaskName(n)
    requires |rest| > 0 && rest[0] == '\n'
    ensures NameAtLineStart("name: " + n + rest) == Some(n)
  {
    var line := "name: " + n + rest;
    assert line[..6] == "name: ";
    var after := line[5..];
    assert after == " " + n + rest;
    assert Span(after, IsSpace) == 1 by {
      assert after[0] == ' ' && after[1] == n[0];
    }
    assert line[6..] == n + rest;
    SpanAppend(n, rest, IsNameChar);
    SpanIs(n, IsNameChar, |n|);
    assert (n + rest)[..|n|] == n;
  }

  /** The name line the encoder writes second is the first line the pattern matches. */
  lemma FindNameOfEncoding(n: string, rest: string)
    requires IsTaskName(n)
    requires |rest| > 0 && rest[0] == '\n'
    ensures FindName("---" + "\nname: " + n + rest) == Some(n)
  {
    var line := "name: " + n + rest;
    assert "---" + "\nname: " + n + rest == "---\n" + line;
    SkipOpeningLine(line);
    NameLineMatches(n, rest);
  }
}
