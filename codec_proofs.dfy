/**
  What the codec promises as a whole: a storable record (see `Storable`) is
  written as a text from which the decoder rebuilds it (with a done state, the notes
  as stored, and the empty tag arrays dropped), and writing that rebuilt record
  again gives the same text.
 */
module CodecProofs {
  import opened Wrappers
  import opened JsText
  import opened Dates
  import opened Records
  import opened TaskCodec
  import opened ScanFacts

  // ---------------------------------------------------------------------------
  // Rebuilding the tag part

  lemma {:induction false} KeysOfAppend(a: seq<Tag>, b: seq<Tag>)
    ensures Keys(a + b) == Keys(a) + Keys(b)
  {
    KeysAt(a + b);
    KeysAt(a);
    KeysAt(b);
  }

  /** Every entry the filter keeps is an entry of its input. */
  lemma {:induction false} NonEmptyTagsFrom(tags: seq<Tag>)
    ensures forall x :: x in NonEmptyTags(tags) ==> x in tags
  {
    if |tags| > 0 {
      NonEmptyTagsFrom(tags[..|tags| - 1]);
    }
  }

  /** A value under a key that is not there yet opens a new entry at the end. */
  lemma {:induction false} AddValueNew(tags: seq<Tag>, key: string, value: string)
    requires key !in Keys(tags)
    ensures AddValue(tags, key, value) == tags + [Tag(key, [value])]
  {
    if |tags| > 0 {
      assert tags[0].key == Keys(tags)[0];
      assert Keys(tags[1..]) == Keys(tags)[1..];
      AddValueNew(tags[1..], key, value);
      assert tags == [tags[0]] + tags[1..];
    }
  }

  lemma {:induction false} AddValueSkip(tags: seq<Tag>, key: string, value: string)
    requires |tags| > 0 && tags[0].key != key
    ensures AddValue(tags, key, value) == [tags[0]] + AddValue(tags[1..], key, value)
  {
  }

  /** A value under the key of the last entry joins that entry. */
  lemma {:induction false} AddValueLast(tags: seq<Tag>, key: string, values: seq<string>, value: string)
    requires key !in Keys(tags)
    ensures AddValue(tags + [Tag(key, values)], key, value) == tags + [Tag(key, values + [value])]
    decreases |tags|
  {
    var t := tags + [Tag(key, values)];
    if |tags| == 0 {
      assert t == [Tag(key, values)];
      assert t[1..] == [];
      assert AddValue(t, key, value) == [Tag(key, values + [value])] + [];
    } else {
      assert Keys(tags) == [tags[0].key] + Keys(tags[1..]);
      assert tags[0].key != key && key !in Keys(tags[1..]);
      var rest := tags[1..] + [Tag(key, values)];
      assert t[0] == tags[0] && t[1..] == rest;
      AddValueSkip(t, key, value);
      AddValueLast(tags[1..], key, values, value);
      assert tags + [Tag(key, values + [value])] == [tags[0]] + (tags[1..] + [Tag(key, values + [value])]);
    }
  }

  /** Applying tokens one list after another is applying them together. */
  lemma {:induction false} ApplyTokensAppend(props: TaskProperties, a: seq<string>, b: seq<string>)
    ensures ApplyTokens(props, a + b) == ApplyTokens(ApplyTokens(props, a), b)
    decreases |b|
  {
    if |b| == 0 {
      assert a + b == a;
    } else {
      var init := b[..|b| - 1];
      ApplyTokensAppend(props, a, init);
      assert (a + b)[..|a + b| - 1] == a + init;
    }
  }

  /** Custom keys the decoder keeps apart from the four named properties. */
  predicate IsCustomKey(key: string) {
    key != "state" && key != "due" && key != "name" && key != "notes"
  }

  /** The encoder's token for a custom key adds its value under that key. */
  lemma {:induction false} ApplyTagToken(props: TaskProperties, key: string, value: string)
    requires IsTagWord(key) && IsTagWord(value) && IsCustomKey(key)
    ensures ApplyToken(props, TagToken(key, value)) == props.(tags := AddValue(props.tags, key, value))
  {
    SplitTagToken(key, value);
  }

  /** The tokens of one entry rebuild that entry after the ones already there. */
  lemma {:induction false} ApplyEntryTokens(props: TaskProperties, key: string, values: seq<string>)
    requires IsTagWord(key) && IsCustomKey(key) && key !in Keys(props.tags)
    requires forall j :: 0 <= j < |values| ==> IsTagWord(values[j])
    requires |values| > 0
    ensures ApplyTokens(props, EntryTokens(key, values)) == props.(tags := props.tags + [Tag(key, values)])
    decreases |values|
  {
    var init := values[..|values| - 1];
    var last := values[|values| - 1];
    var toks := EntryTokens(key, values);
    assert toks == EntryTokens(key, init) + [TagToken(key, last)];
    assert toks[..|toks| - 1] == EntryTokens(key, init);
    var before := ApplyTokens(props, EntryTokens(key, init));
    assert ApplyTokens(props, toks) == ApplyToken(before, TagToken(key, last));
    ApplyTagToken(before, key, last);
    if |init| == 0 {
      AddValueNew(props.tags, key, last);
      assert values == [last];
    } else {
      ApplyEntryTokens(props, key, init);
      AddValueLast(props.tags, key, init, last);
      assert init + [last] == values;
    }
  }

  /** The custom keys of a record the round trip covers. */
  predicate StorableTags(tags: seq<Tag>) {
    && TagWords(tags)
    && DistinctKeys(tags)
    && forall i :: 0 <= i < |tags| ==> IsCustomKey(tags[i].key)
  }

  /** Dropping the last entry keeps a storable tag part storable. */
  lemma StorableInit(tags: seq<Tag>)
    requires StorableTags(tags) && |tags| > 0
    ensures StorableTags(tags[..|tags| - 1])
    ensures var last := tags[|tags| - 1];
      IsTagWord(last.key) && IsCustomKey(last.key)
      && forall j :: 0 <= j < |last.values| ==> IsTagWord(last.values[j])
  {
    var init := tags[..|tags| - 1];
    assert forall i :: 0 <= i < |init| ==> init[i] == tags[i];
  }

  /** The last key of a tag part with distinct keys is not among the kept earlier entries. */
  lemma LastKeyFresh(tags: seq<Tag>)
    requires DistinctKeys(tags) && |tags| > 0
    ensures tags[|tags| - 1].key !in Keys(NonEmptyTags(tags[..|tags| - 1]))
  {
    var init := tags[..|tags| - 1];
    var kept := NonEmptyTags(init);
    NonEmptyTagsFrom(init);
    KeysAt(kept);
    forall i | 0 <= i < |kept|
      ensures Keys(kept)[i] != tags[|tags| - 1].key
    {
      assert kept[i] in init;
      var j :| 0 <= j < |init| && init[j] == kept[i];
      assert init[j] == tags[j];
    }
  }

  /** The tokens of the custom-tag lines rebuild the entries that have values, in order. */
  lemma {:induction false} ApplyTagTokens(props: TaskProperties, tags: seq<Tag>)
    requires StorableTags(tags)
    requires forall i :: 0 <= i < |tags| ==> tags[i].key !in Keys(props.tags)
    ensures ApplyTokens(props, TagTokens(tags)) == props.(tags := props.tags + NonEmptyTags(tags))
    decreases |tags|
  {
    if |tags| == 0 {
      assert props.tags + [] == props.tags;
    } else {
      var init := tags[..|tags| - 1];
      StorableInit(tags);
      assert forall i :: 0 <= i < |init| ==> init[i].key !in Keys(props.tags) by {
        assert forall i :: 0 <= i < |init| ==> init[i] == tags[i];
      }
      ApplyTagTokens(props, init);
      ApplyLastEntryTokens(props, tags);
    }
  }

  /** The step of `ApplyTagTokens` for the last entry. */
  lemma {:induction false} ApplyLastEntryTokens(props: TaskProperties, tags: seq<Tag>)
    requires StorableTags(tags) && |tags| > 0
    requires tags[|tags| - 1].key !in Keys(props.tags)
    requires var init := tags[..|tags| - 1];
      ApplyTokens(props, TagTokens(init)) == props.(tags := props.tags + NonEmptyTags(init))
    ensures ApplyTokens(props, TagTokens(tags)) == props.(tags := props.tags + NonEmptyTags(tags))
  {
    var init := tags[..|tags| - 1];
    var last := tags[|tags| - 1];
    StorableInit(tags);
    var q := props.(tags := props.tags + NonEmptyTags(init));
    ApplyTokensAppend(props, TagTokens(init), EntryTokens(last.key, last.values));
    assert TagTokens(tags) == TagTokens(init) + EntryTokens(last.key, last.values);
    if |last.values| == 0 {
      assert NonEmptyTags(tags) == NonEmptyTags(init);
      assert EntryTokens(last.key, last.values) == [];
    } else {
      KeysOfAppend(props.tags, NonEmptyTags(init));
      LastKeyFresh(tags);
      assert last.key !in Keys(q.tags);
      ApplyEntryTokens(q, last.key, last.values);
      assert NonEmptyTags(tags) == NonEmptyTags(init) + [last];
    }
  }

  // ---------------------------------------------------------------------------
  // The tokens of a written file

  /** Text the decoder reads as free-form: no tag token and no notes delimiter in it. */
  predicate SafeText(s: string) {
    HasNoTag(s) && NotIn(NotesDelimiter, s)
  }

  lemma {:induction false} HasNoTagWithoutHash(s: string)
    requires '#' !in s
    ensures HasNoTag(s)
  {
    forall i | 0 <= i < |s|
      ensures s[i] != '#'
    {
      assert s[i] in s;
    }
  }

  /** Appending text without a tag token adds no token. */
  lemma {:induction false} TokensAppendNone(a: string, b: string)
    requires SeamSafe(a, b) && HasNoTag(b)
    ensures Tokens(a + b) == Tokens(a)
  {
    NoTagIffNoTokens(b);
    TokensAppend(a, b);
    assert Tokens(a) + [] == Tokens(a);
  }

  /** An ISO date is a tag word: digits and '-' only. */
  lemma {:induction false} DateIsTagWord(d: CalendarDate)
    ensures IsTagWord(DateString(d))
  {
    var r := DateString(d);
    forall i | 0 <= i < |r|
      ensures IsTokenChar(r[i]) && r[i] != '/'
    {
      if i < 4 {
        assert r[i] == r[..4][i];
      } else if 4 < i < 7 {
        assert r[i] == r[5..7][i - 5];
      } else if 7 < i {
        assert r[i] == r[8..][i - 8];
      }
    }
  }

  lemma {:induction false} StateWordIsTagWord(state: Option<bool>)
    ensures IsTagWord(StateWord(state))
  {
    var w := StateWord(state);
    assert forall i :: 0 <= i < |w| ==> 'a' <= w[i] <= 'z';
  }

  lemma {:induction false} TagLineStart(key: string, value: string, desc: string)
    ensures |TagLine(key, value, desc)| > 0 && TagLine(key, value, desc)[0] == '\n'
  {
  }

  /** The encoder's opening lines up to the name hold no tag token. */
  lemma {:induction false} NoTagInHead(n: string)
    requires IsTaskName(n)
    ensures HasNoTag("---" + "\nname: " + n)
  {
    var a := "---" + "\nname: " + n;
    forall i | 0 <= i < |a|
      ensures a[i] != '#'
    {
      if i >= 10 {
        assert a[i] == n[i - 10];
      }
    }
    HasNoTagWithoutHash(a);
  }

  lemma {:induction false} NotesTextSafe(notes: Option<string>)
    requires notes.Some? ==> SafeText(notes.value)
    ensures SafeText(NotesText(notes))
  {
    if notes.Some? {
      NoTagTrim(notes.value);
      NotInTrim(NotesDelimiter, notes.value);
    }
  }

  /** The metadata block of a written file holds its tokens in writing order. */
  lemma {:induction false} TokensOfMetadata(props: TaskProperties, due: CalendarDate, desc: string)
    requires props.name.Some? && IsTaskName(props.name.value)
    requires TagWords(props.tags) && HasNoTag(desc)
    ensures Tokens(Metadata(props, due, desc))
      == [TagToken("due", DateString(due))] + TagTokens(props.tags) + [TagToken("state", StateWord(props.state))]
  {
    var a0 := "---" + "\nname: " + props.name.value;
    var dl := TagLine("due", DateString(due), desc);
    var tl := TagLines(props.tags);
    var sl := TagLine("state", StateWord(props.state), "");
    var a1 := a0 + dl;
    var a2 := a1 + tl;
    var a3 := a2 + sl;
    assert Metadata(props, due, desc) == a3 + "\n---";
    NoTagInHead(props.name.value);
    NoTagIffNoTokens(a0);
    DateIsTagWord(due);
    TokensOfTagLine("due", DateString(due), desc);
    TagLineStart("due", DateString(due), desc);
    TokensAppend(a0, dl);
    TokensOfTagLines(props.tags);
    TagLinesStart(props.tags);
    TokensAppend(a1, tl);
    StateWordIsTagWord(props.state);
    TokensOfTagLine("state", StateWord(props.state), "");
    TagLineStart("state", StateWord(props.state), "");
    TokensAppend(a2, sl);
    HasNoTagWithoutHash("\n---");
    TokensAppendNone(a3, "\n---");
  }

  /** A written file holds the tokens of its metadata block and no other. */
  lemma {:induction false} TokensOfLayout(props: TaskProperties, settings: FileTasksSettings, due: CalendarDate, desc: string)
    requires props.name.Some? && IsTaskName(props.name.value)
    requires TagWords(props.tags) && HasNoTag(desc)
    requires HasNoTag(Footer(settings, props.state))
    requires props.notes.Some? ==> HasNoTag(props.notes.value)
    ensures Tokens(Layout(props, settings, due, desc)) == Tokens(Metadata(props, due, desc))
  {
    var a4 := Metadata(props, due, desc);
    var f := Trim(Footer(settings, props.state));
    var nt := NotesText(props.notes);
    var a5 := a4 + "\n";
    var a6 := a5 + f;
    var a7 := a6 + "\n";
    var a8 := a7 + NotesDelimiter;
    var a9 := a8 + "\n";
    assert Layout(props, settings, due, desc) == a9 + nt;
    HasNoTagWithoutHash("\n");
    HasNoTagWithoutHash(NotesDelimiter);
    NoTagTrim(Footer(settings, props.state));
    if props.notes.Some? {
      NoTagTrim(props.notes.value);
    }
    TokensAppendNone(a4, "\n");
    TokensAppendNone(a5, f);
    TokensAppendNone(a6, "\n");
    TokensAppendNone(a7, NotesDelimiter);
    TokensAppendNone(a8, "\n");
    TokensAppendNone(a9, nt);
  }

  // ---------------------------------------------------------------------------
  // The notes delimiter occurs once in a written file

  /** The delimiter's characters: text without one of them cannot hold it. */
  lemma {:induction false} DelimiterChars()
    ensures NotesDelimiter[0] == '-' && NotesDelimiter[3] == ' ' && NotesDelimiter[4] == 'T'
    ensures '\n' !in NotesDelimiter && ':' !in NotesDelimiter && '#' !in NotesDelimiter && '/' !in NotesDelimiter
  {
    var d := NotesDelimiter;
    assert d == "--- Task notes below ---";
    assert forall i :: 0 <= i < |d| ==> d[i] == '-' || d[i] == ' ' || ('a' <= d[i] <= 'z') || d[i] == 'T';
  }

  lemma {:induction false} NotInWithoutT(s: string)
    requires 'T' !in s
    ensures NotIn(NotesDelimiter, s)
  {
    DelimiterChars();
    NotInMissingChar(NotesDelimiter, s, 'T');
  }

  lemma {:induction false} TagWordNotIn(w: string)
    requires IsTagWord(w)
    ensures NotIn(NotesDelimiter, w)
  {
    DelimiterChars();
    NotInMissingChar(NotesDelimiter, w, ' ');
  }

  /** A tag line holds no delimiter unless its description does. */
  lemma {:induction false} NotInTagLine(key: string, value: string, desc: string)
    requires IsTagWord(key) && IsTagWord(value) && NotIn(NotesDelimiter, desc)
    requires desc == "" || value[|value| - 1] !in NotesDelimiter
    ensures NotIn(NotesDelimiter, TagLine(key, value, desc))
  {
    var d := NotesDelimiter;
    DelimiterChars();
    TagWordNotIn(key);
    TagWordNotIn(value);
    NotInWithoutT(": #");
    NotInWithoutT("/");
    NotInMissingChar(d, TaskTagPrefix, ' ');
    var p1 := "\n" + key;
    NotInLead(d, "\n", key);
    var p2 := p1 + ": #";
    NotInJoin(d, p1, ": #");
    var p3 := p2 + TaskTagPrefix;
    NotInJoin(d, p2, TaskTagPrefix);
    var p4 := p3 + "/";
    NotInJoin(d, p3, "/");
    var p5 := p4 + key;
    NotInJoin(d, p4, key);
    var p6 := p5 + "/";
    NotInJoin(d, p5, "/");
    var p7 := p6 + value;
    NotInJoin(d, p6, value);
    if desc == "" {
      assert TagLine(key, value, desc) == p7 + "";
      assert p7 + "" == p7;
    } else {
      NotInLead(d, " ", desc);
      assert (p7)[|p7| - 1] == value[|value| - 1];
      NotInJoin(d, p7, " " + desc);
      assert TagLine(key, value, desc) == p7 + (" " + desc);
    }
  }

  lemma {:induction false} NotInEntryLines(key: string, values: seq<string>)
    requires IsTagWord(key) && forall j :: 0 <= j < |values| ==> IsTagWord(values[j])
    ensures NotIn(NotesDelimiter, EntryLines(key, values))
  {
    if |values| > 0 {
      var init := values[..|values| - 1];
      NotInEntryLines(key, init);
      NotInTagLine(key, values[|values| - 1], "");
      TagLineStart(key, values[|values| - 1], "");
      DelimiterChars();
      NotInJoin(NotesDelimiter, EntryLines(key, init), TagLine(key, values[|values| - 1], ""));
    }
  }

  lemma {:induction false} NotInTagLines(tags: seq<Tag>)
    requires TagWords(tags)
    ensures NotIn(NotesDelimiter, TagLines(tags))
  {
    if |tags| > 0 {
      var init := tags[..|tags| - 1];
      var last := tags[|tags| - 1];
      assert TagWords(init) by {
        assert forall i :: 0 <= i < |init| ==> init[i] == tags[i];
      }
      NotInTagLines(init);
      NotInEntryLines(last.key, last.values);
      var e := EntryLines(last.key, last.values);
      if e == "" {
        assert TagLines(init) + e == TagLines(init);
      } else {
        EntryLinesStart(last.key, last.values);
        DelimiterChars();
        NotInJoin(NotesDelimiter, TagLines(init), e);
      }
    }
  }

  /** The metadata block holds no delimiter when the name and the due description hold none. */
  lemma {:induction false} NotInMetadata(props: TaskProperties, due: CalendarDate, desc: string)
    requires props.name.Some? && NotIn(NotesDelimiter, props.name.value)
    requires TagWords(props.tags) && NotIn(NotesDelimiter, desc)
    ensures NotIn(NotesDelimiter, Metadata(props, due, desc))
  {
    var d := NotesDelimiter;
    DelimiterChars();
    var n := props.name.value;
    var date := DateString(due);
    var head := "\nname: " + n;
    NotInLead(d, "\nname: ", n);
    NotInWithoutT("---");
    NotInJoin(d, "---", head);
    var a0 := "---" + "\nname: " + n;
    assert a0 == "---" + head;
    var dl := TagLine("due", date, desc);
    DateIsTagWord(due);
    assert date[9] == date[8..][1];
    NotInTagLine("due", date, desc);
    TagLineStart("due", date, desc);
    NotInJoin(d, a0, dl);
    var a1 := a0 + dl;
    var tl := TagLines(props.tags);
    NotInTagLines(props.tags);
    var a2 := a1 + tl;
    if tl == "" {
      assert a2 == a1;
    } else {
      TagLinesStart(props.tags);
      NotInJoin(d, a1, tl);
    }
    var sl := TagLine("state", StateWord(props.state), "");
    StateWordIsTagWord(props.state);
    NotInTagLine("state", StateWord(props.state), "");
    TagLineStart("state", StateWord(props.state), "");
    NotInJoin(d, a2, sl);
    var a3 := a2 + sl;
    NotInWithoutT("\n---");
    NotInJoin(d, a3, "\n---");
    assert Metadata(props, due, desc) == a3 + "\n---";
  }

  /** Splitting a written file at the delimiter gives the part before it and the notes line. */
  lemma {:induction false} NotesOfLayout(props: TaskProperties, settings: FileTasksSettings, due: CalendarDate, desc: string)
    requires props.name.Some? && NotIn(NotesDelimiter, props.name.value)
    requires TagWords(props.tags) && NotIn(NotesDelimiter, desc)
    requires NotIn(NotesDelimiter, Footer(settings, props.state))
    requires props.notes.Some? ==> NotIn(NotesDelimiter, props.notes.value)
    ensures NotesOf(Layout(props, settings, due, desc)) == Some("\n" + NotesText(props.notes))
  {
    var d := NotesDelimiter;
    DelimiterChars();
    var a4 := Metadata(props, due, desc);
    NotInMetadata(props, due, desc);
    var f := Trim(Footer(settings, props.state));
    NotInTrim(d, Footer(settings, props.state));
    NotInWithoutT("\n");
    NotInJoin(d, a4, "\n");
    var a5 := a4 + "\n";
    NotInJoin(d, a5, f);
    var a6 := a5 + f;
    NotInJoin(d, a6, "\n");
    var a7 := a6 + "\n";
    var nt := NotesText(props.notes);
    if props.notes.Some? {
      NotInTrim(d, props.notes.value);
    }
    NotInLead(d, "\n", nt);
    var tail := "\n" + nt;
    var text := Layout(props, settings, due, desc);
    assert text == a7 + d + tail;
    SplitAround(a7, d, tail);
    assert OccursAt(text, d, |a7|) by {
      assert text[|a7|..|a7| + |d|] == d;
    }
  }

  // ---------------------------------------------------------------------------
  // The name line of a written file

  /** The name line of a written file is the one the decoder finds. */
  lemma {:induction false} FindNameOfLayout(props: TaskProperties, settings: FileTasksSettings, due: CalendarDate, desc: string)
    requires props.name.Some? && IsTaskName(props.name.value)
    ensures FindName(Layout(props, settings, due, desc)) == props.name
  {
    var n := props.name.value;
    var a0 := "---" + "\nname: " + n;
    var dl := TagLine("due", DateString(due), desc);
    TagLineStart("due", DateString(due), desc);
    var m := dl + TagLines(props.tags) + TagLine("state", StateWord(props.state), "") + "\n---";
    assert m[0] == '\n';
    MetadataAfterName(props, due, desc);
    var r := m + "\n" + Trim(Footer(settings, props.state)) + "\n" + NotesDelimiter + "\n" + NotesText(props.notes);
    assert r[0] == '\n';
    LayoutAfterMetadata(Metadata(props, due, desc), a0, m, Trim(Footer(settings, props.state)), NotesText(props.notes));
    FindNameOfEncoding(n, r);
  }

  lemma {:induction false} MetadataAfterName(props: TaskProperties, due: CalendarDate, desc: string)
    requires props.name.Some?
    ensures Metadata(props, due, desc) == ("---" + "\nname: " + props.name.value)
      + (TagLine("due", DateString(due), desc) + TagLines(props.tags)
         + TagLine("state", StateWord(props.state), "") + "\n---")
  {
  }

  lemma {:induction false} LayoutAfterMetadata(md: string, a0: string, m: string, f: string, nt: string)
    requires md == a0 + m
    ensures md + "\n" + f + "\n" + NotesDelimiter + "\n" + nt
      == a0 + (m + "\n" + f + "\n" + NotesDelimiter + "\n" + nt)
  {
  }

  // ---------------------------------------------------------------------------
  // Round trip and idempotence

  /**
    What the round trip requires of a record, its settings and the rendering of
    its due date: a name the name pattern captures whole, a valid due date,
    custom tags written as tag words under distinct custom keys, and free-form
    text (description, footer, notes) that holds no tag token and no delimiter.
   */
  predicate Storable(props: TaskProperties, settings: FileTasksSettings, describe: CalendarDate -> string) {
    && props.name.Some? && IsTaskName(props.name.value) && NotIn(NotesDelimiter, props.name.value)
    && props.due.Some? && props.due.value.ValidDate?
    && StorableTags(props.tags)
    && SafeText(describe(props.due.value.date))
    && SafeText(Footer(settings, props.state))
    && (props.notes.Some? ==> SafeText(props.notes.value))
  }

  /**
    The record the decoder rebuilds from a written file: the state made explicit,
    the notes as they follow the delimiter line, the empty tag arrays gone.
   */
  function Reread(props: TaskProperties): TaskProperties {
    TaskProperties(
      Some(IsDone(props.state)),
      props.name,
      props.due,
      Some("\n" + NotesText(props.notes)),
      NonEmptyTags(props.tags))
  }

  /** The due token sets the due date it was written from. */
  lemma {:induction false} ApplyDueToken(p: TaskProperties, due: CalendarDate)
    ensures ApplyToken(p, TagToken("due", DateString(due))) == p.(due := Some(ValidDate(due)))
  {
    DateIsTagWord(due);
    SplitTagToken("due", DateString(due));
    ParseDateString(due);
  }

  /** The state token sets the state it was written from. */
  lemma {:induction false} ApplyStateToken(p: TaskProperties, state: Option<bool>)
    ensures ApplyToken(p, TagToken("state", StateWord(state))) == p.(state := Some(IsDone(state)))
  {
    StateWordIsTagWord(state);
    SplitTagToken("state", StateWord(state));
  }

  /** The tokens of a metadata block, applied in order, set the due date, the tags and the state. */
  lemma {:induction false} ApplyMetadataTokens(p0: TaskProperties, props: TaskProperties, due: CalendarDate)
    requires p0.tags == [] && StorableTags(props.tags)
    ensures ApplyTokens(p0, [TagToken("due", DateString(due))] + TagTokens(props.tags)
                              + [TagToken("state", StateWord(props.state))])
      == p0.(due := Some(ValidDate(due)), tags := NonEmptyTags(props.tags), state := Some(IsDone(props.state)))
  {
    var dueTok := TagToken("due", DateString(due));
    var stateTok := TagToken("state", StateWord(props.state));
    var tt := TagTokens(props.tags);
    assert ApplyTokens(p0, [dueTok]) == ApplyToken(ApplyTokens(p0, []), dueTok);
    ApplyDueToken(p0, due);
    var p1 := p0.(due := Some(ValidDate(due)));
    ApplyTokensAppend(p0, [dueTok], tt);
    ApplyTagTokens(p1, props.tags);
    assert [] + NonEmptyTags(props.tags) == NonEmptyTags(props.tags);
    var p2 := p1.(tags := NonEmptyTags(props.tags));
    assert ApplyTokens(p0, [dueTok] + tt) == p2;
    var toks := [dueTok] + tt + [stateTok];
    assert toks[..|toks| - 1] == [dueTok] + tt;
    assert ApplyTokens(p0, toks) == ApplyToken(ApplyTokens(p0, [dueTok] + tt), stateTok);
    ApplyStateToken(p2, props.state);
  }

  /** Reading a written file gives back the record it was written from, as `Reread` normalises it. */
  lemma {:induction false} DecodeLayout(props: TaskProperties, settings: FileTasksSettings, due: CalendarDate, desc: string)
    requires props.name.Some? && IsTaskName(props.name.value) && NotIn(NotesDelimiter, props.name.value)
    requires props.due == Some(ValidDate(due))
    requires StorableTags(props.tags) && SafeText(desc) && SafeText(Footer(settings, props.state))
    requires props.notes.Some? ==> SafeText(props.notes.value)
    ensures Decode(Layout(props, settings, due, desc)) == Reread(props)
  {
    var text := Layout(props, settings, due, desc);
    TokensOfMetadata(props, due, desc);
    TokensOfLayout(props, settings, due, desc);
    FindNameOfLayout(props, settings, due, desc);
    NotesOfLayout(props, settings, due, desc);
    ApplyMetadataTokens(NoProperties.(name := props.name), props, due);
  }

  /** The decoder undoes the encoder, up to the normalisation `Reread` describes. */
  lemma {:induction false} RoundTrip(props: TaskProperties, settings: FileTasksSettings, describe: CalendarDate -> string)
    requires Storable(props, settings, describe)
    ensures Encode(props, settings, describe).Success?
    ensures Decode(Encode(props, settings, describe).value) == Reread(props)
  {
    var due := props.due.value.date;
    DecodeLayout(props, settings, due, describe(due));
  }

  lemma {:induction false} EntryLinesEmpty(key: string, values: seq<string>)
    requires |values| == 0
    ensures EntryLines(key, values) == ""
  {
  }

  /** Entries without values write no line, so dropping them changes nothing. */
  lemma {:induction false} TagLinesNonEmpty(tags: seq<Tag>)
    ensures TagLines(NonEmptyTags(tags)) == TagLines(tags)
  {
    if |tags| > 0 {
      var init := tags[..|tags| - 1];
      var last := tags[|tags| - 1];
      TagLinesNonEmpty(init);
      if |last.values| == 0 {
        EntryLinesEmpty(last.key, last.values);
        assert NonEmptyTags(tags) == NonEmptyTags(init);
        assert TagLines(tags) == TagLines(init) + "";
      } else {
        var kept := NonEmptyTags(init) + [last];
        assert NonEmptyTags(tags) == kept;
        assert kept[..|kept| - 1] == NonEmptyTags(init);
      }
    }
  }

  /** The notes as reread write out as the notes did. */
  lemma {:induction false} NotesTextReread(notes: Option<string>)
    ensures NotesText(Some("\n" + NotesText(notes))) == NotesText(notes)
  {
    var t := NotesText(notes);
    assert t == [] || (!IsTrimmable(t[0]) && !IsTrimmable(t[|t| - 1]));
    TrimOfTrimmed(t);
    assert IsTrimmable('\n');
    TrimSkipsLeading('\n', t);
    assert "\n" + t == ['\n'] + t;
  }

  /** Writing a reread record gives back the text it was read from. */
  lemma {:induction false} EncodeReread(props: TaskProperties, settings: FileTasksSettings, describe: CalendarDate -> string)
    ensures Encode(Reread(props), settings, describe) == Encode(props, settings, describe)
  {
    var q := Reread(props);
    TagLinesNonEmpty(props.tags);
    NotesTextReread(props.notes);
    assert StateWord(q.state) == StateWord(props.state);
    assert Footer(settings, q.state) == Footer(settings, props.state);
    if props.due.Some? && props.due.value.ValidDate? {
      var due := props.due.value.date;
      assert Metadata(q, due, describe(due)) == Metadata(props, due, describe(due));
    }
  }

  /** Encoding is idempotent across a decode: rewriting a task's own file leaves it as it was. */
  lemma {:induction false} EncodeDecodeEncode(props: TaskProperties, settings: FileTasksSettings, describe: CalendarDate -> string)
    requires Storable(props, settings, describe)
    ensures Encode(props, settings, describe).Success?
    ensures Encode(Decode(Encode(props, settings, describe).value), settings, describe)
      == Encode(props, settings, describe)
  {
    RoundTrip(props, settings, describe);
    EncodeReread(props, settings, describe);
  }

  /** A reread record is stored under the path of the record it was written from. */
  lemma {:induction false} PathReread(props: TaskProperties)
    ensures NewTaskPath(Reread(props)) == NewTaskPath(props)
  {
  }

  // ---------------------------------------------------------------------------
  // The shape of a written file

  lemma {:induction false} DueLineShape(date: string, desc: string)
    ensures TagLine("due", date, desc) == "\ndue: #tasks/due/" + date + (if desc != "" then " " + desc else "")
  {
  }

  lemma {:induction false} HeadShape(n: string, date: string, desc: string)
    ensures "---" + "\nname: " + n + TagLine("due", date, desc)
      == "---\nname: " + n + "\ndue: #tasks/due/" + date + (if desc != "" then " " + desc else "")
  {
    DueLineShape(date, desc);
    var x := "---\nname: " + n;
    assert "---" + "\nname: " + n == x;
  }

  /** A written file opens with the metadata fence, the name line and the due line. */
  lemma {:induction false} EncodingHeader(props: TaskProperties, settings: FileTasksSettings, describe: CalendarDate -> string)
    requires props.due.Some? && props.due.value.ValidDate?
    ensures Encode(props, settings, describe).Success?
    ensures var d := props.due.value.date;
      "---\nname: " + Interpolated(props.name) + "\ndue: #tasks/due/" + DateString(d)
        + (if describe(d) != "" then " " + describe(d) else "")
        <= Encode(props, settings, describe).value
  {
    var d := props.due.value.date;
    var desc := describe(d);
    var n := Interpolated(props.name);
    var head := "---" + "\nname: " + n + TagLine("due", DateString(d), desc);
    HeadShape(n, DateString(d), desc);
    var m := TagLines(props.tags) + TagLine("state", StateWord(props.state), "") + "\n---";
    HeadThenRest(props, d, desc);
    var f := Trim(Footer(settings, props.state));
    var nt := NotesText(props.notes);
    LayoutAfterMetadata(Metadata(props, d, desc), head, m, f, nt);
    var rest := m + "\n" + f + "\n" + NotesDelimiter + "\n" + nt;
    assert Layout(props, settings, d, desc) == head + rest;
    assert (head + rest)[..|head|] == head;
  }

  lemma {:induction false} HeadThenRest(props: TaskProperties, due: CalendarDate, desc: string)
    ensures Metadata(props, due, desc)
      == ("---" + "\nname: " + Interpolated(props.name) + TagLine("due", DateString(due), desc))
        + (TagLines(props.tags) + TagLine("state", StateWord(props.state), "") + "\n---")
  {
  }

  lemma {:induction false} MetadataBeforeState(props: TaskProperties, due: CalendarDate, desc: string)
    ensures Metadata(props, due, desc)
      == ("---" + "\nname: " + Interpolated(props.name) + TagLine("due", DateString(due), desc) + TagLines(props.tags))
        + (TagLine("state", StateWord(props.state), "") + "\n---")
  {
  }

  lemma {:induction false} TailShape(sl: string, f: string, nt: string)
    ensures sl + "\n---" + "\n" + f + "\n" + NotesDelimiter + "\n" + nt
      == sl + "\n---\n" + f + "\n--- Task notes below ---\n" + nt
  {
  }

  lemma {:induction false} StateLineShape(state: Option<bool>)
    ensures TagLine("state", StateWord(state), "") == "\nstate: #tasks/state/" + StateWord(state)
  {
  }

  /**
    A written file closes with the state line, the closing fence, the trimmed
    footer of its state, the notes delimiter and the trimmed notes.
   */
  lemma {:induction false} EncodingTail(props: TaskProperties, settings: FileTasksSettings, describe: CalendarDate -> string)
    requires props.due.Some? && props.due.value.ValidDate?
    ensures Encode(props, settings, describe).Success?
    ensures var v := Encode(props, settings, describe).value;
      var tail := "\nstate: #tasks/state/" + StateWord(props.state) + "\n---\n" + Trim(Footer(settings, props.state))
        + "\n--- Task notes below ---\n" + NotesText(props.notes);
      |tail| <= |v| && v[|v| - |tail|..] == tail
  {
    var d := props.due.value.date;
    var desc := describe(d);
    var head := "---" + "\nname: " + Interpolated(props.name) + TagLine("due", DateString(d), desc) + TagLines(props.tags);
    var sl := TagLine("state", StateWord(props.state), "");
    var f := Trim(Footer(settings, props.state));
    var nt := NotesText(props.notes);
    StateLineShape(props.state);
    var m := sl + "\n---";
    MetadataBeforeState(props, d, desc);
    LayoutAfterMetadata(Metadata(props, d, desc), head, m, f, nt);
    TailShape(sl, f, nt);
    var tail := sl + "\n---\n" + f + "\n--- Task notes below ---\n" + nt;
    assert Layout(props, settings, d, desc) == head + tail;
    assert (head + tail)[|head|..] == tail;
  }
}
