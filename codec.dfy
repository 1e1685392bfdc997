/**
  The task codec of the plugin's main module: the file path a task record is
  stored under, the text a record is written as, and the record read back from
  such a text.
 */
module TaskCodec {
  import opened Wrappers
  import opened JsText
  import opened Dates
  import opened Records

  const UncheckedGlyph: char := '\U{2610}'
  const CheckedGlyph: char := '\U{2611}'
  const TaskTagPrefix: string := "tasks"
  const PathPrefix: string := "Tasks"
  const NotesDelimiter: string := "--- Task notes below ---"

  /** The truthiness of `props.state`: an absent state counts as not done. */
  predicate IsDone(state: Option<bool>) {
    state == Some(true)
  }

  /** A name as a template literal renders it: an absent name prints as `undefined`. */
  function Interpolated(name: Option<string>): string {
    match name
    case Some(n) => n
    case None => "undefined"
  }

  // ---------------------------------------------------------------------------
  // getNewTaskPath

  /** The path a task is stored under: `Tasks/<glyph> <name>.md`. */
  function NewTaskPath(props: TaskProperties): (path: string)
    ensures PathPrefix <= path
    ensures |path| == |Interpolated(props.name)| + 11
    ensures path[6] == (if IsDone(props.state) then CheckedGlyph else UncheckedGlyph)
    ensures path[8..|path| - 3] == Interpolated(props.name) && path[|path| - 3..] == ".md"
  {
    var path := PathPrefix + "/" + [if IsDone(props.state) then CheckedGlyph else UncheckedGlyph]
      + " " + Interpolated(props.name) + ".md";
    assert |PathPrefix| == 5 && path[..5] == PathPrefix;
    assert path[6] == path[..7][6];
    assert path[8..|path| - 3] == Interpolated(props.name);
    path
  }

  // ---------------------------------------------------------------------------
  // getNewTaskData

  /** `getTagLine(tag, value, desc)`: one metadata line holding one tag token. */
  function TagLine(tag: string, value: string, desc: string): string {
    "\n" + tag + ": #" + TaskTagPrefix + "/" + tag + "/" + value
      + (if desc != "" then " " + desc else "")
  }

  /** The lines for one array-valued property: one tag line per value, in order. */
  function EntryLines(key: string, values: seq<string>): string {
    if |values| == 0 then ""
    else EntryLines(key, values[..|values| - 1]) + TagLine(key, values[|values| - 1], "")
  }

  /** The lines for all array-valued properties, in the record's key order. */
  function TagLines(tags: seq<Tag>): string {
    if |tags| == 0 then ""
    else
      var last := tags[|tags| - 1];
      TagLines(tags[..|tags| - 1]) + EntryLines(last.key, last.values)
  }

  lemma {:induction false} EntryLinesStep(key: string, values: seq<string>, j: nat)
    requires j < |values|
    ensures EntryLines(key, values[..j + 1]) == EntryLines(key, values[..j]) + TagLine(key, values[j], "")
  {
    assert values[..j + 1][..j] == values[..j];
  }

  lemma {:induction false} TagLinesStep(tags: seq<Tag>, i: nat)
    requires i < |tags|
    ensures TagLines(tags[..i + 1]) == TagLines(tags[..i]) + EntryLines(tags[i].key, tags[i].values)
  {
    assert tags[..i + 1][..i] == tags[..i];
  }

  function StateWord(state: Option<bool>): string {
    if IsDone(state) then "done" else "todo"
  }

  function Footer(settings: FileTasksSettings, state: Option<bool>): string {
    if IsDone(state) then settings.doneFooter else settings.todoFooter
  }

  /** `notes ? notes.trim() : ""`. */
  function NotesText(notes: Option<string>): string {
    match notes
    case Some(n) => Trim(n)
    case None => ""
  }

  /** The metadata block, from the opening `---` to the closing one. */
  function Metadata(props: TaskProperties, due: CalendarDate, desc: string): string {
    "---" + "\nname: " + Interpolated(props.name)
      + TagLine("due", DateString(due), desc)
      + TagLines(props.tags)
      + TagLine("state", StateWord(props.state), "")
      + "\n---"
  }

  /** The whole file text: metadata block, footer, notes delimiter and notes. */
  function Layout(props: TaskProperties, settings: FileTasksSettings, due: CalendarDate, desc: string): string {
    Metadata(props, due, desc)
      + "\n" + Trim(Footer(settings, props.state))
      + "\n" + NotesDelimiter
      + "\n" + NotesText(props.notes)
  }

  /** Why `getNewTaskData` throws: `getDateString` is called on whatever `due` holds. */
  datatype EncodeError =
    | MissingDue   // `undefined.toISOString()` is a TypeError
    | InvalidDue   // `toISOString()` on an Invalid Date is a RangeError

  /**
    The text `getNewTaskData(props, settings)` returns. `describe` is the
    human-readable rendering of the due date that follows the ISO date.
   */
  function Encode(props: TaskProperties, settings: FileTasksSettings, describe: CalendarDate -> string)
    : (r: Result<string, EncodeError>)
    ensures r.Success? <==> props.due.Some? && props.due.value.ValidDate?
    ensures r == Failure(MissingDue) <==> props.due.None?
  {
    match props.due
    case None => Failure(MissingDue)
    case Some(InvalidDate) => Failure(InvalidDue)
    case Some(ValidDate(d)) => Success(Layout(props, settings, d, describe(d)))
  }

  /** The inner `forEach` of the custom-tag step: one tag line per value of one key, in order. */
  method AppendEntryLines(data: string, key: string, values: seq<string>) returns (r: string)
    ensures r == data + EntryLines(key, values)
  {
    r := data;
    var j := 0;
    while j < |values|
      invariant j <= |values|
      invariant r == data + EntryLines(key, values[..j])
    {
      EntryLinesStep(key, values, j);
      r := r + TagLine(key, values[j], "");
      j := j + 1;
    }
    assert values[..j] == values;
  }

  /**
    The custom-tag step of `getNewTaskData`: for each key of the record whose
    value is a non-empty array, one tag line per value.
   */
  method AppendTagLines(data: string, tags: seq<Tag>) returns (r: string)
    ensures r == data + TagLines(tags)
  {
    r := data;
    var i := 0;
    while i < |tags|
      invariant i <= |tags|
      invariant r == data + TagLines(tags[..i])
    {
      TagLinesStep(tags, i);
      if |tags[i].values| > 0 {
        r := AppendEntryLines(r, tags[i].key, tags[i].values);
      } else {
        assert EntryLines(tags[i].key, tags[i].values) == "";
      }
      i := i + 1;
    }
    assert tags[..i] == tags;
  }

  /** `getNewTaskData`, accumulating the text line by line as the source does. */
  method GetNewTaskData(props: TaskProperties, settings: FileTasksSettings, describe: CalendarDate -> string)
    returns (r: Result<string, EncodeError>)
    ensures r == Encode(props, settings, describe)
  {
    var data := "---";
    data := data + "\nname: " + Interpolated(props.name);
    if props.due.None? {
      return Failure(MissingDue);
    }
    if props.due.value.InvalidDate? {
      return Failure(InvalidDue);
    }
    var due := props.due.value.date;
    data := data + TagLine("due", DateString(due), describe(due));
    data := AppendTagLines(data, props.tags);
    data := data + TagLine("state", StateWord(props.state), "");
    data := data + "\n---";
    assert data == Metadata(props, due, describe(due));
    var footer := Footer(settings, props.state);
    data := data + "\n" + Trim(footer);
    data := data + "\n" + NotesDelimiter;
    data := data + "\n" + NotesText(props.notes);
    return Success(data);
  }

  // ---------------------------------------------------------------------------
  // getTaskPropertiesFromFile: the name, `^name: +([a-zA-Z0-9- ]+)` with the m flag

  predicate IsNameChar(c: char) {
    ('a' <= c <= 'z') || ('A' <= c <= 'Z') || ('0' <= c <= '9') || c == '-' || c == ' '
  }

  predicate IsSpace(c: char) {
    c == ' '
  }

  /** Characters after which `^` matches in multiline mode. */
  predicate IsLineTerminator(c: char) {
    c == '\n' || c == '\r' || c == '\U{2028}' || c == '\U{2029}'
  }

  predicate NotLineTerminator(c: char) {
    !IsLineTerminator(c)
  }

  /**
    The capture of the name pattern tried at one line start. ` +` takes every
    space; the capture then takes the longest run of name characters. When that
    run is empty, ` +` gives one space back, which the capture then holds alone.
   */
  function NameAtLineStart(s: string): (r: Option<string>)
    ensures r.Some? ==> |r.value| > 0 && forall i :: 0 <= i < |r.value| ==> IsNameChar(r.value[i])
  {
    if |s| >= 6 && s[..6] == "name: " then
      var spaces := Span(s[5..], IsSpace);
      var rest := s[5 + spaces..];
      var run := Span(rest, IsNameChar);
      SpanStops(rest, IsNameChar);
      if run > 0 then Some(rest[..run])
      else if spaces >= 2 then Some(" ")
      else None
    else None
  }

  /** The capture of the first line that matches the name pattern, if any. */
  function FindName(s: string): Option<string>
    decreases |s|
  {
    match NameAtLineStart(s)
    case Some(n) => Some(n)
    case None =>
      var lineEnd := Span(s, NotLineTerminator);
      if lineEnd == |s| then None else FindName(s[lineEnd + 1..])
  }

  /** A name found anywhere in the text is non-empty and made of name characters only. */
  lemma {:induction false} FindNameChars(s: string)
    ensures var r := FindName(s);
      r.Some? ==> |r.value| > 0 && forall i :: 0 <= i < |r.value| ==> IsNameChar(r.value[i])
    decreases |s|
  {
    if NameAtLineStart(s).None? {
      var lineEnd := Span(s, NotLineTerminator);
      if lineEnd < |s| {
        FindNameChars(s[lineEnd + 1..]);
      }
    }
  }

  // ---------------------------------------------------------------------------
  // getTaskPropertiesFromFile: the tags, `/#[a-zA-Z0-9-_\/]+/g`

  predicate IsTokenChar(c: char) {
    ('a' <= c <= 'z') || ('A' <= c <= 'Z') || ('0' <= c <= '9') || c == '-' || c == '_' || c == '/'
  }

  /** A match of the tag pattern: `#` and then one or more token characters. */
  predicate IsToken(t: string) {
    |t| >= 2 && t[0] == '#' && forall i :: 1 <= i < |t| ==> IsTokenChar(t[i])
  }

  /** All matches of the tag pattern, left to right, each as long as it can be. */
  function Tokens(s: string): seq<string>
    decreases |s|
  {
    if |s| == 0 then []
    else if s[0] == '#' && Span(s[1..], IsTokenChar) > 0 then
      var n := Span(s[1..], IsTokenChar);
      [s[..n + 1]] + Tokens(s[n + 1..])
    else Tokens(s[1..])
  }

  /** `tag.split("/")[1]`, with an absent part read as the empty string. */
  function TokenKey(tok: string): string {
    var parts := Split(tok, "/");
    if |parts| > 1 then parts[1] else ""
  }

  /** `tag.split("/")[2]`, with an absent part read as the empty string. */
  function TokenValue(tok: string): string {
    var parts := Split(tok, "/");
    if |parts| > 2 then parts[2] else ""
  }

  /** `new Date(value)`. */
  function ParseDue(value: string): DueValue {
    match ParseIsoDate(value)
    case Some(d) => ValidDate(d)
    case None => InvalidDate
  }

  /** What one tag token does to the record being rebuilt. */
  function ApplyToken(props: TaskProperties, tok: string): TaskProperties {
    var key := TokenKey(tok);
    var value := TokenValue(tok);
    if key == "state" && value != "" then props.(state := Some(value == "done"))
    else if key == "due" && value != "" then props.(due := Some(ParseDue(value)))
    else if key != "" && value != "" then props.(tags := AddValue(props.tags, key, value))
    else props
  }

  /** The record after the tokens, in order. */
  function ApplyTokens(props: TaskProperties, toks: seq<string>): (r: TaskProperties)
    ensures r.name == props.name && r.notes == props.notes
  {
    if |toks| == 0 then props
    else ApplyToken(ApplyTokens(props, toks[..|toks| - 1]), toks[|toks| - 1])
  }

  // ---------------------------------------------------------------------------
  // getTaskPropertiesFromFile: the notes, `data.split(notesDelimiter)[1]`

  /** The text between the first and second delimiter, or to the end; absent without a delimiter. */
  function NotesOf(data: string): (r: Option<string>)
    ensures r.None? <==> NotIn(NotesDelimiter, data)
    ensures match IndexOf(data, NotesDelimiter, 0)
      case None => r.None?
      case Some(i) =>
        var start := i + |NotesDelimiter|;
        r == Some(match IndexOf(data, NotesDelimiter, start)
          case Some(j) => data[start..j]
          case None => data[start..])
  {
    var pieces := Split(data, NotesDelimiter);
    IndexOfSpec(data, NotesDelimiter, 0);
    assert |pieces| > 1 <==> IndexOf(data, NotesDelimiter, 0).Some?;
    if |pieces| > 1 then
      var start := IndexOf(data, NotesDelimiter, 0).value + |NotesDelimiter|;
      assert pieces[1] == SplitFrom(data, NotesDelimiter, start)[0];
      Some(pieces[1])
    else None
  }

  /** The record `getTaskPropertiesFromFile` builds from a file's text. */
  function Decode(data: string): (props: TaskProperties)
    ensures props.name == FindName(data) && props.notes == NotesOf(data)
  {
    ApplyTokens(NoProperties.(name := FindName(data)), Tokens(data)).(notes := NotesOf(data))
  }

  /** `getTaskPropertiesFromFile` on text already read, filling the record token by token. */
  method GetTaskPropertiesFromText(data: string) returns (props: TaskProperties)
    ensures props == Decode(data)
  {
    props := NoProperties;
    props := props.(name := FindName(data));
    ghost var named := props;
    var tokens := Tokens(data);
    var i := 0;
    while i < |tokens|
      invariant i <= |tokens|
      invariant props == ApplyTokens(named, tokens[..i])
    {
      var tag := tokens[i];
      ghost var previous := props;
      var parts := Split(tag, "/");
      var key := if |parts| > 1 then parts[1] else "";
      var value := if |parts| > 2 then parts[2] else "";
      assert key == TokenKey(tag) && value == TokenValue(tag);
      if key == "state" && value != "" {
        props := props.(state := Some(value == "done"));
      } else if key == "due" && value != "" {
        props := props.(due := Some(ParseDue(value)));
      } else if key != "" && value != "" {
        props := props.(tags := AddValue(props.tags, key, value));
      }
      assert props == ApplyToken(previous, tag);
      assert tokens[..i + 1][..i] == tokens[..i];
      i := i + 1;
    }
    assert tokens[..i] == tokens;
    var pieces := Split(data, NotesDelimiter);
    props := props.(notes := if |pieces| > 1 then Some(pieces[1]) else None);
  }
}
