/**
  The plugin's task-store operations over the vault: which file is a task, how
  a record is written to a new file or over an existing one (renaming it first
  when the record's path changed), and the two commands that mark the active
  task done or todo.

  The vault is a map from path to file content, and the active file is a path
  into it. Host storage behaves as follows: creating a file or renaming one
  onto a path that already holds a file fails and changes nothing.
 */
module TaskStore {
  import opened Wrappers
  import opened JsText
  import opened Dates
  import opened Records
  import opened TaskCodec
  import opened ScanFacts
  import opened CodecProofs

  /** The vault as the plugin sees it: file contents by path, and the focused file. */
  datatype Vault = Vault(files: map<string, string>, active: Option<string>)

  /** The focused file, when there is one, is a file of the vault. */
  predicate ValidVault(v: Vault) {
    v.active.Some? ==> v.active.value in v.files
  }

  /** Why an operation of the store writes nothing. */
  datatype StoreError =
    | NotATask                     // the focused file is absent or not under the task prefix
    | Encoding(reason: EncodeError) // `getNewTaskData` threw
    | DestinationExists            // the host refuses to create or rename onto an existing path

  // ---------------------------------------------------------------------------
  // getActiveTask

  /** `new RegExp("^Tasks").test(path)`: the path starts with the task prefix. */
  predicate IsTaskPath(path: string) {
    PathPrefix <= path
  }

  /** The focused file when it qualifies as a task, and nothing otherwise. */
  function ActiveTask(v: Vault): Option<string> {
    if v.active.Some? && IsTaskPath(v.active.value) then v.active else None
  }

  /** Every path the plugin derives for a record qualifies as a task. */
  lemma {:induction false} DerivedPathIsTask(props: TaskProperties)
    ensures IsTaskPath(NewTaskPath(props))
  {
  }

  /** The prefix test needs no folder separator: a file beside the folder qualifies as well. */
  lemma {:induction false} TaskPathNeedsNoFolder()
    ensures IsTaskPath("Tasksheet.md") && !(PathPrefix + "/" <= "Tasksheet.md")
  {
    assert "Tasksheet.md"[..5] == PathPrefix;
    assert "Tasksheet.md"[5] != '/';
  }

  // ---------------------------------------------------------------------------
  // Paths

  /** Two records share a path exactly when they agree on the done state and the rendered name. */
  lemma {:induction false} PathIdentity(p: TaskProperties, q: TaskProperties)
    ensures NewTaskPath(p) == NewTaskPath(q)
      <==> IsDone(p.state) == IsDone(q.state) && Interpolated(p.name) == Interpolated(q.name)
  {
    var a := NewTaskPath(p);
    var b := NewTaskPath(q);
    if a == b {
      var n := Interpolated(p.name);
      var m := Interpolated(q.name);
      assert |n| == |m|;
      assert a[6] == b[6];
      forall i | 0 <= i < |n|
        ensures n[i] == m[i]
      {
        assert a[8 + i] == n[i] && b[8 + i] == m[i];
      }
    }
  }

  /** For the same name, the done path and the todo path differ in the glyph alone. */
  lemma {:induction false} DoneTodoPathsDiffer(props: TaskProperties)
    ensures var done := NewTaskPath(props.(state := Some(true)));
      var todo := NewTaskPath(props.(state := Some(false)));
      |done| == |todo| && done[6] == CheckedGlyph && todo[6] == UncheckedGlyph
      && forall i :: 0 <= i < |done| && i != 6 ==> done[i] == todo[i]
  {
  }

  // ---------------------------------------------------------------------------
  // createTask and updateTask over the vault

  /** `fileManager.renameFile(file, to)`: the content moves, and the focus follows the file. */
  function Rename(v: Vault, from: string, to: string): (r: Vault)
    requires from in v.files
  {
    Vault((v.files - {from})[to := v.files[from]], if v.active == Some(from) then Some(to) else v.active)
  }

  /**
    `updateTask(file, props)`: encode first, then rename when the derived path
    differs from the file's path, then overwrite the file's content.
   */
  function Update(v: Vault, file: string, props: TaskProperties, settings: FileTasksSettings,
                  describe: CalendarDate -> string): (r: Result<Vault, StoreError>)
    requires file in v.files
  {
    match Encode(props, settings, describe)
    case Failure(e) => Failure(Encoding(e))
    case Success(data) =>
      var path := NewTaskPath(props);
      if path != file && path in v.files then Failure(DestinationExists)
      else
        var moved := if path != file then Rename(v, file, path) else v;
        Success(moved.(files := moved.files[path := data]))
  }

  /**
    `createTask(props)`: the encoded record as a new file at its derived path,
    which the new tab then focuses.
   */
  function Create(v: Vault, props: TaskProperties, settings: FileTasksSettings,
                  describe: CalendarDate -> string): (r: Result<Vault, StoreError>)
  {
    match Encode(props, settings, describe)
    case Failure(e) => Failure(Encoding(e))
    case Success(data) =>
      var path := NewTaskPath(props);
      if path in v.files then Failure(DestinationExists)
      else Success(Vault(v.files[path := data], Some(path)))
  }

  /** The mark commands: decode the active task, set its state, update it. */
  function Mark(v: Vault, done: bool, settings: FileTasksSettings, describe: CalendarDate -> string)
    : (r: Result<Vault, StoreError>)
    requires ValidVault(v)
  {
    match ActiveTask(v)
    case None => Failure(NotATask)
    case Some(file) =>
      Update(v, file, Decode(v.files[file]).(state := Some(done)), settings, describe)
  }

  /**
    An update fails only when the record cannot be encoded or its new path is
    taken by another file; on success the encoded record sits at the derived
    path, the old path is gone when it differs, the focus follows the file, and
    every other file is as it was.
   */
  lemma {:induction false} UpdateEffect(v: Vault, file: string, props: TaskProperties,
                                        settings: FileTasksSettings, describe: CalendarDate -> string)
    requires ValidVault(v) && file in v.files
    ensures var r := Update(v, file, props, settings, describe);
      var path := NewTaskPath(props);
      && (r.Failure? <==> Encode(props, settings, describe).Failure? || (path != file && path in v.files))
      && (r.Success? ==>
        && ValidVault(r.value)
        && r.value.files.Keys == v.files.Keys - {file} + {path}
        && r.value.files[path] == Encode(props, settings, describe).value
        && (forall p :: p in v.files && p != file && p != path ==> r.value.files[p] == v.files[p])
        && r.value.active == (if v.active == Some(file) then Some(path) else v.active))
  {
  }

  /** Creation fails only on an unencodable record or a taken path, and adds exactly one file. */
  lemma {:induction false} CreateEffect(v: Vault, props: TaskProperties, settings: FileTasksSettings,
                                        describe: CalendarDate -> string)
    ensures var r := Create(v, props, settings, describe);
      var path := NewTaskPath(props);
      && (r.Failure? <==> Encode(props, settings, describe).Failure? || path in v.files)
      && (r.Success? ==>
        && ValidVault(r.value)
        && r.value.files.Keys == v.files.Keys + {path}
        && r.value.files[path] == Encode(props, settings, describe).value
        && (forall p :: p in v.files ==> r.value.files[p] == v.files[p])
        && IsTaskPath(path) && r.value.active == Some(path))
  {
    DerivedPathIsTask(props);
  }

  /** A task file the plugin creates reads back as the record it was created from. */
  lemma {:induction false} CreateThenRead(v: Vault, props: TaskProperties, settings: FileTasksSettings,
                                          describe: CalendarDate -> string)
    requires Storable(props, settings, describe) && NewTaskPath(props) !in v.files
    ensures var r := Create(v, props, settings, describe);
      r.Success? && Decode(r.value.files[NewTaskPath(props)]) == Reread(props)
  {
    RoundTrip(props, settings, describe);
  }

  // ---------------------------------------------------------------------------
  // The mark commands change the state alone

  /** Both footers are free-form text the decoder reads as such. */
  predicate SafeSettings(settings: FileTasksSettings) {
    SafeText(settings.doneFooter) && SafeText(settings.todoFooter)
  }

  lemma {:induction false} NonEmptyTagsIdempotent(tags: seq<Tag>)
    ensures NonEmptyTags(NonEmptyTags(tags)) == NonEmptyTags(tags)
  {
    if |tags| > 0 {
      var init := tags[..|tags| - 1];
      var last := tags[|tags| - 1];
      NonEmptyTagsIdempotent(init);
      if |last.values| > 0 {
        var kept := NonEmptyTags(init) + [last];
        assert NonEmptyTags(tags) == kept;
        assert kept[..|kept| - 1] == NonEmptyTags(init) && kept[|kept| - 1] == last;
        assert NonEmptyTags(kept) == NonEmptyTags(NonEmptyTags(init)) + [last];
      } else {
        assert NonEmptyTags(tags) == NonEmptyTags(init) + [];
        assert NonEmptyTags(init) + [] == NonEmptyTags(init);
      }
    }
  }

  lemma {:induction false} NonEmptyTagsStorable(tags: seq<Tag>)
    requires StorableTags(tags)
    ensures StorableTags(NonEmptyTags(tags))
  {
    if |tags| > 0 {
      var init := tags[..|tags| - 1];
      var last := tags[|tags| - 1];
      StorableInit(tags);
      NonEmptyTagsStorable(init);
      if |last.values| > 0 {
        LastKeyFresh(tags);
        var kept := NonEmptyTags(init) + [last];
        KeysAt(NonEmptyTags(init));
        forall i | 0 <= i < |kept| - 1
          ensures kept[i].key != last.key
        {
          assert Keys(NonEmptyTags(init))[i] == kept[i].key;
        }
      }
    }
  }

  /** The notes as reread are free-form text again. */
  lemma {:induction false} RereadNotesSafe(notes: Option<string>)
    requires notes.Some? ==> SafeText(notes.value)
    ensures SafeText("\n" + NotesText(notes))
  {
    var t := NotesText(notes);
    NotesTextSafe(notes);
    var s := "\n" + t;
    forall i | 0 <= i < |s| - 1 && s[i] == '#'
      ensures !IsTokenChar(s[i + 1])
    {
      assert i > 0 && s[i] == t[i - 1] && s[i + 1] == t[i];
    }
    DelimiterChars();
    NotInLead(NotesDelimiter, "\n", t);
  }

  /** A reread record whose state is then set is still storable, whichever footer it now takes. */
  lemma {:induction false} RereadStorable(props: TaskProperties, done: bool, settings: FileTasksSettings,
                                          describe: CalendarDate -> string)
    requires Storable(props, settings, describe) && SafeSettings(settings)
    ensures Storable(Reread(props).(state := Some(done)), settings, describe)
  {
    NonEmptyTagsStorable(props.tags);
    RereadNotesSafe(props.notes);
  }

  /**
    Marking a task file the plugin wrote changes nothing in its record but the
    state: the focused file afterwards reads back as the record before, with
    the state set. The only way the command can then fail is a file already
    sitting at the other state's path.
   */
  lemma {:induction false} MarkChangesOnlyState(v: Vault, done: bool, props: TaskProperties,
                                                settings: FileTasksSettings, describe: CalendarDate -> string)
    requires ValidVault(v) && ActiveTask(v).Some?
    requires Storable(props, settings, describe) && SafeSettings(settings)
    requires Encode(props, settings, describe).Success?
    requires v.files[v.active.value] == Encode(props, settings, describe).value
    ensures var r := Mark(v, done, settings, describe);
      && (r.Failure? ==> r.error == DestinationExists)
      && (r.Success? ==>
        && r.value.active.Some? && r.value.active.value in r.value.files
        && Decode(r.value.files[r.value.active.value]) == Decode(v.files[v.active.value]).(state := Some(done)))
  {
    var file := v.active.value;
    RoundTrip(props, settings, describe);
    var before := Decode(v.files[file]);
    assert before == Reread(props);
    var q := before.(state := Some(done));
    RereadStorable(props, done, settings, describe);
    RoundTrip(q, settings, describe);
    NotesTextReread(props.notes);
    NonEmptyTagsIdempotent(props.tags);
    assert Reread(q) == q;
    UpdateEffect(v, file, q, settings, describe);
  }

  // ---------------------------------------------------------------------------
  // The plugin object

  /** The plugin instance: the vault it works on, the focused file and its settings. */
  class FileTasksPlugin {
    var files: map<string, string>
    var active: Option<string>
    var settings: FileTasksSettings
    /** The human-readable rendering of a due date (moment's `ddd MMM Do YYYY`). */
    const describe: CalendarDate -> string

    ghost predicate Valid()
      reads this
    {
      ValidVault(Vault(files, active))
    }

    function Snapshot(): Vault
      reads this
    {
      Vault(files, active)
    }

    /** A plugin over a vault, with the settings `loadSettings` produced. */
    constructor (vault: Vault, settings: FileTasksSettings, describe: CalendarDate -> string)
      requires ValidVault(vault)
      ensures Valid() && Snapshot() == vault && this.settings == settings && this.describe == describe
    {
      files := vault.files;
      active := vault.active;
      this.settings := settings;
      this.describe := describe;
    }

    /** `getActiveTask`: the focused file when its path starts with the task prefix. */
    method GetActiveTask() returns (file: Option<string>)
      requires Valid()
      ensures file.Some? <==> active.Some? && IsTaskPath(active.value)
      ensures file.Some? ==> file == active && file.value in files
      ensures file == ActiveTask(Snapshot())
    {
      if active.Some? && PathPrefix <= active.value {
        file := active;
      } else {
        file := None;
      }
    }

    /** The host's `renameFile`: the file keeps its content and focus under its new path. */
    method RenameFile(from: string, to: string)
      requires Valid() && from in files && to !in files
      modifies this
      ensures Valid() && settings == old(settings)
      ensures Snapshot() == Rename(old(Snapshot()), from, to)
    {
      var content := files[from];
      files := (files - {from})[to := content];
      if active == Some(from) {
        active := Some(to);
      }
    }

    /** `createTask`: write the encoded record to a new file at its path and focus it. */
    method CreateTask(props: TaskProperties) returns (r: Result<string, StoreError>)
      requires Valid()
      modifies this
      ensures Valid() && settings == old(settings)
      ensures var c := Create(old(Snapshot()), props, settings, describe);
        && (c.Success? ==> r == Success(NewTaskPath(props)) && Snapshot() == c.value)
        && (c.Failure? ==> r == Failure(c.error) && Snapshot() == old(Snapshot()))
    {
      var path := NewTaskPath(props);
      var data := GetNewTaskData(props, settings, describe);
      if data.Failure? {
        return Failure(Encoding(data.error));
      }
      if path in files {
        return Failure(DestinationExists);
      }
      files := files[path := data.value];
      active := Some(path);
      return Success(path);
    }

    /** `updateTask(file, props)`: encode, rename when the path changed, then overwrite. */
    method UpdateTask(file: string, props: TaskProperties) returns (r: Result<string, StoreError>)
      requires Valid() && file in files
      modifies this
      ensures Valid() && settings == old(settings)
      ensures var u := Update(old(Snapshot()), file, props, settings, describe);
        && (u.Success? ==> r == Success(NewTaskPath(props)) && Snapshot() == u.value)
        && (u.Failure? ==> r == Failure(u.error) && Snapshot() == old(Snapshot()))
    {
      var data := GetNewTaskData(props, settings, describe);
      if data.Failure? {
        return Failure(Encoding(data.error));
      }
      var path := NewTaskPath(props);
      if path != file {
        if path in files {
          return Failure(DestinationExists);
        }
        RenameFile(file, path);
      }
      files := files[path := data.value];
      return Success(path);
    }

    /** Decode the active task, set its state, and update it. */
    method MarkActiveTask(done: bool) returns (r: Result<string, StoreError>)
      requires Valid()
      modifies this
      ensures Valid() && settings == old(settings)
      ensures var m := Mark(old(Snapshot()), done, settings, describe);
        && (m.Success? ==> r.Success? && Snapshot() == m.value)
        && (m.Failure? ==> r == Failure(m.error) && Snapshot() == old(Snapshot()))
    {
      var file := GetActiveTask();
      if file.None? {
        return Failure(NotATask);
      }
      var props := GetTaskPropertiesFromText(files[file.value]);
      props := props.(state := Some(done));
      r := UpdateTask(file.value, props);
    }

    /** `markThisTaskDone`. */
    method MarkThisTaskDone() returns (r: Result<string, StoreError>)
      requires Valid()
      modifies this
      ensures Valid() && settings == old(settings)
      ensures var m := Mark(old(Snapshot()), true, settings, describe);
        && (m.Success? ==> r.Success? && Snapshot() == m.value)
        && (m.Failure? ==> r == Failure(m.error) && Snapshot() == old(Snapshot()))
    {
      r := MarkActiveTask(true);
    }

    /** `markThisTaskTodo`. */
    method MarkThisTaskTodo() returns (r: Result<string, StoreError>)
      requires Valid()
      modifies this
      ensures Valid() && settings == old(settings)
      ensures var m := Mark(old(Snapshot()), false, settings, describe);
        && (m.Success? ==> r.Success? && Snapshot() == m.value)
        && (m.Failure? ==> r == Failure(m.error) && Snapshot() == old(Snapshot()))
    {
      r := MarkActiveTask(false);
    }
  }
}
