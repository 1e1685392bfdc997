# File Tasks: the task codec and task store, in Dafny

The Obsidian plugin *File Tasks* keeps each task as its own Markdown file. It
lives under the `Tasks` folder and is named `Tasks/<glyph> <name>.md`: the glyph
is ☑ when the task is done and ☐ when it is not. The file opens with a `---`
metadata block, with one line each for:

- the name;
- the due date, written as the tag `#tasks/due/YYYY-MM-DD` plus a readable
  description;
- every value of every custom tag, as `#tasks/<key>/<value>`;
- the state, as `#tasks/state/done` or `#tasks/state/todo`.

After the block come a footer chosen by the state, the line
`--- Task notes below ---` and the notes. The plugin reads a task back by
scanning this text:

- a multiline pattern finds the name;
- every `#a/b/c` token sets the state, sets the due date or adds a tag value;
- splitting on the delimiter yields the notes.

Two commands mark the focused task done or todo. Each one decodes the file,
sets the state and updates the task. An update first renames the file when
the path derived from the record differs from the file's path, and then
writes the new text. The derived path can differ because the glyph changed,
because the decoded name differs from the file name, or because the file was
never a plugin-written task path. A file without a `name:` line moves to
`Tasks/<glyph> undefined.md` (☑ when marked done, ☐ when marked todo),
provided its last due token with a value is a valid `YYYY-MM-DD` date and
the target path is free. Otherwise the encoder fails, or the rename is
refused, and nothing moves.

The model has these modules:

- `JsText` covers the JavaScript string primitives the plugin relies on:
  `trim`, `indexOf` and `split`.
- `Dates` covers calendar dates, `getDateString` and the `YYYY-MM-DD` parse
  that `new Date(value)` performs on it.
- `Records` covers the task record and the plugin settings.
- `TaskCodec` covers the path, the encoder and the decoder.
  - Each is given as a specification function.
  - The encoder and decoder are also methods that build their result step by
    step, as the source does. Each method is proved equal to its function.
- `ScanFacts` proves the token scan and the name scan over the encoder's
  output. `CodecProofs` uses those facts to prove the round trip.
- `DecodeFacts` checks the decoder against an independent reference: the last
  token that sets a property wins, and each key collects its values in the
  order they appear.
- `TaskStore` covers the vault, seen as a map from path to content plus the
  focused path, and the plugin object whose methods update the vault in place.

Details of the code that the model follows as written:

- The notes are the text between the first and the second delimiter
  (`split(...)[1]`), not everything after the first delimiter.
- Custom tags are written in the record's own key order (`Object.keys`), not
  in the order of the `customTags` setting.
- A missing name is written as `undefined`.
- A missing due date makes the encoder fail. In the source, `toISOString`
  throws in that case.

## Model

| member | source | states |
|---|---|---|
| TaskCodec.NewTaskPath | src/main.ts:15-21 | the path starts with the task prefix, its length is the name's length plus 11, position 6 holds the checked glyph exactly when the task is done, and the name (or `undefined`) sits between position 8 and the closing `.md` |
| TaskStore.PathIdentity | src/main.ts:15-21 | two records get the same path if and only if they agree on being done and on the rendered name |
| TaskStore.DoneTodoPathsDiffer | src/main.ts:18-20 | for one name, the done path and the todo path have the same length and differ only at the glyph position |
| TaskStore.DerivedPathIsTask | src/main.ts:15-21 | every derived path passes the task test of `getActiveTask` |
| CodecProofs.PathReread | src/main.ts:15-21 | a record read back from its file derives the same path as the record that was written |
| Dates.DateString | src/main.ts:71-73 | the date is written as ten characters, four digits, dash, two digits, dash, two digits |
| Dates.ParseDateString | src/main.ts:189-190 | parsing the ISO form of a date gives back that date |
| Dates.ParseIsoDate | src/main.ts:189-190 | whenever a parse succeeds, the text is exactly the ISO form of the parsed date |
| Dates.DateStringInjective | src/main.ts:71-73 | different dates have different ISO forms |
| Dates.ExampleDate | src/main.ts:71-73 | 1 March 2024 is written as `2024-03-01`, with month and day zero-padded |
| TaskCodec.Encode | src/main.ts:29-69 | encoding succeeds exactly when the due date is present and valid, and it fails with MissingDue exactly when the due date is absent |
| TaskCodec.GetNewTaskData | src/main.ts:29-69 | the text built line by line, including the failure for a missing or invalid due date, equals the specified encoding |
| TaskCodec.AppendTagLines | src/main.ts:46-52 | the loop over keys appends exactly the custom-tag lines of the record, in key order and then array order, and skips keys whose array is empty |
| TaskCodec.AppendEntryLines | src/main.ts:48-50 | the loop over one key's array appends exactly one tag line per value, in array order |
| CodecProofs.EncodingHeader | src/main.ts:35-43 | a successful encoding starts with `---`, then the `name:` line, then `\ndue: #tasks/due/<YYYY-MM-DD>`, followed by a space and the description when the description is non-empty |
| CodecProofs.EncodingTail | src/main.ts:55-66 | a successful encoding ends with the state line (done or todo), the closing `---`, the trimmed footer of that state, the delimiter line and the trimmed notes, or `""` when there are no notes |
| ScanFacts.TokensOfTagLine | src/main.ts:23-27 | a tag line holds exactly one token, `#tasks/<key>/<value>`, even when a tag-free description follows it |
| ScanFacts.TokensOfTagLines | src/main.ts:46-52 | the custom-tag lines hold exactly one token per value, in key order and then array order |
| CodecProofs.TagLinesNonEmpty | src/main.ts:47 | keys whose arrays are empty write nothing |
| CodecProofs.TokensOfMetadata | src/main.ts:35-57 | the metadata block holds the due token, then one token per custom-tag value, then the state token, and no other token |
| CodecProofs.TokensOfLayout | src/main.ts:59-66 | a footer and notes with no tag token add no token to the file |
| TaskCodec.NameAtLineStart | src/main.ts:178-179 | a capture from one line is non-empty and contains only name characters |
| TaskCodec.FindNameChars | src/main.ts:178-180 | any name the scan finds is non-empty and made only of name characters |
| ScanFacts.FindNameOfEncoding | src/main.ts:178-180 | the first matching line is the `name:` line that follows the opening `---`, and its capture is exactly the name |
| CodecProofs.FindNameOfLayout | src/main.ts:178-180 | a name with no leading space, made only of name characters, is read back unchanged from an encoded file |
| ScanFacts.TokensAreMatches | src/main.ts:182 | every match the scan finds is `#` followed by one or more token characters |
| ScanFacts.NoTagIffNoTokens | src/main.ts:182 | the scan finds nothing if and only if no `#` is followed by a token character |
| ScanFacts.TokensAppend | src/main.ts:182 | the scan of a concatenation is the scans of its parts, when no token can run across the seam |
| ScanFacts.SplitTagToken | src/main.ts:183-185 | splitting an encoder token on `/` gives the prefix, the key and the value |
| ScanFacts.SplitPrefixedToken | src/main.ts:183-185 | for any prefix word, splitting gives the prefix, the key and the value, and the key and value are parts 1 and 2 |
| DecodeFacts.PrefixIgnored | src/main.ts:183-185 | a token with any other prefix word acts exactly like the plugin's own `#tasks/...` token |
| DecodeFacts.IncompleteTokenIgnored | src/main.ts:187-194 | a token without both a key and a value leaves the record unchanged |
| CodecProofs.ApplyDueToken | src/main.ts:189-190 | the encoder's due token sets the due date it was written from |
| CodecProofs.ApplyStateToken | src/main.ts:186-188 | the encoder's state token sets the state to done exactly when the task was done |
| Records.AddValueKeys | src/main.ts:191-194 | a new key goes last, and an existing key keeps its place without adding a key |
| Records.AddValueValues | src/main.ts:191-194 | only the given key's values grow, by the value at the end; every other key keeps its values |
| Records.AddValueDistinct | src/main.ts:191-194 | adding a value keeps the keys distinct |
| TaskCodec.ApplyTokens | src/main.ts:182-195 | applying tokens never changes the name or the notes |
| DecodeFacts.AppliedKeysDistinct | src/main.ts:191-194 | applying tokens to a record with distinct keys keeps them distinct |
| CodecProofs.ApplyTagTokens | src/main.ts:191-194 | the custom-tag tokens rebuild the record's non-empty tag arrays, in order |
| DecodeFacts.LastValueWitness | src/main.ts:186-190 | the reference picks the value of some token with that key, and picks nothing only when every token with that key has an empty value |
| DecodeFacts.LastValue | src/main.ts:187-190 | a value the reference picks is never empty |
| DecodeFacts.ValuesFor | src/main.ts:191-194 | the reference collects at most one value per token |
| DecodeFacts.ValuesForNonEmpty | src/main.ts:191-194 | the reference collects only non-empty values |
| DecodeFacts.AppliedState | src/main.ts:186-188 | the state comes from the last state token that has a value; later tokens override earlier ones |
| DecodeFacts.AppliedDue | src/main.ts:189-190 | the due date comes from the last due token that has a value |
| DecodeFacts.AppliedValues | src/main.ts:191-194 | a custom key's values are the values already present followed by those of its tokens, in order of appearance |
| DecodeFacts.DecodeTokens | src/main.ts:182-195 | the decoded state, due date and per-key values agree with the reference, for tokens anywhere in the text, footer and notes included |
| JsText.TrimIsSlice | src/main.ts:61 | the trimmed text is a slice of the input; everything cut before and after it is white space, and the slice neither starts nor ends with white space |
| JsText.TrimIdempotent | src/main.ts:66 | trimming twice is the same as trimming once |
| JsText.SplitAround | src/main.ts:197 | a text made of two delimiter-free pieces joined by the delimiter splits into exactly those two pieces |
| JsText.IndexOfSpec | src/main.ts:197 | the search returns the first occurrence at or after the start, and nothing only when no occurrence exists there |
| TaskCodec.NotesOf | src/main.ts:197-198 | the notes are absent if and only if the text contains no delimiter; otherwise they are the text from the end of the first delimiter to the next delimiter, or to the end when there is none (with `JsText.IndexOfSpec` saying which occurrence the search finds) |
| CodecProofs.NotesOfLayout | src/main.ts:197-198 | when the name, the due description, the footer and the notes are free of the delimiter and the tag keys and values are tag words, the notes read back from an encoded file are `"\n"` plus the trimmed notes |
| DecodeFacts.DecodeKeysDistinct | src/main.ts:172-201 | a record read back from any text has distinct tag keys |
| DecodeFacts.AppliedKeys | src/main.ts:191-194 | applying tokens keeps the existing keys in place and appends each new custom key at its first token that has a value |
| DecodeFacts.DecodeKeysOrder | src/main.ts:172-201 | a record read back from any text lists its custom keys in the order they first appear with a value |
| TaskCodec.GetTaskPropertiesFromText | src/main.ts:172-201 | filling the record token by token gives the specified decoding |
| CodecProofs.DecodeLayout | src/main.ts:172-201 | reading an encoded layout gives back the record, normalised as `Reread` describes |
| CodecProofs.RoundTrip | src/main.ts:29-69 | a storable record encodes successfully, and decoding the result gives back its name, due date and state, its non-empty tag arrays in order, and its notes as `"\n"` plus the trimmed notes |
| CodecProofs.EncodeReread | src/main.ts:29-69 | encoding the normalised record gives the same result as encoding the original |
| CodecProofs.EncodeDecodeEncode | src/main.ts:172-201 | re-encoding what was decoded from an encoded storable record reproduces the file text exactly, when the description depends on the calendar date alone |
| TaskStore.TaskPathNeedsNoFolder | src/main.ts:162 | the prefix test also accepts `Tasksheet.md`, a file that is not in the `Tasks/` folder |
| TaskStore.FileTasksPlugin.GetActiveTask | src/main.ts:158-170 | the focused file is returned if and only if its path begins with `Tasks`, and it is a file of the vault |
| TaskStore.FileTasksPlugin.constructor | src/main.ts:221-227 | the plugin starts on the given vault with the given settings |
| TaskStore.FileTasksPlugin.RenameFile | src/main.ts:152 | the file's content moves to the new path, the focus follows the file, and every other file is unchanged (link updates in other notes by the host are not modelled) |
| TaskStore.UpdateEffect | src/main.ts:147-156 | an update fails only when encoding fails or another file holds the derived path; on success the derived path holds the encoding, the old path is gone when it differs, no other file changes (link updates the host makes in other notes on a rename are not modelled), and the focus follows the file |
| TaskStore.FileTasksPlugin.UpdateTask | src/main.ts:147-156 | encode, then rename when the path changed, then overwrite; the new vault is the specified update, and a failure changes nothing |
| TaskStore.CreateEffect | src/main.ts:138-145 | creation fails only when encoding fails or the path is taken; on success it adds exactly one file, a task holding the encoding, and focuses it |
| TaskStore.FileTasksPlugin.CreateTask | src/main.ts:138-145 | the new vault is the specified creation, and a failure changes nothing |
| TaskStore.CreateThenRead | src/main.ts:138-145 | a task the plugin creates from a storable record reads back as that record, normalised |
| TaskStore.FileTasksPlugin.MarkActiveTask | src/main.ts:203-219 | decode the focused task, set its state and update it; when no task is focused, or the update fails, nothing changes |
| TaskStore.FileTasksPlugin.MarkThisTaskDone | src/main.ts:203-210 | marking done is the shared mark step with the state set to true |
| TaskStore.FileTasksPlugin.MarkThisTaskTodo | src/main.ts:212-219 | marking todo is the shared mark step with the state set to false |
| TaskStore.MarkChangesOnlyState | src/main.ts:203-219 | on a file the plugin wrote from a storable record, with both footers free of tag tokens and of the delimiter, a mark command can fail only when another file holds the new path; otherwise the focused file reads back as the record from before with only the state changed |

## Left out

- Asynchronous I/O with the host is not modelled:
  - `vault.read`, `vault.create`, `vault.modify` and `fileManager.renameFile`
    become operations on a map from path to content;
  - opening the new file in a tab becomes focusing its path;
  - `fileManager.renameFile` may also rewrite links to the renamed file in
    other notes, depending on the user's settings. That rewriting is not
    modelled, so a rename that follows a mark command changes only the
    renamed file in the model;
  - the "Current file is not a task" notification is not modelled.
- TaskStore.MarkChangesOnlyState: holds only for a storable record and
  footers free of tag tokens and of the delimiter. Otherwise a mark is not
  state-only:
  - a `#x/k/v` token in the other state's footer, written on the mark, is read
    back as a new tag `k: [v]`;
  - a token in the notes is written again as a tag line and also stays in the
    notes, so its value is added once more on every mark.
- TaskStore.UpdateEffect and TaskStore.FileTasksPlugin.RenameFile: "no
  other file changes" holds for the model's rename, which moves one entry of
  the vault. The host's rename may also rewrite links in other notes.
- Creating or renaming onto a path that already holds a file is assumed to
  fail and change nothing. That is host behaviour: the plugin itself does no
  such check.
- A folder named `Tasks` is not required to exist, because the model has no
  folders.
- The due-date description (moment's `ddd MMM Do YYYY`) is a parameter
  `describe` of the encoder. The moment library is not part of this model.
- JavaScript `Date` is not modelled:
  - the time zone and the UTC conversion inside `toISOString` are left out;
  - years outside 0..9999 are left out;
  - the many non-ISO strings that `new Date(value)` also accepts are left out;
  - a due date is a year-month-day triple, and any due value other than a
    real `YYYY-MM-DD` date is an Invalid Date.
- The JavaScript regular-expression engine is not modelled. The name pattern
  and the tag pattern are hand-written scanners with the same matches.
- The order of `Object.keys` is modelled as insertion order. The model leaves
  out two JavaScript details:
  - integer-like keys, which JavaScript lists first;
  - tag keys that collide with `name`, `notes` or `Object.prototype`
    members. In JavaScript these make `push` throw or clobber a property.
- CodecProofs.RoundTrip and the related lemmas hold only for storable
  records. The name must be made of name characters, must not start with a
  space and must not contain the delimiter. Tag keys and values must be
  single tag words. The free text (the due description, the footer and the
  notes) must not contain a tag token or the delimiter. Outside those
  conditions:
  - a value containing `/` or a space is truncated on reading;
  - a `#word/key/value` (two slashes) inside the notes adds a tag;
  - the delimiter is made of name characters, so a name such as
    `a --- Task notes below --- b` is accepted by the name pattern. Its name,
    state, due date and tags still read back, but the notes read back as the
    text after the first delimiter, inside the name, up to the written
    delimiter;
  - a delimiter in the description or the footer likewise ends the notes
    early, and the real notes are lost on reading.
- CodecProofs.EncodeDecodeEncode: the description `describe` is assumed to
  depend on the calendar date alone. In the plugin, moment formats the Date's
  instant in local time. A due date read back by `new Date(value)` is UTC
  midnight, while one from the form is local. West of UTC, the first rewrite
  therefore describes the due date one day earlier: 2024-03-01 changes from
  `Fri Mar 1st 2024` to `Thu Feb 29th 2024`.
- TaskStore.FileTasksPlugin.constructor: `loadSettings` (merging saved data
  over the defaults) is not modelled. The merged settings are passed in.
- `saveSettings`, the task form modal, the settings tab and the tag
  suggester are host UI and are not part of this model. Their record shapes
  are the `TaskProperties` and `FileTasksSettings` datatypes.
