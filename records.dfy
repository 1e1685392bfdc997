/**
  The records the plugin passes around: a task's properties, as the form edits
  them and as the decoder rebuilds them from a file, and the plugin settings.
 */
module Records {
  import opened Wrappers
  import opened Dates

  /** What `new Date(value)` yields for a due token: a real date or an Invalid Date. */
  datatype DueValue = InvalidDate | ValidDate(date: CalendarDate)

  /** One array-valued property of a task: a custom tag category and its values. */
  datatype Tag = Tag(key: string, values: seq<string>)

  /**
    A task record. The four named properties are optional; every other property
    is an array of tag values, kept in the object's own key order.
   */
  datatype TaskProperties = TaskProperties(
    state: Option<bool>,
    name: Option<string>,
    due: Option<DueValue>,
    notes: Option<string>,
    tags: seq<Tag>)

  /** The empty object `{}` the decoder starts from. */
  const NoProperties := TaskProperties(None, None, None, None, [])

  /** The persisted plugin settings. */
  datatype FileTasksSettings = FileTasksSettings(
    customTags: seq<string>,
    doneFooter: string,
    todoFooter: string)

  /** The settings used before anything has been saved. */
  const DefaultSettings := FileTasksSettings([], "", "")

  // ---------------------------------------------------------------------------
  // The tag part of a record as an insertion-ordered dictionary

  /** The tag keys, in key order. */
  function Keys(tags: seq<Tag>): (ks: seq<string>)
    ensures |ks| == |tags|
  {
    if |tags| == 0 then [] else [tags[0].key] + Keys(tags[1..])
  }

  /** The keys are the entries' keys, position by position. */
  lemma {:induction false} KeysAt(tags: seq<Tag>)
    ensures forall i :: 0 <= i < |tags| ==> Keys(tags)[i] == tags[i].key
  {
    if |tags| > 0 {
      KeysAt(tags[1..]);
      assert forall i :: 1 <= i < |tags| ==> Keys(tags)[i] == Keys(tags[1..])[i - 1];
    }
  }

  /** No key appears twice, as in a JavaScript object. */
  predicate DistinctKeys(tags: seq<Tag>) {
    forall i, j :: 0 <= i < j < |tags| ==> tags[i].key != tags[j].key
  }

  /** `props[key]` for a tag key: its values, or nothing when the key is absent. */
  function ValuesOf(tags: seq<Tag>, key: string): seq<string> {
    if |tags| == 0 then []
    else if tags[0].key == key then tags[0].values
    else ValuesOf(tags[1..], key)
  }

  /** `props[key] = props[key] || []; props[key].push(value)`. */
  function AddValue(tags: seq<Tag>, key: string, value: string): seq<Tag> {
    if |tags| == 0 then [Tag(key, [value])]
    else if tags[0].key == key then [tags[0].(values := tags[0].values + [value])] + tags[1..]
    else [tags[0]] + AddValue(tags[1..], key, value)
  }

  /** Pushing a value adds its key at the end when it is new, and otherwise keeps the keys. */
  lemma {:induction false} AddValueKeys(tags: seq<Tag>, key: string, value: string)
    ensures Keys(AddValue(tags, key, value)) == if key in Keys(tags) then Keys(tags) else Keys(tags) + [key]
    decreases |tags|
  {
    if |tags| > 0 {
      var r := AddValue(tags, key, value);
      assert Keys(tags) == [tags[0].key] + Keys(tags[1..]);
      assert r[1..] == if tags[0].key == key then tags[1..] else AddValue(tags[1..], key, value);
      assert Keys(r) == [r[0].key] + Keys(r[1..]);
      if tags[0].key != key {
        AddValueKeys(tags[1..], key, value);
      }
    }
  }

  /** Pushing a value appends it to its key's values and leaves every other key's values alone. */
  lemma {:induction false} AddValueValues(tags: seq<Tag>, key: string, value: string, k: string)
    ensures ValuesOf(AddValue(tags, key, value), k)
      == if k == key then ValuesOf(tags, k) + [value] else ValuesOf(tags, k)
    decreases |tags|
  {
    var r := AddValue(tags, key, value);
    if |tags| == 0 {
      assert r[1..] == [];
    } else if tags[0].key == key {
      assert r[1..] == tags[1..];
    } else {
      assert r[1..] == AddValue(tags[1..], key, value);
      AddValueValues(tags[1..], key, value, k);
    }
  }

  /** Pushing a value keeps the keys distinct, as the keys of an object are. */
  lemma {:induction false} AddValueDistinct(tags: seq<Tag>, key: string, value: string)
    requires DistinctKeys(tags)
    ensures DistinctKeys(AddValue(tags, key, value))
  {
    var r := AddValue(tags, key, value);
    AddValueKeys(tags, key, value);
    KeysAt(r);
    KeysAt(tags);
    forall i, j | 0 <= i < j < |r|
      ensures r[i].key != r[j].key
    {
      assert Keys(r)[i] == r[i].key && Keys(r)[j] == r[j].key;
      if j < |tags| {
        assert Keys(tags)[i] == tags[i].key && Keys(tags)[j] == tags[j].key;
      }
    }
  }

  /** The tag entries that have at least one value, in order. */
  function NonEmptyTags(tags: seq<Tag>): (r: seq<Tag>)
    ensures |r| <= |tags|
  {
    if |tags| == 0 then []
    else
      var last := tags[|tags| - 1];
      NonEmptyTags(tags[..|tags| - 1]) + (if |last.values| > 0 then [last] else [])
  }
}
