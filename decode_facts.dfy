/**
  The decoder's tag scan against an independent description: the state and the
  due date come from the last token that sets them, and each custom key collects
  the values of its tokens in order of appearance, wherever in the text they are.
 */
module DecodeFacts {
  import opened Wrappers
  import opened JsText
  import opened Dates
  import opened Records
  import opened TaskCodec
  import opened ScanFacts

  /** The value of the last token with `key` and a non-empty value, if any. */
  function LastValue(toks: seq<string>, key: string): (r: Option<string>)
    ensures r.Some? ==> r.value != ""
  {
    if |toks| == 0 then None
    else
      var t := toks[|toks| - 1];
      if TokenKey(t) == key && TokenValue(t) != "" then Some(TokenValue(t))
      else LastValue(toks[..|toks| - 1], key)
  }

  /**
    The reference picks the value of some token with the key, and picks nothing
    only when every token with the key has an empty value.
   */
  lemma {:induction false} LastValueWitness(toks: seq<string>, key: string)
    ensures var r := LastValue(toks, key);
      && (r.Some? ==> exists i :: 0 <= i < |toks| && TokenKey(toks[i]) == key && TokenValue(toks[i]) == r.value)
      && (r.None? ==> forall i :: 0 <= i < |toks| && TokenKey(toks[i]) == key ==> TokenValue(toks[i]) == "")
  {
    if |toks| > 0 {
      var t := toks[|toks| - 1];
      var init := toks[..|toks| - 1];
      if !(TokenKey(t) == key && TokenValue(t) != "") {
        LastValueWitness(init, key);
        assert forall i :: 0 <= i < |init| ==> init[i] == toks[i];
      }
    }
  }

  /** The non-empty values of the tokens with `key`, in order of appearance. */
  function ValuesFor(toks: seq<string>, key: string): (r: seq<string>)
    ensures |r| <= |toks|
  {
    if |toks| == 0 then []
    else
      var t := toks[|toks| - 1];
      ValuesFor(toks[..|toks| - 1], key) + (if TokenKey(t) == key && TokenValue(t) != "" then [TokenValue(t)] else [])
  }

  /** The reference collects only non-empty values. */
  lemma {:induction false} ValuesForNonEmpty(toks: seq<string>, key: string)
    ensures forall j :: 0 <= j < |ValuesFor(toks, key)| ==> ValuesFor(toks, key)[j] != ""
  {
    if |toks| > 0 {
      ValuesForNonEmpty(toks[..|toks| - 1], key);
    }
  }

  /** The state is set by the last state token that has a value; later tokens override earlier ones. */
  lemma {:induction false} AppliedState(props: TaskProperties, toks: seq<string>)
    ensures ApplyTokens(props, toks).state
      == match LastValue(toks, "state") case None => props.state case Some(v) => Some(v == "done")
  {
    if |toks| > 0 {
      AppliedState(props, toks[..|toks| - 1]);
    }
  }

  /** The due date is set by the last due token that has a value. */
  lemma {:induction false} AppliedDue(props: TaskProperties, toks: seq<string>)
    ensures ApplyTokens(props, toks).due
      == match LastValue(toks, "due") case None => props.due case Some(v) => Some(ParseDue(v))
  {
    if |toks| > 0 {
      AppliedDue(props, toks[..|toks| - 1]);
    }
  }

  /** A custom key collects the values of its tokens, appended in order of appearance. */
  lemma {:induction false} AppliedValues(props: TaskProperties, toks: seq<string>, key: string)
    requires key != "" && key != "state" && key != "due"
    ensures ValuesOf(ApplyTokens(props, toks).tags, key) == ValuesOf(props.tags, key) + ValuesFor(toks, key)
  {
    if |toks| > 0 {
      var init := toks[..|toks| - 1];
      AppliedValues(props, init, key);
      var before := ApplyTokens(props, init);
      var t := toks[|toks| - 1];
      if TokenKey(t) != "state" && TokenKey(t) != "due" && TokenKey(t) != "" && TokenValue(t) != "" {
        AddValueValues(before.tags, TokenKey(t), TokenValue(t), key);
      }
    } else {
      assert ValuesOf(props.tags, key) + [] == ValuesOf(props.tags, key);
    }
  }

  /** Applying tokens keeps the custom keys distinct, as the keys of an object are. */
  lemma {:induction false} AppliedKeysDistinct(props: TaskProperties, toks: seq<string>)
    requires DistinctKeys(props.tags)
    ensures DistinctKeys(ApplyTokens(props, toks).tags)
  {
    if |toks| > 0 {
      var init := toks[..|toks| - 1];
      AppliedKeysDistinct(props, init);
      var before := ApplyTokens(props, init);
      var t := toks[|toks| - 1];
      AddValueDistinct(before.tags, TokenKey(t), TokenValue(t));
    }
  }

  /** A decoded record never holds the same custom key twice. */
  lemma {:induction false} DecodeKeysDistinct(data: string)
    ensures DistinctKeys(Decode(data).tags)
  {
    AppliedKeysDistinct(NoProperties.(name := FindName(data)), Tokens(data));
  }

  /**
    The keys `ks` followed by the custom keys of `toks` not seen before, in order
    of first appearance: the order `Object.keys` lists the keys in.
   */
  function KeysSeen(ks: seq<string>, toks: seq<string>): seq<string> {
    if |toks| == 0 then ks
    else
      var seen := KeysSeen(ks, toks[..|toks| - 1]);
      var t := toks[|toks| - 1];
      var key := TokenKey(t);
      if key != "state" && key != "due" && key != "" && TokenValue(t) != "" && key !in seen
      then seen + [key]
      else seen
  }

  /** Applying tokens lists the existing keys first, then new keys by first appearance. */
  lemma {:induction false} AppliedKeys(props: TaskProperties, toks: seq<string>)
    ensures Keys(ApplyTokens(props, toks).tags) == KeysSeen(Keys(props.tags), toks)
  {
    if |toks| > 0 {
      var init := toks[..|toks| - 1];
      AppliedKeys(props, init);
      var before := ApplyTokens(props, init);
      var t := toks[|toks| - 1];
      if TokenKey(t) != "state" && TokenKey(t) != "due" && TokenKey(t) != "" && TokenValue(t) != "" {
        AddValueKeys(before.tags, TokenKey(t), TokenValue(t));
      }
    }
  }

  /** A decoded record lists its custom keys in the order they first appear in the text. */
  lemma {:induction false} DecodeKeysOrder(data: string)
    ensures Keys(Decode(data).tags) == KeysSeen([], Tokens(data))
  {
    AppliedKeys(NoProperties.(name := FindName(data)), Tokens(data));
  }

  /** A token without both a key and a value changes nothing. */
  lemma {:induction false} IncompleteTokenIgnored(props: TaskProperties, tok: string)
    requires TokenKey(tok) == "" || TokenValue(tok) == ""
    ensures ApplyToken(props, tok) == props
  {
  }

  /**
    What `getTaskPropertiesFromFile` recovers from a text, against the reference
    above: state and due from the last token setting them, every custom key with
    the values of its tokens anywhere in the text, in order.
   */
  lemma {:induction false} DecodeTokens(data: string)
    ensures Decode(data).state
      == match LastValue(Tokens(data), "state") case None => None case Some(v) => Some(v == "done")
    ensures Decode(data).due
      == match LastValue(Tokens(data), "due") case None => None case Some(v) => Some(ParseDue(v))
    ensures forall key :: key != "" && key != "state" && key != "due" ==>
      ValuesOf(Decode(data).tags, key) == ValuesFor(Tokens(data), key)
  {
    var p0 := NoProperties.(name := FindName(data));
    AppliedState(p0, Tokens(data));
    AppliedDue(p0, Tokens(data));
    forall key | key != "" && key != "state" && key != "due"
      ensures ValuesOf(Decode(data).tags, key) == ValuesFor(Tokens(data), key)
    {
      AppliedValues(p0, Tokens(data), key);
      assert [] + ValuesFor(Tokens(data), key) == ValuesFor(Tokens(data), key);
    }
  }

  /** The token's first part is never checked: any prefix word reads like the plugin's own. */
  lemma {:induction false} PrefixIgnored(props: TaskProperties, prefix: string, key: string, value: string)
    requires forall i :: 0 <= i < |prefix| ==> IsTokenChar(prefix[i]) && prefix[i] != '/'
    requires IsTagWord(key) && IsTagWord(value)
    ensures ApplyToken(props, "#" + prefix + "/" + key + "/" + value) == ApplyToken(props, TagToken(key, value))
  {
    SplitPrefixedToken(prefix, key, value);
    SplitTagToken(key, value);
  }
}
