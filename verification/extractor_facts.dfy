/** Properties of the extractor: when it fails, which messages contribute,
    in what order, and what every part looks like. */
module ExtractorFacts {
  import opened Wrappers
  import opened JsonValues
  import opened Text
  import opened Extractor

  /** The loop body succeeds on a message exactly when that message is well
      formed, and then it appends exactly the expected part of a contributing
      message and nothing for any other. */
  lemma MessagePartMeaning(msg: Json, target: string)
    ensures MessagePart(msg, target).Ok? <==> MessageWellFormed(msg, target)
    ensures MessagePart(msg, target).Ok? ==>
      MessagePart(msg, target).value == (if Contributes(msg, target) then Some(ExpectedPart(msg)) else None)
  {
  }

  /** The loop finishes exactly when every message is well formed. */
  lemma {:induction false} CollectPartsSucceedsIff(msgs: seq<Json>, target: string)
    ensures CollectParts(msgs, target).Ok? <==> AllWellFormed(msgs, target)
  {
    if msgs != [] {
      MessagePartMeaning(msgs[0], target);
      CollectPartsSucceedsIff(msgs[1..], target);
      assert forall i :: 1 <= i < |msgs| ==> msgs[i] == msgs[1..][i - 1];
    }
  }

  /** One loop step in reference terms: a successful loop appends the
      expected part of a contributing first message, then the parts of the
      rest. */
  lemma CollectPartsHead(msgs: seq<Json>, target: string)
    requires msgs != [] && CollectParts(msgs, target).Ok?
    ensures CollectParts(msgs[1..], target).Ok?
    ensures CollectParts(msgs, target).value
      == (if Contributes(msgs[0], target) then [ExpectedPart(msgs[0])] else [])
         + CollectParts(msgs[1..], target).value
  {
    MessagePartMeaning(msgs[0], target);
  }

  /** Suffix form of `PartsFollowMessageOrder`, for the induction. */
  lemma {:induction false} CollectPartsFrom(msgs: seq<Json>, target: string, from: nat)
    requires from <= |msgs|
    requires CollectParts(msgs[from..], target).Ok?
    ensures var parts := CollectParts(msgs[from..], target).value;
      var src := IndicesFrom(msgs, ContributesFor(target), from);
      && |parts| == |src|
      && forall k :: 0 <= k < |parts| ==> parts[k] == ExpectedPart(msgs[src[k]])
    decreases |msgs| - from
  {
    if from < |msgs| {
      var suffix := msgs[from..];
      assert suffix[0] == msgs[from];
      assert suffix[1..] == msgs[from + 1..];
      CollectPartsHead(suffix, target);
      CollectPartsFrom(msgs, target, from + 1);
      var rest := CollectParts(msgs[from + 1..], target).value;
      var srcRest := IndicesFrom(msgs, ContributesFor(target), from + 1);
      var parts := CollectParts(suffix, target).value;
      var src := IndicesFrom(msgs, ContributesFor(target), from);
      if Contributes(msgs[from], target) {
        assert parts == [ExpectedPart(msgs[from])] + rest;
        assert src == [from] + srcRest;
        forall k | 0 <= k < |parts|
          ensures parts[k] == ExpectedPart(msgs[src[k]])
        {
          if k > 0 {
            assert parts[k] == rest[k - 1];
            assert src[k] == srcRest[k - 1];
          }
        }
      } else {
        assert parts == rest;
        assert src == srcRest;
      }
    }
  }

  /** The parts are the expected parts of the contributing messages, one per
      contributing message, in archive order: part `k` comes from the `k`-th
      contributing message. */
  lemma PartsFollowMessageOrder(msgs: seq<Json>, target: string)
    requires CollectParts(msgs, target).Ok?
    ensures var parts := CollectParts(msgs, target).value;
      var src := IndicesFrom(msgs, ContributesFor(target), 0);
      && |parts| == |src|
      && forall k :: 0 <= k < |parts| ==> parts[k] == ExpectedPart(msgs[src[k]])
  {
    assert msgs[0..] == msgs;
    CollectPartsFrom(msgs, target, 0);
  }

  /** Every contributing message is a selected one. */
  lemma {:induction false} ContributorsAtMostSelected(msgs: seq<Json>, target: string, from: nat)
    requires from <= |msgs|
    ensures |IndicesFrom(msgs, ContributesFor(target), from)| <= |IndicesFrom(msgs, SelectedBy(target), from)|
    decreases |msgs| - from
  {
    if from < |msgs| {
      ContributorsAtMostSelected(msgs, target, from + 1);
    }
  }

  /** There are never more parts than selected messages. */
  lemma PartsAtMostSelected(msgs: seq<Json>, target: string)
    requires CollectParts(msgs, target).Ok?
    ensures |CollectParts(msgs, target).value| <= |IndicesFrom(msgs, SelectedBy(target), 0)|
  {
    PartsFollowMessageOrder(msgs, target);
    ContributorsAtMostSelected(msgs, target, 0);
  }

  /** The part one loop step appends is normalised. */
  lemma MessagePartIsNormalized(msg: Json, target: string)
    requires MessagePart(msg, target).Ok? && MessagePart(msg, target).value.Some?
    ensures IsNormalized(MessagePart(msg, target).value.value)
  {
    MessagePartMeaning(msg, target);
    var text := Field(msg.fields, "text");
    if text.Str? {
      NormalizeIsNormalized(text.s);
    } else {
      NormalizeIsNormalized(Concat(Contributions(text.items)));
    }
  }

  /** Every part is one line with no whitespace at either edge. */
  lemma {:induction false} PartsAreNormalized(msgs: seq<Json>, target: string)
    requires CollectParts(msgs, target).Ok?
    ensures forall k :: 0 <= k < |CollectParts(msgs, target).value| ==>
      IsNormalized(CollectParts(msgs, target).value[k])
  {
    if msgs != [] {
      PartsAreNormalized(msgs[1..], target);
      var head := MessagePart(msgs[0], target).value;
      if head.Some? {
        MessagePartIsNormalized(msgs[0], target);
      }
      var rest := CollectParts(msgs[1..], target).value;
      assert CollectParts(msgs, target).value == (if head.Some? then [head.value] else []) + rest;
    }
  }

  /** A selected message whose text is empty or only whitespace still
      appends a part, the empty string. */
  lemma EmptyTextStillAppends(msg: Json, target: string)
    requires Selected(msg, target)
    requires Field(msg.fields, "text") == Arr([])
          || (Field(msg.fields, "text").Str?
              && forall i :: 0 <= i < |Field(msg.fields, "text").s| ==>
                   Field(msg.fields, "text").s[i] != '\n' ==> IsWhitespace(Field(msg.fields, "text").s[i]))
    ensures MessagePart(msg, target) == Ok(Some(""))
  {
    var text := Field(msg.fields, "text");
    if text.Str? {
      var t := ReplaceNewlines(text.s);
      StripEmptyIffAllWhitespace(t);
    } else {
      assert Concat(Contributions([])) == "";
      StripEmptyIffAllWhitespace("");
    }
  }

  /** A selected message whose text is neither a string nor a list appends nothing. */
  lemma OtherTextAppendsNothing(msg: Json, target: string)
    requires Selected(msg, target)
    requires !Field(msg.fields, "text").Str? && !Field(msg.fields, "text").Arr?
    ensures MessagePart(msg, target) == Ok(None)
  {
  }

  /** A message that is not selected appends nothing, whatever its text. */
  lemma UnselectedAppendsNothing(msg: Json, target: string)
    requires msg.Obj? && !Selected(msg, target)
    ensures MessagePart(msg, target) == Ok(None)
  {
  }

  /** The text `"a\nb"` normalises to `"a b"`. */
  lemma NewlineExampleNormalizes()
    ensures Normalize("a\nb") == "a b"
  {
    assert ReplaceNewlines("a\nb") == "a b" by {
      var r := ReplaceNewlines("a\nb");
      assert forall i :: 0 <= i < |r| ==> r[i] == "a b"[i];
    }
    assert Strip("a b") == "a b" by {
      StripKeepsTrimmed("a b");
    }
  }

  /** A line feed inside a string text becomes a space: a selected message
      with text `"a\nb"` gives `"a b"`. */
  lemma NewlineBecomesSpace(msg: Json, target: string)
    requires Selected(msg, target) && Field(msg.fields, "text") == Str("a\nb")
    ensures MessagePart(msg, target) == Ok(Some("a b"))
  {
    NewlineExampleNormalizes();
  }

  /** The fragment list of `FragmentsConcatenate` joins to `"foobar"`. */
  lemma FooBarFragmentsJoin(items: seq<Json>)
    requires items == [Obj(map["text" := Str("foo")]), Obj(map["type" := Str("other")]), Obj(map["text" := Str("bar")])]
    ensures JoinFragments(items) == Ok("foobar")
  {
    assert "text" !in items[1].fields;
    var cs := Contributions(items);
    assert cs == ["foo", "", "bar"];
    assert Concat(cs) == "foobar" by {
      assert Concat(["bar"]) == "bar";
      assert Concat(["", "bar"]) == "bar";
    }
    assert FragmentsWellFormed(items);
  }

  /** Fragments are concatenated with no separator and non-text fragments
      are skipped: a selected message with text
      `[{"text": "foo"}, {"type": "other"}, {"text": "bar"}]` gives `"foobar"`. */
  lemma FragmentsConcatenate(msg: Json, items: seq<Json>, target: string)
    requires items == [Obj(map["text" := Str("foo")]), Obj(map["type" := Str("other")]), Obj(map["text" := Str("bar")])]
    requires Selected(msg, target) && Field(msg.fields, "text") == Arr(items)
    ensures MessagePart(msg, target) == Ok(Some("foobar"))
  {
    assert FlattenText(Arr(items)) == Ok(Some("foobar")) by {
      FooBarFragmentsJoin(items);
    }
    assert Normalize("foobar") == "foobar" by {
      NormalizeFixesNormalized("foobar");
    }
  }
}
