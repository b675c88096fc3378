/** The whole run of `main()` after the file is parsed: extract the parts,
    join them into the output text and estimate its tokens. */
module Pipeline {
  import opened Wrappers
  import opened JsonValues
  import opened Text
  import opened Extractor
  import opened ExtractorFacts
  import opened Estimator

  /** What the program writes (`text`) and reports (`tokens`). */
  datatype Output = Output(text: string, tokens: Estimate)

  /** `main()` from the parsed archive on. An error means nothing is written
      and no count is reported. */
  function Run(data: Json, target: string, tokenizer: Tokenizer): (r: Result<Output, Error>)
    ensures r.Ok? ==> (r.value.tokens.Exact? <==> tokenizer.Available?)
  {
    var parts :- Extract(data, target);
    var fullText := Join(parts);
    Ok(Output(fullText, EstimateTokens(tokenizer, fullText)))
  }

  /** A successful run reports the exact count when a tokenizer is available
      and otherwise the floor of a quarter of the output's length. */
  lemma RunReportsTokens(data: Json, target: string, tokenizer: Tokenizer)
    requires Run(data, target, tokenizer).Ok?
    ensures var out := Run(data, target, tokenizer).value;
      && (tokenizer.Available? ==> out.tokens == Exact(|tokenizer.encode(out.text)|))
      && (tokenizer.Unavailable? ==>
            (out.tokens.Approximate? && 4 * out.tokens.count <= |out.text| < 4 * out.tokens.count + 4))
  {
  }

  /** The loop never raises `FormatError`; only the shape check does. */
  lemma {:induction false} CollectPartsNeverFormatError(msgs: seq<Json>, target: string)
    ensures CollectParts(msgs, target).Err? ==> CollectParts(msgs, target).error != FormatError
  {
    if msgs != [] {
      CollectPartsNeverFormatError(msgs[1..], target);
    }
  }

  /** The run reports a format error exactly when the archive has neither
      accepted shape. */
  lemma FormatErrorIffBadShape(data: Json, target: string, tokenizer: Tokenizer)
    ensures Run(data, target, tokenizer) == Err(FormatError) <==> !WellShaped(data)
  {
    var a := ArchiveMessages(data);
    if a.Ok? && IterateMessages(a.value).Ok? {
      CollectPartsNeverFormatError(IterateMessages(a.value).value, target);
    }
  }

  /** A dict holding a list under `"messages"` behaves exactly like that list
      given as the whole archive. */
  lemma MessagesKeyEqualsBareList(fields: map<string, Json>, target: string, tokenizer: Tokenizer)
    requires "messages" in fields && fields["messages"].Arr?
    ensures Run(Obj(fields), target, tokenizer) == Run(fields["messages"], target, tokenizer)
  {
  }

  /** Any other top-level value, e.g. `{"foo": 1}`, is a format error. */
  lemma NoMessagesKeyIsFormatError(target: string, tokenizer: Tokenizer)
    ensures Run(Obj(map["foo" := Num(1.0)]), target, tokenizer) == Err(FormatError)
  {
  }

  /** A run whose extraction yields `parts` writes their join. */
  lemma RunText(data: Json, target: string, tokenizer: Tokenizer, parts: seq<string>)
    requires Extract(data, target) == Ok(parts)
    ensures Run(data, target, tokenizer).Ok?
    ensures Run(data, target, tokenizer).value.text == Join(parts)
  {
  }

  /** With either accepted shape around a list of messages, extraction is the
      message loop over that list. */
  lemma ExtractIsLoop(data: Json, msgs: seq<Json>, target: string)
    requires data == Arr(msgs) || (data.Obj? && Field(data.fields, "messages") == Arr(msgs))
    ensures Extract(data, target) == CollectParts(msgs, target)
  {
  }

  /** The length of the output text is the parts' total length plus one
      separator per gap. */
  lemma OutputLength(data: Json, target: string, tokenizer: Tokenizer, parts: seq<string>)
    requires Extract(data, target) == Ok(parts)
    ensures Run(data, target, tokenizer).Ok?
    ensures |Run(data, target, tokenizer).value.text| == TotalLength(parts) + (if parts == [] then 0 else |parts| - 1)
  {
    RunText(data, target, tokenizer, parts);
  }

  /** Every extracted part sits verbatim at its offset in the output text.
      Which message each part comes from is `PartsFollowMessageOrder`. */
  lemma OutputPlacesParts(data: Json, target: string, tokenizer: Tokenizer, parts: seq<string>)
    requires Extract(data, target) == Ok(parts)
    ensures Run(data, target, tokenizer).Ok?
    ensures var text := Run(data, target, tokenizer).value.text;
      forall k :: 0 <= k < |parts| ==>
        JoinOffset(parts, k) + |parts[k]| <= |text|
        && text[JoinOffset(parts, k)..JoinOffset(parts, k) + |parts[k]|] == parts[k]
  {
    RunText(data, target, tokenizer, parts);
    PartsPlacedIn(parts, Run(data, target, tokenizer).value.text);
  }

  /** `JoinLayout` for a string known to be the join. It is kept apart so that
      the quantified layout facts are proved without `Run` in scope, which
      keeps `OutputPlacesParts` cheap to verify. */
  lemma PartsPlacedIn(parts: seq<string>, text: string)
    requires text == Join(parts)
    ensures forall k :: 0 <= k < |parts| ==>
      JoinOffset(parts, k) + |parts[k]| <= |text|
      && text[JoinOffset(parts, k)..JoinOffset(parts, k) + |parts[k]|] == parts[k]
  {
    JoinLayout(parts);
  }

  /** The output text is a single line, whatever the archive's texts hold. */
  lemma OutputIsOneLine(data: Json, target: string, tokenizer: Tokenizer)
    requires Run(data, target, tokenizer).Ok?
    ensures '\n' !in Run(data, target, tokenizer).value.text
  {
    var msgs := IterateMessages(ArchiveMessages(data).value).value;
    var parts := CollectParts(msgs, target).value;
    assert Run(data, target, tokenizer).value.text == Join(parts);
    PartsAreNormalized(msgs, target);
    forall k | 0 <= k < |parts|
      ensures '\n' !in parts[k]
    {
      assert IsNormalized(parts[k]);
    }
    JoinKeepsSingleLine(parts);
  }

  /** With well-formed messages none of which contributes, the output is the
      empty string, for a bare list and for a list under `"messages"`. */
  lemma NoPartsEmptyOutput(data: Json, msgs: seq<Json>, target: string, tokenizer: Tokenizer)
    requires data == Arr(msgs) || (data.Obj? && Field(data.fields, "messages") == Arr(msgs))
    requires AllWellFormed(msgs, target)
    requires forall i :: 0 <= i < |msgs| ==> !Contributes(msgs[i], target)
    ensures Run(data, target, tokenizer).Ok?
    ensures Run(data, target, tokenizer).value.text == ""
  {
    ExtractIsLoop(data, msgs, target);
    CollectPartsSucceedsIff(msgs, target);
    PartsFollowMessageOrder(msgs, target);
    RunText(data, target, tokenizer, CollectParts(msgs, target).value);
  }

  /** A chat message from `author` carrying `text`. */
  function ChatMessage(author: string, text: Json): Json {
    Obj(map["type" := Str("message"), "from" := Str(author), "text" := text])
  }

  /** A chat message is selected exactly for its own author, and its text is
      the one it was built with. */
  lemma ChatMessagePart(author: string, text: Json, target: string)
    ensures Selected(ChatMessage(author, text), target) <==> author == target
    ensures Field(ChatMessage(author, text).fields, "text") == text
  {
  }

  /** The first example text normalises to `"Hi there"`. */
  lemma HiThereNormalizes()
    ensures Normalize("Hi\nthere") == "Hi there"
  {
    assert ReplaceNewlines("Hi\nthere") == "Hi there" by {
      var r := ReplaceNewlines("Hi\nthere");
      assert forall i :: 0 <= i < |r| ==> r[i] == "Hi there"[i];
    }
    assert Strip("Hi there") == "Hi there" by {
      StripKeepsTrimmed("Hi there");
    }
  }

  /** The fragments `x` and `y` join to `"xy"`. */
  lemma XyFragmentsJoin(items: seq<Json>)
    requires items == [Obj(map["text" := Str("x")]), Obj(map["text" := Str("y")])]
    ensures JoinFragments(items) == Ok("xy")
  {
    assert Contributions(items) == ["x", "y"];
    assert Concat(["x", "y"]) == "xy" by {
      assert ["x", "y"][1..] == ["y"];
    }
    assert FragmentsWellFormed(items);
  }

  /** The loop over three messages, of which the middle one appends nothing,
      keeps the other two parts in order. Stated for any loop body so that
      the message contents stay out of the proof. */
  lemma CollectThree(m0: Json, m1: Json, m2: Json, step: Json -> Result<Option<string>, Error>, p0: string, p2: string)
    requires step(m0) == Ok(Some(p0))
    requires step(m1) == Ok(None)
    requires step(m2) == Ok(Some(p2))
    ensures CollectWith([m0, m1, m2], step) == Ok([p0, p2])
  {
    assert [m2][1..] == [];
    assert CollectWith([], step) == Ok([]);
    assert [p2] + [] == [p2];
    assert CollectWith([m2], step) == Ok([p2]);
    assert [m1, m2][1..] == [m2];
    assert [] + [p2] == [p2];
    assert CollectWith([m1, m2], step) == Ok([p2]);
    assert [m0, m1, m2][1..] == [m1, m2];
    assert [p0] + [p2] == [p0, p2];
  }

  /** `alice`'s first message appends `"Hi there"`. */
  lemma AliceFirstPart(m: Json)
    requires m == ChatMessage("alice", Str("Hi\nthere"))
    ensures MessagePart(m, "alice") == Ok(Some("Hi there"))
  {
    ChatMessagePart("alice", Str("Hi\nthere"), "alice");
    assert FlattenText(Field(m.fields, "text")) == Ok(Some("Hi\nthere"));
    assert MessagePart(m, "alice") == Ok(Some(Normalize("Hi\nthere")));
    HiThereNormalizes();
  }

  /** `bob`'s message is skipped when the target is `alice`. */
  lemma BobPart(m: Json)
    requires m == ChatMessage("bob", Str("ignored"))
    ensures MessagePart(m, "alice") == Ok(None)
  {
    ChatMessagePart("bob", Str("ignored"), "alice");
  }

  /** `alice`'s fragment-list message appends `"xy"`. */
  lemma AliceSecondPart(m: Json, items: seq<Json>)
    requires items == [Obj(map["text" := Str("x")]), Obj(map["text" := Str("y")])]
    requires m == ChatMessage("alice", Arr(items))
    ensures MessagePart(m, "alice") == Ok(Some("xy"))
  {
    ChatMessagePart("alice", Arr(items), "alice");
    XyFragmentsJoin(items);
    NormalizeFixesNormalized("xy");
  }

  /** The two example parts join to the example output. */
  lemma HiThereXyJoin(parts: seq<string>)
    requires parts == ["Hi there", "xy"]
    ensures Join(parts) == "Hi there xy"
  {
    assert parts[1..] == ["xy"];
  }

  /** End to end: for the archive
      `{"messages": [alice "Hi\nthere", bob "ignored", alice [{"text": "x"}, {"text": "y"}]]}`
      only `alice`'s messages are kept, the line break becomes a space and the
      fragments are glued, giving `"Hi there xy"`. */
  lemma AliceExample(tokenizer: Tokenizer, items: seq<Json>, msgs: seq<Json>)
    requires items == [Obj(map["text" := Str("x")]), Obj(map["text" := Str("y")])]
    requires msgs == [ChatMessage("alice", Str("Hi\nthere")), ChatMessage("bob", Str("ignored")), ChatMessage("alice", Arr(items))]
    ensures Run(Obj(map["messages" := Arr(msgs)]), "alice", tokenizer).Ok?
    ensures Run(Obj(map["messages" := Arr(msgs)]), "alice", tokenizer).value.text == "Hi there xy"
  {
    AliceFirstPart(msgs[0]);
    BobPart(msgs[1]);
    AliceSecondPart(msgs[2], items);
    CollectThree(msgs[0], msgs[1], msgs[2], Step("alice"), "Hi there", "xy");
    assert msgs == [msgs[0], msgs[1], msgs[2]];
    ExtractIsLoop(Obj(map["messages" := Arr(msgs)]), msgs, "alice");
    RunText(Obj(map["messages" := Arr(msgs)]), "alice", tokenizer, ["Hi there", "xy"]);
    HiThereXyJoin(["Hi there", "xy"]);
  }
}
