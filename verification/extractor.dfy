/** The extractor of xapakter.py's `main()`: archive shape check, per-message
    selection, text flattening and normalisation, in archive order. */
module Extractor {
  import opened Wrappers
  import opened JsonValues
  import opened Text

  /** Why extraction stops. Only `FormatError` is reported by the program
      itself; the others are the exceptions Python raises on the way. */
  datatype Error =
    | FormatError            // neither `{"messages": ...}` nor a top-level list
    | NotIterable            // `messages` is a number, a boolean or null
    | MessageNotObject       // an iterated message is not a dict, so `msg.get` fails
    | FragmentTextNotString  // `"".join` meets a fragment text that is not a string

  /** The archive has one of the two accepted shapes. */
  predicate WellShaped(data: Json) {
    data.Arr? || (data.Obj? && "messages" in data.fields)
  }

  /** The archive shape check: the value bound to `messages`. */
  function ArchiveMessages(data: Json): (r: Result<Json, Error>)
    ensures r.Err? <==> !WellShaped(data)
    ensures r.Err? ==> r.error == FormatError
    ensures r.Ok? && data.Obj? ==> r.value == data.fields["messages"]
    ensures r.Ok? && !data.Obj? ==> r.value == data
  {
    if data.Obj? && "messages" in data.fields then Ok(data.fields["messages"])
    else if data.Arr? then Ok(data)
    else Err(FormatError)
  }

  /** What `for msg in messages` visits before the body fails. A list yields
      its elements. A dict yields its keys and a string its characters, all of
      them strings, so only an empty one gets through the loop body; numbers,
      booleans and null cannot be iterated at all. */
  function IterateMessages(messages: Json): (r: Result<seq<Json>, Error>)
    ensures messages.Arr? ==> r == Ok(messages.items)
    ensures r.Ok? && !messages.Arr? ==> r.value == []
    ensures r.Ok? <==> messages.Arr? || messages == Obj(map[]) || messages == Str("")
    ensures r.Err? && (messages.Obj? || messages.Str?) ==> r.error == MessageNotObject
  {
    match messages
    case Arr(items) => Ok(items)
    case Obj(fields) => if fields == map[] then Ok([]) else Err(MessageNotObject)
    case Str(s) => if s == "" then Ok([]) else Err(MessageNotObject)
    case _ => Err(NotIterable)
  }

  /** The selection test on a message's fields: `type` is exactly
      `"message"` and `from` is exactly the target author. */
  predicate PassesTypeAndAuthor(fields: map<string, Json>, target: string) {
    && Field(fields, "type") == Str("message")
    && Field(fields, "from") == Str(target)
  }

  /** A list element whose `"text"` the fragment join reads. */
  predicate IsTextFragment(part: Json) {
    part.Obj? && "text" in part.fields
  }

  /** A list element's share of the flattened text: the string under
      `"text"` of a text fragment, nothing for any other element. */
  function Contribution(part: Json): string {
    if IsTextFragment(part) && part.fields["text"].Str? then part.fields["text"].s else ""
  }

  /** Every text fragment in `items` carries a string, so `"".join` succeeds. */
  predicate FragmentsWellFormed(items: seq<Json>) {
    forall i :: 0 <= i < |items| && IsTextFragment(items[i]) ==> items[i].fields["text"].Str?
  }

  /** Each element's contribution, in list order. */
  function Contributions(items: seq<Json>): seq<string>
  {
    seq(|items|, i requires 0 <= i < |items| => Contribution(items[i]))
  }

  /** The separator-free concatenation of the `"text"` strings of the list
      elements that are dicts holding `"text"`; it fails when such a value
      is not a string. */
  function JoinFragments(items: seq<Json>): (r: Result<string, Error>)
    ensures r.Ok? <==> FragmentsWellFormed(items)
    ensures r.Err? ==> r.error == FragmentTextNotString
    ensures r.Ok? ==> r.value == Concat(Contributions(items))
  {
    if items == [] then Ok("")
    else
      var head := items[0];
      if IsTextFragment(head) && !head.fields["text"].Str? then Err(FragmentTextNotString)
      else
        var rest :- JoinFragments(items[1..]);
        assert Contributions(items)[1..] == Contributions(items[1..]);
        Ok(Contribution(head) + rest)
  }

  /** The text of a message before normalisation: a string as-is, a list as
      its fragment concatenation, anything else no text at all. */
  function FlattenText(text: Json): (r: Result<Option<string>, Error>)
    ensures text.Str? ==> r == Ok(Some(text.s))
    ensures text.Arr? ==> (r.Ok? <==> FragmentsWellFormed(text.items))
    ensures text.Arr? && r.Ok? ==> r.value == Some(Concat(Contributions(text.items)))
    ensures !text.Str? && !text.Arr? ==> r == Ok(None)
    ensures r.Err? ==> r.error == FragmentTextNotString
  {
    match text
    case Str(s) => Ok(Some(s))
    case Arr(items) =>
      var joined :- JoinFragments(items);
      Ok(Some(joined))
    case _ => Ok(None)
  }

  /** One pass of the loop body: the part this message appends, if any. */
  function MessagePart(msg: Json, target: string): Result<Option<string>, Error>
  {
    if !msg.Obj? then Err(MessageNotObject)
    else if !PassesTypeAndAuthor(msg.fields, target) then Ok(None)
    else
      var raw :- FlattenText(Field(msg.fields, "text"));
      Ok(if raw.Some? then Some(Normalize(raw.value)) else None)
  }

  /** One loop step as a function value. */
  function Step(target: string): Json -> Result<Option<string>, Error> {
    msg => MessagePart(msg, target)
  }

  /** The loop over `msgs` with a given body: the parts in message order, or
      the first error met. */
  function CollectWith(msgs: seq<Json>, step: Json -> Result<Option<string>, Error>): Result<seq<string>, Error>
  {
    if msgs == [] then Ok([])
    else
      var part :- step(msgs[0]);
      var rest :- CollectWith(msgs[1..], step);
      Ok((if part.Some? then [part.value] else []) + rest)
  }

  /** The message loop of `main()`. */
  function CollectParts(msgs: seq<Json>, target: string): Result<seq<string>, Error>
  {
    CollectWith(msgs, Step(target))
  }

  /** The whole extractor: shape check, iteration and the loop. */
  function Extract(data: Json, target: string): Result<seq<string>, Error>
  {
    var messages :- ArchiveMessages(data);
    var msgs :- IterateMessages(messages);
    CollectParts(msgs, target)
  }

  // ---------------------------------------------------------------------
  // Reference view: which messages contribute a part, and what it says.
  // ---------------------------------------------------------------------

  /** The message is selected: a dict passing the `type`/`from` test. */
  predicate Selected(msg: Json, target: string) {
    msg.Obj? && PassesTypeAndAuthor(msg.fields, target)
  }

  /** The message is selected and its `text` is a string or a list, so it
      appends exactly one part. */
  predicate Contributes(msg: Json, target: string) {
    Selected(msg, target) && (Field(msg.fields, "text").Str? || Field(msg.fields, "text").Arr?)
  }

  /** The loop body never raises on this message. */
  predicate MessageWellFormed(msg: Json, target: string) {
    msg.Obj?
    && (Selected(msg, target) && Field(msg.fields, "text").Arr?
        ==> FragmentsWellFormed(Field(msg.fields, "text").items))
  }

  predicate AllWellFormed(msgs: seq<Json>, target: string) {
    forall i :: 0 <= i < |msgs| ==> MessageWellFormed(msgs[i], target)
  }

  /** The part a contributing message appends, stated without the error
      plumbing: the normalised string, or the normalised concatenation of the
      list's contributions. */
  function ExpectedPart(msg: Json): string
  {
    var text := if msg.Obj? then Field(msg.fields, "text") else Null;
    if text.Str? then Normalize(text.s)
    else if text.Arr? then Normalize(Concat(Contributions(text.items)))
    else ""
  }

  /** The two message tests the properties count by. */
  datatype Criterion = SelectedBy(target: string) | ContributesFor(target: string)

  predicate Meets(msg: Json, c: Criterion) {
    match c
    case SelectedBy(t) => Selected(msg, t)
    case ContributesFor(t) => Contributes(msg, t)
  }

  /** The positions `i >= from`, in increasing order, of the messages that
      meet `c`. */
  function IndicesFrom(msgs: seq<Json>, c: Criterion, from: nat): (r: seq<nat>)
    requires from <= |msgs|
    ensures forall k :: 0 <= k < |r| ==> from <= r[k] < |msgs| && Meets(msgs[r[k]], c)
    ensures forall k, l :: 0 <= k < l < |r| ==> r[k] < r[l]
    ensures forall i :: from <= i < |msgs| && Meets(msgs[i], c) ==> i in r
    decreases |msgs| - from
  {
    if from == |msgs| then []
    else
      var rest := IndicesFrom(msgs, c, from + 1);
      if Meets(msgs[from], c) then [from] + rest else rest
  }
}
