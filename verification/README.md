# Chat-export text extractor, modelled in Dafny

`xapakter.py` reads a chat-export archive (a parsed JSON value), keeps the
messages of one author whose record type is `"message"`, flattens each
message's `text` (a plain string, or a list of fragments whose `"text"`
values are glued together), turns line feeds into spaces and strips the
edges, joins all parts with single spaces into one output text, and then
reports a token count: exact when a tokenizer is available, otherwise the
rough estimate `len(text) // 4`.

This project models that pipeline from the parsed value to the output text
and the token figure as pure functions:

- `wrappers.dfy` — `Result` and `Option`.
- `json.dfy` — the `Json` value (`Null`, `Bool`, `Num`, `Str`, `Arr`, `Obj` as
  a map) and `Field`, Python's `dict.get` (a missing key reads as null).
- `text.dfy` — `IsWhitespace` (the characters of Python's `str.isspace`,
  written out), newline replacement, `SkipWhitespace`/`BackOverWhitespace`/`Strip`,
  `Normalize`, `Concat` and `Join` (`" ".join`), with their laws.
- `extractor.dfy` — the archive shape check, what the message loop iterates,
  the selection test, fragment joining, the per-message step and the whole
  loop; plus a reference view (`Contributes`, `ExpectedPart`, `IndicesFrom`)
  that says which messages yield a part and what that part is.
- `extractor_facts.dfy` — the extractor's properties.
- `estimator.dfy` — `count_tokens` with its `-1` sentinel, the length
  heuristic and the strategy choice.
- `pipeline.dfy` — `Run`, the whole of `main()` after parsing, and
  end-to-end properties and examples.

The target author (`TARGET_NAME`, a constant in the source) is a parameter
`target`. The tokenizer is a parameter too: `Unavailable`, or
`Available(encode)` with an arbitrary encoding function.

Where Python raises instead of handling a value, the model returns an
`Error` instead of inventing a recovery: `NotIterable` (the `"messages"`
value is a number, boolean or null), `MessageNotObject` (the loop meets a
message that is not a dict; this includes a non-empty dict or string as the
`"messages"` value, whose iteration yields strings), and
`FragmentTextNotString` (`"".join` meets a non-string). An empty dict or
empty string as the `"messages"` value iterates zero times and gives an
empty output, as in Python. Any error means nothing is written and no
count is reported; the first failing message decides the error.

A selected message whose `text` is neither a string nor a list (absent,
null, a number) appends no part at all; xapakter.py:47-51 have no `else`
branch. Empty strings, whitespace-only strings and empty lists do append an
empty part.

## Model

| member | source | states |
|---|---|---|
| JsonValues.Field | xapakter.py:41-46 | Python's `dict.get`: a missing key reads as null; no contract of its own, it is what the selection test and the text lookup read |
| Extractor.PassesTypeAndAuthor | xapakter.py:41-44 | the `type`/`from` test; its consequences are stated by `ExtractorFacts.UnselectedAppendsNothing` and `ExtractorFacts.MessagePartMeaning` |
| Extractor.MessagePart | xapakter.py:41-51 | the loop body on one message; specified by `ExtractorFacts.MessagePartMeaning` against the reference view (`MessageWellFormed`, `Contributes`, `ExpectedPart`) and by `ExtractorFacts.MessagePartIsNormalized` |
| Extractor.CollectWith | xapakter.py:38-51 | the loop over the messages with a given body, stopping at the first error; specified through `Extractor.CollectParts` |
| Extractor.CollectParts | xapakter.py:38-51 | the message loop of `main()`; specified by `ExtractorFacts.CollectPartsSucceedsIff` (when it finishes) and `ExtractorFacts.PartsFollowMessageOrder` (which parts, in which order) |
| Extractor.Extract | xapakter.py:30-51 | shape check, iteration and loop; specified by `Pipeline.FormatErrorIffBadShape`, `Pipeline.ExtractIsLoop` and `Pipeline.MessagesKeyEqualsBareList` |
| Extractor.ArchiveMessages | xapakter.py:30-36 | a dict with a `"messages"` key yields that value, a top-level list is used as is, and every other value is a format error |
| Extractor.IterateMessages | xapakter.py:40-41 | a list yields its elements; an empty dict or string yields no messages; a non-empty dict or string fails as a non-dict message; anything else is not iterable |
| Extractor.IsTextFragment | xapakter.py:50 | the fragment filter: a list element is read only when it is a dict holding `"text"`; `Extractor.JoinFragments` relies on it for when the join fails and which elements contribute |
| Extractor.Contribution | xapakter.py:50 | the reading of a fragment's `"text"` string, nothing for an element the filter skips; `Extractor.JoinFragments` states its result as the concatenation of these |
| Extractor.JoinFragments | xapakter.py:50 | succeeds exactly when every dict fragment holding `"text"` holds a string, and then returns the in-order, separator-free concatenation of those strings, other elements contributing nothing |
| Extractor.FlattenText | xapakter.py:46-51 | a string text is taken as is, a list text is its fragment concatenation, and any other text yields no part |
| ExtractorFacts.MessagePartMeaning | xapakter.py:40-51 | one loop step succeeds exactly on a well-formed message, and appends the normalised text exactly when the message is selected and its text is a string or list |
| ExtractorFacts.CollectPartsSucceedsIff | xapakter.py:40-51 | the loop finishes exactly when every message is a dict and every selected list text has string fragment texts |
| ExtractorFacts.CollectPartsHead | xapakter.py:40-51 | a successful loop appends the expected part of a contributing first message and then the parts of the remaining messages |
| ExtractorFacts.PartsFollowMessageOrder | xapakter.py:38-51 | there is one part per contributing message and part k is the normalised text of the k-th contributing message, so order is preserved |
| ExtractorFacts.PartsAtMostSelected | xapakter.py:41-51 | there are never more parts than messages passing the `type`/`from` test |
| ExtractorFacts.MessagePartIsNormalized | xapakter.py:46-51 | a part produced by one message has no line feed and no whitespace at either edge |
| ExtractorFacts.PartsAreNormalized | xapakter.py:48-51 | every part has no line feed and no whitespace at either edge |
| ExtractorFacts.EmptyTextStillAppends | xapakter.py:47-51 | a selected message whose text is an empty list or only whitespace and line feeds still appends the empty part |
| ExtractorFacts.OtherTextAppendsNothing | xapakter.py:46-51 | a selected message whose text is neither string nor list appends nothing |
| ExtractorFacts.UnselectedAppendsNothing | xapakter.py:41-44 | a dict message with the wrong `type` or author appends nothing |
| ExtractorFacts.NewlineBecomesSpace | xapakter.py:48 | the text `"a\nb"` becomes the part `"a b"` |
| ExtractorFacts.FragmentsConcatenate | xapakter.py:50-51 | fragments `foo`, a fragment without text, and `bar` become the part `"foobar"` |
| Text.IsWhitespace | xapakter.py:48 | the characters `str.strip()` removes (those of Python's `str.isspace`); `Text.StripIsMaximalTrim`, `Text.StripEmptyIffAllWhitespace` and the edge condition of `Text.IsNormalized` are stated with it |
| Text.ReplaceNewlines | xapakter.py:48 | same length; each line feed becomes a space and every other character stays |
| Text.SkipWhitespace | xapakter.py:48 | the scan stops at the first character from the start position that is not whitespace, or at the end; everything skipped is whitespace |
| Text.BackOverWhitespace | xapakter.py:48 | the backward scan stops just after the last character before the end position that is not whitespace, never below the lower bound; everything passed over is whitespace |
| Text.Strip | xapakter.py:48 | Python's `str.strip()`; specified by `Text.StripIsMaximalTrim`, `Text.StripEmptyIffAllWhitespace` and `Text.StripKeepsTrimmed` |
| Text.Normalize | xapakter.py:48-51 | line feeds to spaces, then strip; specified by `Text.NormalizeIsNormalized`, `Text.NormalizeFixesNormalized` and `Text.NormalizeIdempotent` |
| Text.StripIsMaximalTrim | xapakter.py:48 | `strip()` keeps a contiguous middle slice, removes only whitespace around it, and leaves no whitespace at either edge |
| Text.StripLeavesNoEdgeWhitespace | xapakter.py:48 | a non-empty stripped string neither starts nor ends with whitespace |
| Text.StripEmptyIffAllWhitespace | xapakter.py:48 | `strip()` returns the empty string exactly for all-whitespace input |
| Text.StripKeepsTrimmed | xapakter.py:48 | `strip()` leaves a string without edge whitespace unchanged |
| Text.NormalizeIsNormalized | xapakter.py:48-51 | a normalised part has no line feed and no edge whitespace |
| Text.NormalizeFixesNormalized | xapakter.py:48-51 | normalising an already-normalised string returns it unchanged |
| Text.NormalizeIdempotent | xapakter.py:48-51 | normalising twice equals normalising once |
| Text.Concat | xapakter.py:50 | the separator-free join has the parts' total length |
| Text.Join | xapakter.py:54 | the joined text is as long as all parts plus one space per gap, and empty for no parts |
| Text.JoinPlacesParts | xapakter.py:54 | each part sits verbatim at its offset in the joined text, followed by one space unless it is last |
| Text.JoinLayout | xapakter.py:54 | every part sits verbatim at its offset in the joined text |
| Text.JoinSnoc | xapakter.py:54 | joining one more part appends one space and that part |
| Text.JoinKeepsEmptyPart | xapakter.py:54 | an empty part between two others leaves two adjacent spaces |
| Text.JoinKeepsSingleLine | xapakter.py:54 | joining line-feed-free parts gives a line-feed-free text |
| Estimator.CountTokens | xapakter.py:16-20 | the count is negative (exactly -1) exactly when no tokenizer is available, and otherwise the number of encoded tokens |
| Estimator.ApproxTokens | xapakter.py:66 | the estimate n is the floor of length/4: 4n ≤ length < 4n + 4, hence n ≤ length |
| Estimator.ChooseEstimate | xapakter.py:62-67 | the estimate is used exactly when the counter returned a negative value; otherwise the exact count is reported |
| Estimator.EstimateTokens | xapakter.py:16-67 | the figure is exact exactly when a tokenizer is available, and otherwise the floored length/4 |
| Estimator.ApproxExamples | xapakter.py:66 | length 4 and length 7 both estimate to 1 |
| Estimator.ApproxMonotone | xapakter.py:66 | a longer text never gets a smaller estimate |
| Pipeline.Run | xapakter.py:62-67 | a successful run reports an exact figure exactly when a tokenizer is available |
| Pipeline.RunReportsTokens | xapakter.py:62-67 | with a tokenizer the figure is the number of tokens of the output text; without one it is approximate and the floor of the output text's length/4 |
| Pipeline.CollectPartsNeverFormatError | xapakter.py:40-51 | the message loop can fail only by a Python exception, never by the format error |
| Pipeline.FormatErrorIffBadShape | xapakter.py:30-36 | the run ends in the format error exactly when the archive is neither a list nor a dict with `"messages"` |
| Pipeline.MessagesKeyEqualsBareList | xapakter.py:30-33 | a dict holding a list under `"messages"` gives the same result as that list as the archive |
| Pipeline.NoMessagesKeyIsFormatError | xapakter.py:34-36 | `{"foo": 1}` is a format error |
| Pipeline.RunText | xapakter.py:30-54 | whenever extraction yields parts, for either archive shape, the run succeeds and writes their join |
| Pipeline.ExtractIsLoop | xapakter.py:30-40 | for a bare list and for a list under `"messages"` alike, extraction is the message loop over that list |
| Pipeline.OutputLength | xapakter.py:30-54 | for either archive shape, the output text is as long as all extracted parts plus one space per gap |
| Pipeline.OutputPlacesParts | xapakter.py:30-54 | for either archive shape, every extracted part sits verbatim at its offset in the output text |
| Pipeline.OutputIsOneLine | xapakter.py:48-54 | the output text never contains a line feed |
| Pipeline.NoPartsEmptyOutput | xapakter.py:30-54 | for a bare list or a list under `"messages"`, well-formed messages none of which contributes give the empty output text |
| Pipeline.AliceExample | xapakter.py:30-54 | the three-message example with target `alice` produces `"Hi there xy"` |

## Left out

- Reading the input file, the missing-file check and writing the output
  file (xapakter.py:23-28, 56-57): the model starts from the parsed value
  and ends at the output text; an `Err` result stands for "nothing written".
- JSON parsing itself (`json.load`): the `Json` datatype stands for its result.
  Objects are maps, so key order is not kept; no behaviour here depends on it.
  Numbers are reals, which never matter beyond "not a string".
- JSON inputs that `json.load` accepts but the `Json` datatype cannot hold
  lie outside the model: strings with unpaired surrogate escapes such as
  `"\ud800"` (a Dafny `string` holds Unicode scalar values only) and the
  non-standard numbers `NaN`, `Infinity` and `-Infinity` (not reals). In
  the program such a surrogate is neither whitespace nor a line feed and
  counts one character, and a number of any kind is only "not a string".
- The tokenizer library and its `cl100k_base` encoding (xapakter.py:6-10,
  19-20): an arbitrary `encode` function stands in for it.
- Tokenizer failures: loading the `cl100k_base` encoding (xapakter.py:19)
  can fail, and encoding text that contains a special token such as
  `<|endoftext|>` (xapakter.py:20) raises. Both happen after the output file
  is written (xapakter.py:56-57 precede line 62), so the program leaves the
  text written and reports no count. The model's `encode` is total, so
  `Pipeline.Run` with an available tokenizer always reports an exact figure;
  these failures are outside the model.
- Progress bar and console messages (xapakter.py:10, 24, 35, 40, 59, 64, 67).
- Whitespace: `IsWhitespace` lists the characters of Python's `str.isspace`
  explicitly rather than deriving them from the Unicode database.
- Re-running gives identical output because every member is a pure
  function; no separate lemma states this.
