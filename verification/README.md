# Verified models of llama.cpp common code and converters

Dafny models of five pieces of llama.cpp, with proofs of what they promise. The models follow the
code branch by branch; where it gives another result than what it is for, the exact condition is
proved and an input that meets it is given. `dafny verify dfyconfig.toml` checks everything.

**The log** (`common/log.cpp`). `LogRing` is the growing ring buffer as an object over an array;
`LogProtocol` is the system of producers, worker and one controller, stepped one critical section
at a time. In every interleaving, what has been accepted is delivered, being printed or queued, in
order and once each, unless a pause pushed its end marker into the last free slot: then the buffer
reads as empty and the pause never joins.

**JSON healing** (`common/json-partial.cpp`). `Json` is a recogniser for RFC 8259, a pushdown
automaton that reads surrogate escapes as the library does, and `JsonGrammar` proves that it accepts
exactly what the grammar derives. `JsonLocator` drives the SAX handler over it, `JsonGuards` says what
each trial completion reveals about the text, `JsonHeal` that the guarded branches are sound and when
one is taken, `JsonWritten` what belongs around the marker wherever a text stops, `JsonHealLimits`
which truncated texts can be healed at all, and `JsonHealer` is the healer itself. Every truncated
text is decided: with an open container it is healed unless it stops in an escape that only seems to
follow a high surrogate and the last opening character opens no value of the innermost container;
without one it is healed exactly in a string, or after a lone backslash in it. `JsonHealExamples` has
one text of each kind that is not healed.

**The differential split** (`common/chat-auto-parser-helpers.cpp`). `DiffSplit` is the algorithm and
when it loses text, `DiffBorders` how small the difference is and which markers stay whole. It does
not always keep markers whole, as its segments suggest: `MarkerCut` is an input.

**Tool calls** (`common/chat-peg-parser.cpp`). `Quotes` is the quote normaliser and the brace
counter, `ChatMapper` the mapper as a step function over its events, `ChatMapperObject` the object
that updates its fields in place and is proved equal to it, `ChatTexts` what becomes of content,
reasoning, identifiers and whole objects, and `ChatArguments` and `ChatValues` what a call whose
arguments come one by one ends up with.

**Weight conversion** (`convert_hf_to_gguf.py`, `convert_lora_to_gguf.py`). `Mtp` to `MtpOrders`
are the streaming conversion of the multi-token-prediction tensors; `Tensors`, `TensorLaws` and `Lora*`
the factored tensors; `Heads` the head reorderings; `Bpe` the byte-pair merging; `Mxfp4` the nibble
repacking.

**Codec and table** (`common/base64.hpp`, `common/ngram-mod.cpp`): `Base64` (sections 4 and 5 of
RFC 4648) and `NgramMod`.

Code that works by changing things in place is modelled so: `LogRing.CommonLog`,
`JsonLocator.JsonErrorLocator`, `ChatMapperObject.Mapper`, `MtpConverter.Converter` and
`NgramMod.NgramTable` are classes, `Base64.DecodeInPlace` works on an array, and the loops are loops.
Each method is proved equal to a function, and the results are about the function.

Two comments in the sources differ from the code, and the model follows the code:
`chat-peg-parser.cpp:247` announces a flush of calls that never got a name, while the condition
asks for a name and is never met (`ChatMapper.RunUnnamed`); the loader at
`convert_hf_to_gguf.py:802` takes for granted that a token splits in two, which depends on the
table of ranks (`Bpe.ExactlyTwoIff`).

## Model

| member | source | states |
|---|---|---|
| LogRing.CommonLog.constructor | common/log.cpp:147-165 | the log starts running with an empty queue of the given capacity |
| LogRing.CommonLog.Add | common/log.cpp:197-273 | while running the abstract queue grows by the message at its end, doubling when full, and the buffer never reads as empty afterwards; while paused nothing changes |
| LogRing.CommonLog.Grow | common/log.cpp:249-270 | the rotate-and-double loop keeps the full circle of entries in order, from any head, in twice the room |
| LogRing.CommonLog.Take | common/log.cpp:285-293 | the worker takes the oldest queued item and leaves the rest in order |
| LogRing.CommonLog.PushEnd | common/log.cpp:309-327 | pause appends the end marker if a slot is left over, and empties the queue as read by the worker if not |
| LogRing.CommonLog.Resume | common/log.cpp:275-282 | the log runs again |
| LogRing.CommonLog.WaitsWhenEmpty | common/log.cpp:288 | the worker's wait condition is exactly that the abstract queue is not empty |
| LogRing.PushAround | common/log.cpp:248 | advancing tail with room left appends one entry, wherever the circle wraps |
| LogRing.PopAround | common/log.cpp:290-292 | advancing head removes the first entry |
| LogRing.PushFull | common/log.cpp:248-260 | an add that catches up with head leaves the whole buffer, read from head, as the queue |
| LogProtocol.StepKeeps | common/log.cpp:197-330 | every step keeps the invariant: delivered, printed and queued messages are the accepted ones in order, and an end marker is queued last and only while a pause waits; except that a pause with one free slot gets stuck |
| LogProtocol.StuckStays | common/log.cpp:308-330 | a stuck pause is stuck for good, whatever else happens |
| LogProtocol.AlwaysRegularOrStuck | common/log.cpp:197-330 | over every run the invariant holds, or a pause is stuck |
| LogProtocol.JoinMeansDelivered | common/log.cpp:308-330 | whenever the join returns, everything accepted has been delivered and the queue is empty |
| LogProtocol.PauseMakesProgress | common/log.cpp:285-303 | while a pause waits the worker always has a step, each step brings it closer to its end, and producers change nothing |
| LogProtocol.WorkerFinishes | common/log.cpp:285-329 | from every regular waiting pause there is a run to the join |
| LogProtocol.PauseJoinsIff | common/log.cpp:318-329 | a pause can join if and only if at least two slots are free when it pushes its marker |
| LogProtocol.StuckReachable | common/log.cpp:318-324 | a log of any capacity gets stuck: fill it up to one slot and pause |
| Json.RunWellFormed | common/json-partial.cpp:113 | every reachable state of the recogniser is well formed: keys and colons lie in objects, escapes are consistent |
| Json.StringNeverCloses | common/json-partial.cpp:157-167 | no run of closing brackets ends an unfinished string |
| Json.NumberCloses | common/json-partial.cpp:157-167 | a complete number is closed like any finished value |
| Json.ClosingIsUnique | common/json-partial.cpp:157-167 | after a finished value exactly one string of brackets closes the text: that of the open containers, innermost first |
| JsonGrammar.ValidIffDerived | common/json-partial.cpp:111-117 | the recogniser accepts exactly the texts that the grammar of RFC 8259 derives, rule by rule, with escaped surrogates in pairs |
| JsonGrammar.DerivedIsValid | common/json-partial.cpp:111-117 | every text that the grammar derives is accepted |
| JsonGrammar.ValidIsDerived | common/json-partial.cpp:111-117 | every text that is accepted has a derivation |
| JsonLocator.StepMirrors | common/json-partial.cpp:53-109 | for every accepted character no assertion of end_object or end_array fires and the element stack mirrors the text read |
| JsonLocator.MirrorKeysOnObjects | common/json-partial.cpp:53-109 | every KEY lies directly on an OBJECT |
| JsonLocator.MirrorClosing | common/json-partial.cpp:157-167 | the closing text read off the stack is the one that closes what is open |
| JsonLocator.JsonErrorLocator.CloseValue | common/json-partial.cpp:53-57 | a pending key is removed, and nothing else |
| JsonLocator.JsonErrorLocator.EndObject | common/json-partial.cpp:90-95 | the object and the key that waited for it are removed |
| JsonLocator.JsonErrorLocator.EndArray | common/json-partial.cpp:104-109 | the array and the key that waited for it are removed |
| JsonLocator.JsonErrorLocator.Deliver | common/json-partial.cpp:53-109 | a list of events whose assertions hold updates the stack as the event function says |
| JsonLocator.JsonErrorLocator.SaxParse | common/json-partial.cpp:111-117 | an error is found exactly when the text is not JSON, at its first impossible character, with the stack of what is open there |
| JsonLocator.JsonErrorLocator.Closing | common/json-partial.cpp:157-167 | the loop produces the brackets of the stack, innermost first |
| JsonGuards.QuoteGuard | common/json-partial.cpp:222 | if a quote and brackets complete the text, it stopped in a value string and the brackets close the rest |
| JsonGuards.OneGuard | common/json-partial.cpp:214 | if 1 and brackets complete it, and no number was being read, it stopped where a value begins |
| JsonGuards.ColonOneGuard | common/json-partial.cpp:217 | if `: 1` completes it, it stopped after a key |
| JsonGuards.CommaOneGuard | common/json-partial.cpp:253 | if `, 1` completes it, a value of an array had just finished |
| JsonGuards.KeyTailGuard | common/json-partial.cpp:272 | if `": 1` completes it, it stopped in a key |
| JsonGuards.EmptyKeyGuard | common/json-partial.cpp:266 | if `"": 1` completes it, it stopped where a key begins, or after the backslash of an escape in a key |
| JsonGuards.CommaKeyGuard | common/json-partial.cpp:269 | if `,"": 1` completes it, a value of an object had just finished |
| JsonGuards.BraceGuard | common/json-partial.cpp:219 | brackets alone complete a text that stopped after an opening brace only in an empty object |
| JsonHeal.ValueBranch | common/json-partial.cpp:214-216 | the text written, a string value with the marker, is JSON because the tried one, a number, was |
| JsonHeal.ColonBranch | common/json-partial.cpp:217-218 | the same for a colon and a value |
| JsonHeal.BraceBranch | common/json-partial.cpp:219-221 | the same for a first key, where only the brackets had been tried |
| JsonHeal.QuoteBranch | common/json-partial.cpp:222-230 | the same inside a value string, after a padded escape or none |
| JsonHeal.EscapeBranch | common/json-partial.cpp:225-227 | the same after a lone backslash, although the marker and not a quote follows it |
| JsonHeal.KeyTailBranch | common/json-partial.cpp:272-280 | the same inside a key |
| JsonHeal.CommaBranch | common/json-partial.cpp:253-255 | the same for a further array element |
| JsonHeal.EmptyKeyBranch | common/json-partial.cpp:265-268 | the same for a further key after a comma |
| JsonHeal.CommaKeyBranch | common/json-partial.cpp:269-271 | the same for a comma and a further key |
| JsonHeal.CutBack | common/json-partial.cpp:231-238 | in a text that stops in a number or literal name, the last opening character starts that value, and cutting back to it gives JSON |
| JsonHeal.OpenStringReady | common/json-partial.cpp:222-230 | every string that stops anywhere, also inside an escape, is completed by one of the three trials |
| JsonHeal.TruncationMeetsGuard | common/json-partial.cpp:212-291 | outside numbers and literal names, and but for a false high surrogate, every truncated text with an open container meets a guard |
| JsonHeal.TokenMeetsNoGuard | common/json-partial.cpp:212-291 | in a number or literal name none is met, so the text is cut back |
| JsonWritten.PadSays | common/json-partial.cpp:194-206 | padding after which a string goes on is just what the state asks for before the marker: the missing digits of the escape, and the low surrogate that a high one needs; but for a false high surrogate |
| JsonWritten.QuoteSays | common/json-partial.cpp:222-224 | if a quote completes the text, nothing belongs before the marker and a quote behind it |
| JsonWritten.BackQuoteSays | common/json-partial.cpp:225-227 | if a backslash and a quote complete it, a backslash belongs before the marker |
| JsonWritten.CommaKeySays | common/json-partial.cpp:269-271 | if a comma and a key complete it, a comma and a quote belong before the marker, and a value for the key behind it |
| JsonHealer.HealKey | common/json-partial.cpp:212-239 | a healed text is JSON; when a guard is met it keeps all of the input, with before and behind the marker exactly what the state that the text stops in asks for; otherwise it is the cut |
| JsonHealer.HealArray | common/json-partial.cpp:240-263 | the same with an array on top |
| JsonHealer.HealObject | common/json-partial.cpp:264-288 | the same with an object on top |
| JsonHealer.HealTop | common/json-partial.cpp:298-315 | a bare text is healed when one of the two trials succeeds, keeping all of it, with exactly a quote behind the marker, and a backslash before it after a lone one; otherwise it is not healed |
| JsonHealer.HealOpen | common/json-partial.cpp:138-296 | the three cases together, by the top of the stack |
| JsonHealer.Heal | common/json-partial.cpp:138-316 | a healed text is JSON, keeps a prefix of the input, and cut at the first dump marker leaves a prefix of the input, for any text and stack; a truncated text is healed if and only if CanHeal says so, and then the result is one outcome: what is kept, what stands before the marker (nothing in a string, a second backslash, the digits that complete an escape, a quote, a colon or comma and a quote), the marker, a quote with a value for a key, and the brackets |
| JsonHealer.CommonJsonParse | common/json-partial.cpp:30-321 | JSON is returned as it is; whatever else is returned is JSON; every truncated text, with or without an open container, is healed if and only if CanHeal says so, for every marker of plain characters, to exactly the outcome stated for Heal |
| JsonHealer.HealsOpen | common/json-partial.cpp:212-291 | why, with an open container: a guard is met, or the cut decides |
| JsonHealer.HealsBare | common/json-partial.cpp:298-315 | why, without one: one of the two trials decides |
| JsonHealer.CutAtMarker | common/json-partial.cpp:292-295 | cutting a healed text at the first dump marker leaves a prefix of the input |
| JsonHealLimits.MeetsGuardIff | common/json-partial.cpp:172-291 | a truncated text with an open container meets a guard if and only if it does not stop in a number or literal name, nor in an escape that only seems to follow a high surrogate |
| JsonHealLimits.FalseHighMeetsNoGuard | common/json-partial.cpp:196-206 | there every completion fails: the padding is a lone low surrogate |
| JsonHealLimits.CutIff | common/json-partial.cpp:231-238 | cutting back gives JSON if and only if the last opening character opens a value of the innermost open container |
| JsonHealLimits.TopGuardsIff | common/json-partial.cpp:301-306 | with no open container one of the two completions is accepted if and only if the text stops in a string or after a lone backslash in it |
| JsonHealExamples.StoppedCannotHeal | common/json-partial.cpp:196-239 | a truncated text with an open container that cannot be healed |
| JsonHealExamples.BareCannotHeal | common/json-partial.cpp:298-311 | every bare string that stops right after the start of a unicode escape cannot be healed |
| DiffSplit.SegmentizeMarkers | common/chat-auto-parser-helpers.cpp:269-299 | the loop finds exactly the markers and the text between them |
| DiffSplit.SegmentsConcat | common/chat-auto-parser-helpers.cpp:269-299 | the segments make up the text and none is empty |
| DiffBorders.SegmentsAre | common/chat-auto-parser-helpers.cpp:269-299 | a marker runs from an opening bracket to the first bracket that closes it; a text has no opening bracket, or is one that nothing closes at the end; no two texts are neighbours |
| DiffSplit.MatchEnds | common/chat-auto-parser-helpers.cpp:103-138 | the loop over four iterators and two flags is the two-ended matching, in range throughout |
| DiffSplit.FinishWhole | common/chat-auto-parser-helpers.cpp:141-165 | a branch after the loop that takes a segment not taken before loses nothing |
| DiffSplit.TwiceLeft | common/chat-auto-parser-helpers.cpp:141-150 | one that takes a left segment twice loses text, unless the left text is a prefix of the right one |
| DiffSplit.TwiceRight | common/chat-auto-parser-helpers.cpp:151-160 | one that takes a right segment twice always does |
| DiffSplit.TwiceBoth | common/chat-auto-parser-helpers.cpp:161-165 | and so does one that takes the last segment of both again |
| DiffSplit.CalculateDiffSplit | common/chat-auto-parser-helpers.cpp:87-207 | the whole of it, for all inputs |
| DiffSplit.MatchedKeeps | common/chat-auto-parser-helpers.cpp:110-138 | the loop takes each segment it takes from both sides, once, and loses none |
| DiffSplit.SplitTextsRebuilds | common/chat-auto-parser-helpers.cpp:175-183 | moving common characters into prefix and suffix keeps both texts, without overlap |
| DiffBorders.DiffIsMinimal | common/chat-auto-parser-helpers.cpp:169-183 | where both sides differ they begin differently, unless both begin with an opening bracket, and end differently, unless both end with a closing one |
| DiffBorders.SharedIsTaken | common/chat-auto-parser-helpers.cpp:110-183 | there, all segments shared at the front are in the prefix and all shared at the back in the suffix; beyond them characters are taken only where both sides go on with text |
| DiffBorders.PlainDiff | common/chat-auto-parser-helpers.cpp:87-207 | of texts without brackets the suffix is the longest common end and the prefix the longest common beginning before it |
| DiffBorders.PlainPrefix | common/chat-auto-parser-helpers.cpp:185-204 | if the left one begins the right one, it is the prefix and the rest of the right one the difference |
| DiffBorders.MarkersKeptIff | common/chat-auto-parser-helpers.cpp:87-207 | of texts that do not end inside a marker, the prefix never divides one, and the borders before and behind left and right divide none unless the loop leaves a text last on both sides, one of them with the bracket before it ends the other, and the left text does not begin the right: then they do divide one |
| DiffBorders.MarkerCut | common/chat-auto-parser-helpers.cpp:169-183 | `<a>x` against `b>x` divides the marker `<a>` |
| DiffSplit.CorrectedRebuilds | common/chat-auto-parser-helpers.cpp:185-204 | the degenerate case and the rotation keep a correct split correct |
| DiffSplit.SplitRebuildsIff | common/chat-auto-parser-helpers.cpp:87-207 | prefix, difference and suffix rebuild both texts if and only if no branch after the loop takes a segment that the loop had taken already, or the rotation repairs it |
| DiffSplit.UniqueRebuilds | common/chat-auto-parser-helpers.cpp:87-207 | without repeated segments on either side nothing is lost, through every exit |
| DiffSplit.RepeatLoses | common/chat-auto-parser-helpers.cpp:140-158 | with them text is lost, for segments a b against a b b |
| DiffSplit.TagsLose | common/chat-auto-parser-helpers.cpp:140-158 | as in `<a><b>` against `<a><b><b>` |
| Quotes.NormalizeQuotesToJson | common/chat-peg-parser.cpp:106-183 | the loop is the transducer, for all inputs |
| Quotes.NormalizePreserves | common/chat-peg-parser.cpp:101-183 | JSON reads from the result the outside characters and string contents that a reader of both quotes reads from the input |
| Quotes.NormalizeIsIdentityIff | common/chat-peg-parser.cpp:154-176 | the identity exactly on texts without a single quote outside double quotes |
| Quotes.NormalizeIsIdempotent | common/chat-peg-parser.cpp:106-183 | normalising twice changes nothing more |
| Quotes.JsonBraceDepth | common/chat-peg-parser.cpp:41-67 | the loop is the counter |
| Quotes.DepthCountsBraces | common/chat-peg-parser.cpp:41-67 | it counts exactly the braces that JSON reads outside strings |
| Quotes.DepthOfNormalized | common/chat-peg-parser.cpp:41-183 | after normalising it counts exactly the braces outside either kind of quotes |
| ChatMapper.RunUnnamed | common/chat-peg-parser.cpp:244-258 | over every run no pending call has a name, so the flush never fires |
| ChatMapper.StepExtends | common/chat-peg-parser.cpp:304-449 | every event of a well-formed sequence only extends content, reasoning and the current arguments by a suffix and leaves finished calls alone |
| ChatMapper.StreamingExtends | common/chat-peg-parser.cpp:304-449 | the same over whole sequences; current_tool is never followed to a call that is gone |
| ChatMapper.NameCommutes | common/chat-peg-parser.cpp:236-238 | the name may change places with any neighbouring event of the call |
| ChatMapper.NamePositionDoesNotMatter | common/chat-peg-parser.cpp:236-449 | wherever the name stands between open and close, the whole state after the call is the same |
| ChatTexts.RunTexts | common/chat-peg-parser.cpp:309-317 | the content is that of all content events in order, and the reasoning that of all reasoning events, whatever stands between them |
| ChatTexts.TrimTrailingIs | common/chat-peg-parser.cpp:11-21 | all trailing spaces go and nothing else |
| ChatTexts.TrimKeyIs | common/chat-peg-parser.cpp:35-37 | of a key one leading space goes and all trailing ones |
| ChatTexts.TrimValueIs | common/chat-peg-parser.cpp:393 | of a value one space goes at each end and not a second one |
| ChatTexts.IdIs | common/chat-peg-parser.cpp:339-345 | an identifier in quotes loses them and what follows; another is taken as it is |
| ChatTexts.CallWithObject | common/chat-peg-parser.cpp:364-371 | arguments given as one object are that text without trailing spaces, with the braces that it leaves open closed, wherever the name stood; a text that is no object is dropped |
| ChatTexts.UnnamedDropped | common/chat-peg-parser.cpp:426-448 | a call closed without a name is dropped |
| ChatArguments.CallWithStrings | common/chat-peg-parser.cpp:377-448 | the final arguments are exactly the braces around the escaped keys and escaped trimmed values, valid JSON of depth 0, wherever the name stood |
| ChatValues.CallWithValues | common/chat-peg-parser.cpp:377-448 | strings and other values in any mixture: the final arguments are exactly the entries, strings escaped, lists and objects normalised, anything else as it stands, and the open braces closed, wherever the name stood |
| ChatArguments.ObjectIsJson | common/chat-peg-parser.cpp:69-76 | that object is JSON for all texts |
| ChatArguments.ObjectDepth | common/chat-peg-parser.cpp:437-440 | one brace is open before the close, none after it, whatever braces the texts hold |
| ChatArguments.UnescapeEscaped | common/chat-peg-parser.cpp:69-76 | a JSON reader gets the escaped text back |
| ChatMapperObject.Mapper.Map | common/chat-peg-parser.cpp:304-449 | the object's fields change as the step function says, for every safe event |
| ChatMapperObject.Mapper.MapName | common/chat-peg-parser.cpp:347-362 | the same for a name |
| ChatMapperObject.Mapper.MapArgName | common/chat-peg-parser.cpp:377-390 | the same for an argument's name |
| ChatMapperObject.Mapper.MapClose | common/chat-peg-parser.cpp:426-448 | the same for the end of a call |
| ChatMapperObject.Mapper.Append | common/chat-peg-parser.cpp:236-238 | what is appended goes to the buffer before the name and to the arguments after it |
| ChatMapperObject.Mapper.FromAst | common/chat-peg-parser.cpp:244-273 | the events in order; reasoning made only of blanks, newlines, carriage returns and tabs is dropped |
| Mtp.PairStep | convert_hf_to_gguf.py:5723-5745 | whichever of weight and scale comes first waits for the other, and what becomes ready carries the value of both |
| MtpConfluence.DeliverPart | convert_hf_to_gguf.py:5754-5766 | projection halves are joined in the fixed order, whichever comes first |
| MtpConfluence.DeliverExpert | convert_hf_to_gguf.py:5768-5787 | experts are collected and stacked by id, whatever their order; too many or unknown ids fail |
| MtpConfluence.StepKeeps | convert_hf_to_gguf.py:5719-5816 | every arrival keeps the invariant that ties all dictionaries to the set of tensors seen, or the set cannot convert |
| MtpOrders.FileIsUnique | convert_hf_to_gguf.py:5855-5869 | the file that a set of tensors should convert to, defined without reference to order, is unique |
| MtpOrders.ConvertsInEveryOrder | convert_hf_to_gguf.py:5719-5869 | every order fails exactly when the set is unfit, and otherwise yields that file |
| MtpOrders.Confluence | convert_hf_to_gguf.py:5719-5869 | all orders agree on failing and on the map from output name to value |
| MtpOrders.RawConfluence | convert_hf_to_gguf.py:5792-5816 | whether a group is raw agrees in all orders if and only if its experts are all scaled or all unscaled |
| MtpOrders.LastDecides | convert_hf_to_gguf.py:5735-5745 | in a mixed group the last expert to become ready decides whether it is raw |
| MtpOrders.MixedGroupsDisagree | convert_hf_to_gguf.py:5735-5816 | for every convertible set with a mixed group there is an order in which the group is raw and one in which it is not |
| MtpOrders.MixedSet | convert_hf_to_gguf.py:5735-5816 | and there is such a set |
| MtpConverter.Converter.ModifyTensors | convert_hf_to_gguf.py:5719-5790 | the dictionaries change as the conversion function says |
| MtpConverter.Converter.RecordMtpExpert | convert_hf_to_gguf.py:5792-5816 | the same for packed experts |
| MtpConverter.Converter.PlacePart | convert_hf_to_gguf.py:5754-5766 | the same for projection halves |
| MtpConverter.Converter.PrepareTensors | convert_hf_to_gguf.py:5855-5869 | the whole conversion, with the final checks, is the conversion function |
| Tensors.ReshapeBack | convert_hf_to_gguf.py:1680-1682 | reshaping back restores the tensor |
| Tensors.TransposeBack | convert_hf_to_gguf.py:2591-2593 | exchanging two dimensions twice restores the tensor |
| TensorLaws.RavelOrder | convert_lora_to_gguf.py:128-152 | entries are numbered in the order of their indices, compared from the first dimension, which reshaping keeps |
| TensorLaws.SliceTakes | convert_lora_to_gguf.py:97-110 | a slice takes the first index within its bounds, counted from the end when negative, and then every step-th while it is within them |
| TensorLaws.StackedPart | convert_lora_to_gguf.py:196-203 | entry k of the stack is tensor k |
| TensorLaws.JoinedPart | convert_lora_to_gguf.py:204-212 | the rows of tensor k follow those of the tensors before it |
| Lora.ReshapeCommutes | convert_lora_to_gguf.py:128-152 | the product of the reshaped factors is the reshaped product; for sizes that are not zero the factors are reshaped if and only if the product could be, its rows keep their length and A is one matrix |
| Lora.InferredIff | convert_lora_to_gguf.py:137-142 | with at most one -1 the expanded shape is the one with the sizes given and all the entries |
| Lora.ViewCommutes | convert_lora_to_gguf.py:128-152 | so reshaping with a -1 is reshaping to that shape, and there is one whenever it succeeds |
| LoraIndex.SelectCommutes | convert_lora_to_gguf.py:97-110 | selecting from both factors selects from the product, when A's items fit B's |
| LoraTuples.TupleIndexIff | convert_lora_to_gguf.py:75-110 | a tuple index is right if and only if rows and columns are sliced and every slice of a leading dimension keeps all of it or A is one matrix there |
| LoraTuples.OneIndexIff | convert_lora_to_gguf.py:65-74 | one index or slice is right if and only if it fits dimension 0 of both factors; of a single matrix, a slice always is |
| LoraEllipsis.EllipsisIff | convert_lora_to_gguf.py:75-110 | indexing with an ellipsis before other items gives what is meant, for all factors of given shapes, if and only if the rank is at least twice the number of the other items, the expanded tuple fits the shapes, and it chooses what is meant |
| LoraEllipsis.ChoosesSameIff | convert_lora_to_gguf.py:79-94 | two tuples with indices in the same places choose the same if and only if their items do in every dimension |
| LoraEllipsis.KeepsWholeIff | convert_lora_to_gguf.py:79-94 | when the places written and meant do not overlap, slices after the ellipsis choose what is meant if and only if each takes the whole of both dimensions |
| LoraEllipsis.TrailingEllipsis | convert_lora_to_gguf.py:77-78 | a trailing ellipsis and missing items stand for whole slices |
| LoraShapes.PermuteCommutes | convert_lora_to_gguf.py:160-171 | permuting is carried out if and only if rows stay rows and A is one matrix, or a matrix is transposed; then it permutes the product |
| LoraShapes.TransposeCommutes | convert_lora_to_gguf.py:173-177 | the same for two exchanged dimensions |
| LoraShapes.StackCommutes | convert_lora_to_gguf.py:196-203 | stacking the factors stacks the products |
| LoraCat.CatMatrices | convert_lora_to_gguf.py:213-217 | matrices are joined if and only if their rows have one length and all have the same A, and then the products are joined |
| LoraCat.CatStacksIff | convert_lora_to_gguf.py:204-212 | joining stacks of matrices is right for all factors of the same sizes if and only if each has as many matrices of A as of B, or there is one matrix of A in all |
| LoraExamples.LeadingSliceWrong | convert_lora_to_gguf.py:97-110 | a slice of a leading dimension that is not right |
| LoraExamples.SharedIndexRefused | convert_lora_to_gguf.py:65-67 | an index that the product has and a shared A has not |
| LoraExamples.EllipsisWrong | convert_lora_to_gguf.py:79-94 | a slice of columns after an ellipsis that becomes one of rows |
| LoraExamples.EllipsisRightAtRankFour | convert_lora_to_gguf.py:79-94 | a slice of everything after an ellipsis, right in every tensor of rank 4 |
| LoraExamples.SharedJoinWrong | convert_lora_to_gguf.py:204-212 | two stacks with a shared A each that are not joined rightly |
| Heads.PermuteInterleaves | convert_hf_to_gguf.py:1677-1682 | with n heads, kv when it is given and heads otherwise, row j of half p of head a becomes row p of pair j of that head |
| Heads.PermuteUndone | convert_hf_to_gguf.py:1677-1682 | undone by the reshaping with 2 and the half size of those n heads exchanged |
| Heads.PushedThroughPermute | convert_lora_to_gguf.py:128-177 | pushing a factored tensor through LlamaModel.permute permutes the product by those n heads, possible exactly when it is for the product and A is one matrix |
| Heads.ReorderUndone | convert_hf_to_gguf.py:2579-2593 | reordering by (k, v) is undone by (v, k), along any dimension counted from either end |
| Heads.ReorderSpreads | convert_hf_to_gguf.py:2579-2593 | where every entry goes |
| Bpe.BytePairs | convert_hf_to_gguf.py:2237-2251 | the two loops end, and merge as the function says |
| Bpe.Least | convert_hf_to_gguf.py:2240-2247 | the scan finds the leftmost pair of least rank, or there is none |
| Bpe.LeastIsUnique | convert_hf_to_gguf.py:2240-2247 | that pair is unique |
| Bpe.BytePairsParts | convert_hf_to_gguf.py:2237-2251 | the parts make up the token, each is a byte or ranks below the limit, and no neighbours could still be merged |
| Bpe.BytePairsTrace | convert_hf_to_gguf.py:2237-2251 | there is a sequence of part lists from the single bytes to the result in which each joins the leftmost pair of least rank, below the limit, and after the last no pair ranks below it |
| Bpe.TracesEndThere | convert_hf_to_gguf.py:2237-2251 | and every such sequence ends in the result |
| Bpe.AtLeastTwo | convert_hf_to_gguf.py:797-803 | with its own rank as the limit a token keeps at least two parts |
| Bpe.ExactlyTwoIff | convert_hf_to_gguf.py:797-803 | it has exactly two, as the loader asserts, if and only if the run without a limit builds it by merges that rank below it up to the last |
| Bpe.ThreeParts | convert_hf_to_gguf.py:801-802 | a table of all bytes and one token of three bytes, for which the assertion fails |
| Bpe.ByteTable | convert_hf_to_gguf.py:797-800 | there is such a table, with the bytes ranked by value |
| Mxfp4.BlockKeeps | convert_hf_to_gguf.py:5833-5839 | value i of a block is the same before and after, for all 32, and the scale is kept |
| Mxfp4.BlocksAreNumbers | convert_hf_to_gguf.py:5833-5839 | a source block, read as a number with its lowest byte first, has the values as its digits in base 16, lowest first; of a packed block the digits alternate between the halves of the values |
| Mxfp4.PackKeeps | convert_hf_to_gguf.py:5819-5840 | the same for every block of every row; it fails exactly for rows that are not whole blocks or scales that do not match |
| Mxfp4.PackInjective | convert_hf_to_gguf.py:5819-5840 | different weights or scales are packed differently |
| Base64.EncodeBytes | common/base64.hpp:80-144 | the loop with its three exits is the encoding function |
| Base64.DecodeBytes | common/base64.hpp:200-244 | the loop is the decoding function, with what is written before an error |
| Base64.DecodeInPlace | common/base64.hpp:294-313 | decoding over its own input gives what decoding elsewhere gives, for every input, and no unread character is overwritten |
| Base64.GroupIsNumber | common/base64.hpp:80-144 | three bytes and their four values are the same number, the first counting most |
| Base64.SymbolsAtoM | common/base64.hpp:83-86 | the symbols of 0 to 12 are A to M, in both alphabets |
| Base64.SymbolsNtoZ | common/base64.hpp:83-86 | those of 13 to 25 are N to Z |
| Base64.SymbolsSmallAtoM | common/base64.hpp:83-86 | those of 26 to 38 are a to m |
| Base64.SymbolsSmallNtoZ | common/base64.hpp:83-86 | those of 39 to 51 are n to z |
| Base64.SymbolsDigits | common/base64.hpp:83-86 | those of 52 to 61 are the digits |
| Base64.SymbolsLastTwo | common/base64.hpp:83-86 | those of 62 and 63 are + and /, or - and _, and padding is = |
| Base64.Padded | common/base64.hpp:105-138 | an encoded text ends in two, one or no =, as the length of the input is 1, 2 or 0 modulo 3 |
| Base64.AcceptsIff | common/base64.hpp:200-244 | a text is accepted if and only if its symbols before the first = belong to the alphabet and, unless decoding is loose, only = follows |
| Base64.SymbolRoundTrip | common/base64.hpp:344-389 | every sextet is read back from its symbol, in its alphabet and under detection |
| Base64.DecodeEncode | common/base64.hpp:80-244 | decoding undoes encoding for every byte sequence, in both alphabets and under detection |
| Base64.EncodedLength | common/base64.hpp:338-341 | the encoded length is exactly required_encode_size |
| Base64.DecodedLength | common/base64.hpp:324-327 | n symbols decode to floor(6n/8) bytes, never more than max_decode_size |
| Base64.MaxDecodeIsTight | common/base64.hpp:324-327 | max_decode_size is the least multiple of 3 that is not below 3n/4, and whole groups without padding decode to exactly that many bytes |
| Base64.AutoAcceptsEither | common/base64.hpp:344-389 | detection accepts exactly what one of the alphabets accepts, with the same result |
| NgramMod.HashWraps | common/ngram-mod.cpp:13-18 | the rounds in 64-bit arithmetic give the unbounded polynomial modulo 2^64, with sign-extended tokens |
| NgramMod.HashOfTwo | common/ngram-mod.cpp:13-18 | two tokens hash to the first times the multiplier and the second; a token of -1 wraps around |
| NgramMod.NeverWritten | common/ngram-mod.cpp:35-39 | a slot that no write went to since the reset holds -1 |
| NgramMod.UsedExactly | common/ngram-mod.cpp:25-33 | the counter is the number of slots in use and of stored -1 since the reset |
| NgramMod.UsedIff | common/ngram-mod.cpp:25-33 | it is the number of slots in use if and only if no -1 was stored |
| NgramMod.StoredEmptyCounts | common/ngram-mod.cpp:28-32 | one stored -1 makes the counter one with no slot in use |
| NgramMod.NgramTable.constructor | common/ngram-mod.cpp:7-11 | the table starts as after a reset |
| NgramMod.NgramTable.Idx | common/ngram-mod.cpp:13-23 | the slot of an n-gram |
| NgramMod.NgramTable.Add | common/ngram-mod.cpp:25-33 | one more write since the reset |
| NgramMod.NgramTable.Get | common/ngram-mod.cpp:35-39 | what the last write since the reset to the same slot stored, and -1 when there was none |
| NgramMod.NgramTable.Reset | common/ngram-mod.cpp:41-44 | no write is left |
| NgramMod.NgramTable.GetUsed | common/ngram-mod.cpp:50-52 | the slots in use and the stored -1 |

## Left out

- LogProtocol.PauseJoinsIff: one controller only, critical sections as atomic steps; memory ordering, real scheduling and concurrent pauses are not modelled.
- LogRing.CommonLog.constructor: a capacity of 0 is excluded, since indices are taken modulo the capacity.
- Log formatting, colours, timestamps, files and the growth of message buffers: a message is opaque.
- JsonLocator.JsonErrorLocator.SaxParse: of a malformed text (not a truncated one) the library reports the end of the bad token and not its first impossible character; what the guards prove holds for any text and stack.
- JsonLocator.JsonErrorLocator.KeyRead: the text of a key is not kept on the stack; nothing reads it.
- JsonHealer.CommonJsonParse: invalid UTF-8, NUL characters and number overflow are not modelled; the cut at the marker is proved on the healed text, not on its re-serialisation.
- DiffBorders.MarkersKeptIff: nothing is said of texts that end inside an unclosed marker.
- prune_whitespace_segments, until_common_prefix and after_common_suffix: they would only add easy members.
- ChatMapper.StreamingExtends: the visit of the syntax tree is taken as a list of events; what the grammar guarantees about it is the predicate WellFormed. The MiniMax and Gemma mappers are left out.
- ChatArguments.CallWithStrings: the dump of invalid UTF-8, which throws, is not modelled.
- ChatMapperObject.Mapper.Map: following current_tool after its call is gone has no meaning in the source; it is excluded by the precondition Safe, which well-formed sequences meet.
- MtpOrders.Confluence: tensor values are symbolic terms, so dtypes, rounding and shape errors of torch.stack and torch.cat are not modelled; names are parsed to a datatype, with canonical ids, and the tables of output names are parameters. `head.scale` needs no guard: with `head.weight` present every order fails.
- Lora.ReshapeCommutes: entries are exact reals; dtypes and laziness are not modelled. Multiplying out takes A's leading dimensions as equal to B's or 1, as the property shape does.
- Lora.ViewCommutes: several -1 are filled alike by the source and refused by torch; only one is covered.
- LoraTuples.TupleIndexIff: tensors and None as indices are not modelled.
- LoraCat.CatStacksIff: the only-if half is for a positive rank and sizes past the first dimension that are not zero; without them there is nothing to tell apart.
- LoraEllipsis.EllipsisIff: the only-if half is for a positive rank, since a product of rank zero is zero everywhere.
- NgramMod.NgramTable.Add: a table of size 0, for which the source divides by zero, is excluded; the counter does not wrap at 2^64.
- Base64.DecodeBytes: characters are bytes; the exceptions are a flag beside the bytes written so far.
- Everything that rests on the parser combinators, the template renderer, the JSON library's internals or std::regex; console, network and file handling; the other converters.
