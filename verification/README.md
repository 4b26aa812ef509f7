# Verified model of the compression engine and proxy

This project models, in Dafny 4.11, the parts of the repository where a mistake would silently lose
or invent something: lines of a tool output, tokens of a bill, threads waiting for a slot, or the
meaning of a negated command. `dafny verify dfyconfig.toml` checks all of it.

**Shape-aware compression** (`Normalize`, `NumberingRules`, `Ansi`, `Features`, `ShapeRules`, `Deviation`, `Lines`,
`RunLength`, `PrintedRuns`, `KeptMask`, `MaskMeaning`, `Elision`, `Skeleton`, `OutlineRules`, `Conservation`,
`NumberedNotes`, `Pipeline`, and the examples `HeadTailExample`, `PrintedRunsExample`, over `PlainText`). A text is
split into lines, stripped of terminal escapes and line numbers, measured in integer thousandths and classified; runs
of equal lines are collapsed, and a lossy strategy may leave counted notes. The results: which shape a text has and
which strategy answers it, told from its lines alone; which lines the structural index keeps and which it leaves out,
told from their indents alone; knowing which lines are notes, the collapsing pass can be undone from the counts in
them, and from the printed text alone exactly when no line of the input shown behind another one reads as such a
note; the structural cap keeps exactly the lines up to the cap-th smallest indent; every line of the input is shown, counted in exactly one note, or counted as
collapsed, from input text to output text; and the line ranges of elision notes are disjoint and
increasing. The range of an elision note and that of a collapsed run's note are disjoint as well, except
that a gap that ends with the head of a run shares that one line with the run's own note. On a listing numbered
line by line every note counts exactly the lines of its range. A JSON outline is the whole outline of the value as
long as that fits 700 bytes, counts the keys it leaves out, and never exceeds 907 bytes.

**Streaming tally** (`SseFraming`, `SseTally`, `SseAccumulator`, `SseEvents`, `SseSynth`, `SseRoundTrip`,
`SseDialects`, `SseUsage`, `CallOrder`, `SseSynthOpenai`, `Usage`, `WrittenResponses`, `WrittenCalls`).
The accumulator is a class fed arbitrary byte chunks. Its state depends only on the bytes, never on how they were cut, and is the fold of the line reader over the complete
lines (the framing of section 9.2.5 of the WHATWG HTML Living Standard, restricted as the source restricts
it to lines ended by a line feed). A synthesised Anthropic stream is read back as the batch extraction reads
the message, exactly when no count is negative and every tool block has a string name and an input. OpenAI
fragments and Google parts, spread over events in any way, are tallied as the batch extraction reads the
whole response; the usage objects of a stream are tallied as the last of them exactly when it still reports
every kind that was ever positive. A synthesised OpenAI stream is read back as one call for every index that
occurs, by ascending index, and the exact condition under which these are the recorded calls is given for every
response. Counts, calls and texts written into a response or a stream the way a provider writes them are exactly what
the batch extraction and the tally read.

**Retrieve loop** (`Dialects`, `Selection`, `RetrieveLoop`, `FollowUp`, `CleanBody`, `ClientReader`, `OpenaiReader`,
`EventLines`, `StreamedAnswer`). The loop over an arbitrary upstream: which
bodies are posted, field by field, and when another round follows; what is reported and recorded; what is handed on
of the last reply; what a client that rebuilds the message from the streamed answer holds at its end; and that no
retrieve call is left in the content blocks of an Anthropic answer or in the first choice of an OpenAI answer.
Later choices of an OpenAI answer are neither looked at nor changed.

**Gate** (`Gate`). The mutex and condition variable as interleaved steps of any number of threads, with
barging and spurious wake-ups.

**Smaller pieces.** Negation and grouping of `ptk test` (`NegationPeel`), stamps (`Marker`), the two
cache-fracture counts (`Fractures`, `FractureMeaning`), the duplicate ledger (`ContextLedger`, `LedgerReading`), cuts
of UTF-8 text (`TextCut`, `TokenCut`, over `Utf8`, which follows section 3 of RFC 3629), and the blank-line squeezer
(`SqueezeBlank`).

## Findings

Eight promises do not hold on every input. Each has its condition and a concrete input.

- Retrieve-loop usage is counted twice for the last reply when a later post fails
  (`RetrieveLoop.ReportedIsExact`; `RetrieveLoop.LateFailureCountsTwice` is a run that reports 20 and 10
  tokens for 10 and 5).
- The head-and-tail note counts too few lines exactly when a collapsed run lies in the part left out,
  because it counts a note of the earlier pass as one line (`Conservation.HeadTailConserves`;
  `HeadTailExample.NoteCountsTooFew` is a text of 32 lines, and by `HeadTailExample.RenderedNoteCountsTooFew`
  the renderer answers it with that note).
- The collapse is called reconstructible, but its printed text does not tell a note from a line of the input that
  looks like one, such as a log that already went through the pass. The runs, and the number of lines, can be read
  back exactly when no line of the input shown behind another one reads as a note (`PrintedRuns.BodyIsReadBack`;
  `PrintedRunsExample.SameBodyTwice` gives a text of six lines and one of five that are shown as the same body).
- The windowed fracture count differs from the full count exactly when the spurious fractures of the window
  are not as many as the fractures it loses; there is a spurious one exactly when a qualifying row outside
  the window falls, by time stamp and id, between an inside pair (`Fractures.WindowedRefinesFull`,
  `Fractures.CommandLineRefinesStore`; `Fractures.SkewedClockOvercounts` is a table for every limit).
- `ptk test ! ( ! cmd )` reports a failing status above 1 unchanged where bash says 1
  (`NegationPeel.ReportedIsExact`, `NegationPeel.RegroupedNegations`). Consecutive bangs agree with bash,
  which toggles one flag for a whole run of them; success and failure are always right.
- Elision by tokens drops a whole kept piece, uncounted, exactly when the cut falls inside a character
  (`TokenCut.PiecesAreParts`; `TokenCut.CutInsideCharacters` loses twenty tokens and notes two).
- The stream made of a complete OpenAI response repeats its calls without numbering them, so two or more of
  them are read back as one (`SseSynthOpenai.TwoCallsMerge`, `SseSynthOpenai.TwoCallsStreamedAsOne`). Whatever
  numbers the calls carry, named calls are read back right exactly when no two share an index and each stands where
  its index belongs in ascending order (`SseSynthOpenai.ReadBackIsExact`).
- The tally of a stream keeps the last positive count of each kind, so it differs from the last usage object, which
  the complete response carries, exactly when a kind that was positive before is not positive there
  (`SseUsage.StreamedUsageIsExact`; `SseUsage.CachedLaterCountsTwice`: a prompt of 100 tokens reported as not cached
  and then as cached is tallied as 100 of either).

## Assumptions

They are parameters with a stated law, never axioms: the JSON library (`Json.Codec.Sound`: parsing undoes
printing, no raw newline in printed text, empty text does not parse, and so on), the hash (injective where a lemma says so), the
tokenizer (`TokenCut.Tokenizer.Sound`: tokens are pieces of the text's bytes, and its decoder accepts
exactly well-formed UTF-8), the upstream and the content store (arbitrary functions), the
command runners, and the token counter, which the renderer takes as a parameter in the source as well. Integer
arithmetic is that of a release build, where products and sums wrap around.

## Model

| member | source | states |
|---|---|---|
| Ansi.StripAnsi | engine/src/shape.rs:49-87 | the loop over the characters removes exactly the escape sequences that the recursive reading of the text removes, and reports whether there was an escape |
| Ansi.OnlyPlainTextRemains | engine/src/shape.rs:53-86 | a text written as plain pieces and well-formed escape sequences (CSI, OSC with either ending, two-character) is stripped to the plain pieces, in order |
| Normalize.ParseNumbered | engine/src/shape.rs:89-109 | the byte loop finds exactly the prefix of spaces, one to eight digits and a separator, with the value of the digits |
| Normalize.Run | engine/src/shape.rs:113-169 | cleaning, parsing and stripping, each a pass over the lines, compute the specified normal form; indexing the first numbering is in bounds |
| Normalize.LineCountIsKept | engine/src/shape.rs:146-160 | normalising keeps the number of lines |
| Normalize.NormalizedCoordsIncrease | engine/src/shape.rs:135-144 | line numbers strictly increase over the numbered lines; there are none without a numbering scheme |
| Normalize.NumberingRoundTrip | engine/src/shape.rs:113-169 | a listing of at least five lines numbered with a trusted separator is recognised, and every line comes back with its number |
| NumberingRules.PrefixIsExact | engine/src/shape.rs:89-109 | a line is numbered if and only if it begins with spaces, one to eight digits and a tab, colon, bar or arrow, which are told from the text, and is read in only one way |
| NumberingRules.SchemeIsExact | engine/src/shape.rs:135-144 | a block counts as numbered with a separator if and only if it has at least five visible lines, at least 80 percent of them numbered, all with that separator and rising numbers |
| NumberingRules.FileCoordsMean | engine/src/shape.rs:135-169 | the numbers are line numbers of a file exactly in a numbered block whose separator is not a colon |
| NumberingRules.ReturnsAreDropped | engine/src/shape.rs:113-133 | carriage returns at the ends of lines change neither lines nor numbers |
| NumberingRules.ListingLists | engine/src/strategy.rs:338-352 | each line of a numbered listing is compared and measured by its content, beside its number |
| NumberingRules.NumberedRepeatsCollapse | engine/src/strategy.rs:357-392 | three lines of a listing in a row that differ in their numbers only are collapsed |
| Deviation.Isqrt | engine/src/shape.rs:185-196 | the floor of the square root for every 64-bit value, without overflow |
| Deviation.SdMilli | engine/src/shape.rs:198-210 | for every slice: the floor root of the wrapped and saturated quotient, without truncation; the division panics exactly on two or more values whose number is a multiple of 2^32 |
| Deviation.RootIsDeviation | engine/src/shape.rs:203-209 | where n times the sum of squares fits, the result is the exact deviation rounded down but for the cap of the saturating product, and the exact one where that product fits |
| Deviation.ThresholdIsExact | engine/src/shape.rs:207 | the cap never moves the result across a threshold that fits below it |
| Deviation.CauchySchwarz | engine/src/shape.rs:205-206 | the square of the sum is at most n times the sum of squares, so the saturating subtraction never saturates |
| Deviation.NothingWraps | engine/src/shape.rs:203-208 | where n times the sum of squares fits, no product wraps and the subtraction is exact |
| Deviation.ClampsFit | engine/src/shape.rs:228-235 | up to a million values of at most 4000, n times the sum of squares fits 64 bits; only the product with a million may saturate |
| Features.Extract | engine/src/shape.rs:212-268 | the loops compute the statistics as specified, the deviations as above for every block; there is no result exactly where the deviation panics |
| Features.FeatureBounds | engine/src/shape.rs:252-267 | ratios lie in 0..1000, and prefix repetition plus unique ratio is at least 1000 on a block with something to see |
| Features.AllUnique | engine/src/shape.rs:260 | the unique ratio is 1000 exactly when no two trimmed lines are equal |
| Features.NonblankIsHonest | engine/src/shape.rs:265 | the 32-bit count of visible lines is zero only when there are none |
| Features.IndentsAreExact | engine/src/shape.rs:228-258 | up to a million lines the indent deviation is exact but for the cap and at most 200000; up to 21474 lines it is exact |
| Features.LengthsAreExact | engine/src/shape.rs:232-263 | up to a million lines the length deviation is exact but for the cap and at most 2000000; up to 2147 lines it is exact |
| Features.NestingIsExact | engine/src/shape.rs:296-317 | up to a million lines a block counts as nested exactly when its indents deviate by 1.5 or more |
| Features.UnclassifiedIsMostlyUnique | engine/src/shape.rs:303-325 | an unclassified block has between half and 95% unique lines; with at most half of them unique a block of more than three lines is nested or repetitive |
| ShapeRules.ShapeOfText | engine/src/shape.rs:293-325 | from the text, up to a million lines, which shape it has: structured or monolithic exactly with at most three visible lines of more than 600 characters, by whether it parses; otherwise nested if and only if its indents deviate by 1.5 or more whatever its prefixes, repetitive if and only if they do not and its lines begin in at most half as many ways, and so on for the other two |
| ShapeRules.ShapeIs | engine/src/shape.rs:293-325 | the same for the measured statistics of any lines |
| Lines.SlinesOfText | engine/src/strategy.rs:338-352 | zipping normalised and raw lines drops nothing and keeps the numbers in order |
| Lines.NoteIsRead | engine/src/strategy.rs:70-75 | a note is read back as the count and range it was written with |
| RunLength.RleCollapse | engine/src/strategy.rs:357-392 | the nested loops put out each maximal run as specified and count the lines that went |
| RunLength.RunEnd | engine/src/strategy.rs:362-365 | the inner loop stops at the end of the run |
| RunLength.RunsAreMaximal | engine/src/strategy.rs:361-365 | the runs are the lines in order, each of one key, blank lines alone, and no run could take in its neighbour |
| RunLength.RunsAreUnique | engine/src/strategy.rs:361-365 | no other cut into runs has these properties |
| RunLength.CollapseIsLossless | engine/src/strategy.rs:354-392 | with the annotation flags of the lines, repeating each head by the count read from its note gives back the exact sequence of keys |
| PrintedRuns.PrintedRunsAreExact | engine/src/strategy.rs:354-392 | from the printed lines alone: first line and length of every run are read back if and only if no line of the input shown behind another one reads as a note |
| PrintedRuns.BodyIsReadBack | engine/src/strategy.rs:397-413 | the same from the body of the lossless pass, whose runs add up to the number of lines of the text |
| PrintedRunsExample.SameBodyTwice | engine/src/strategy.rs:354-356 | a text of six lines and one of five whose bodies are the same |
| RunLength.CollapseConserves | engine/src/strategy.rs:357-392 | output length is input length less the collapsed lines plus the annotations, and the lines stand for as many lines as there were |
| RunLength.CollapsedNotesFollowHeads | engine/src/strategy.rs:367-382 | every annotation follows a non-blank head and counts at least three lines |
| KeptMask.ComputeMask | engine/src/strategy.rs:115-169 | the passes over the mask compute the specified mask; the index into the sorted levels is in bounds and the count guard never stops a removal; which lines that is, is told by MaskMeaning.MaskIs |
| KeptMask.Prune | engine/src/strategy.rs:160-166 | the second pass removes exactly the kept lines deeper than the cutoff |
| KeptMask.CapIsExact | engine/src/strategy.rs:143-167 | over the cap the survivors are exactly the qualifying lines up to the cap-th smallest indent: at least cap of them, fewer than cap strictly above the cutoff level, none of the outermost level lost |
| KeptMask.MaskBasics | engine/src/strategy.rs:123-142 | annotations stay, blank lines go, every visible line of least indent stays, nothing that does not qualify is kept |
| KeptMask.SortedAtIsKthSmallest | engine/src/strategy.rs:152-159 | the sorted element at cap - 1 is the cap-th smallest |
| KeptMask.KthSmallestIsUnique | engine/src/strategy.rs:158-159 | there is only one such cutoff |
| KeptMask.NextIndentIs | engine/src/strategy.rs:136-140 | the indent compared with is that of the next line that is neither blank nor an annotation |
| MaskMeaning.MaskIs | engine/src/strategy.rs:115-169 | on lines and indents alone, for every line and cap: a line stays if and only if it is an annotation, or it is visible, outermost or followed by a visible line indented deeper, and fewer than cap such lines are indented less than it |
| MaskMeaning.QualifyingMeans | engine/src/strategy.rs:123-142 | before the cap: an annotation, or a visible line that is outermost or whose next visible line is indented deeper |
| MaskMeaning.IndexLeavesOut | engine/src/strategy.rs:183-205 | the index leaves a line out if and only if it is one of three or more lines in a row none of which stays |
| MaskMeaning.IndexApplies | engine/src/strategy.rs:178-210 | the index applies if and only if there are at least six lines and some such row among them |
| Elision.BuildIndex | engine/src/strategy.rs:183-205 | the loop writes exactly the texts and log entries of the specified items |
| Elision.ApplyStructural | engine/src/strategy.rs:178-210 | declines below six lines or without a gap, and otherwise joins those texts |
| Elision.ItemsAreRight | engine/src/strategy.rs:186-205 | items cover every line exactly once in order; each gap is at least three lines, holds no kept line and is maximal; every shown line is kept or in a shorter stretch |
| Elision.EveryStretchIsNoted | engine/src/strategy.rs:192-205 | conversely every maximal stretch of at least three lines not kept has its note |
| Elision.HeadTailIsIndex | engine/src/strategy.rs:95-111 | head and tail shows the first 20 and the last 8 lines around one note for all lines between |
| Elision.WindowIsRead | engine/src/strategy.rs:305-323 | head and tail of the character window are the text's own 400 and 200 characters and the note counts exactly those between |
| Conservation.StructuralConserves | engine/src/strategy.rs:178-210 | lines of the input = lines shown that are not annotations + counts of the notes + collapsed |
| Conservation.StructuralAccountsForText | engine/src/strategy.rs:415-474 | the same from text to text: the body's lines are exactly the shown lines and the notes, and there are at least two fewer |
| Conservation.GapIsRead | engine/src/strategy.rs:202-203 | each note of the index reads back as the length and the ends of its gap |
| Conservation.GapsHoldNoNotes | engine/src/strategy.rs:126-129 | no gap of the index holds an annotation |
| Conservation.HeadTailConserves | engine/src/strategy.rs:98-110 | the parts stand for all lines of the input; the note is exact if and only if no annotation lies between, and otherwise counts too few |
| HeadTailExample.NoteCountsTooFew | engine/src/strategy.rs:98-110 | a text of 32 lines of which head and tail leave out four while their note says three |
| HeadTailExample.RenderedNoteCountsTooFew | engine/src/strategy.rs:415-474 | the renderer answers that text by head and tail with that note, unless the collapsed text is below the floor already |
| Conservation.CollapsedCoordsIncrease | engine/src/strategy.rs:367-386 | collapsing keeps line numbers in order |
| Conservation.RangesAreOrdered | engine/src/strategy.rs:70-82 | ranges of successive elision notes are disjoint and increasing |
| Conservation.CollapsedSpans | engine/src/strategy.rs:367-386 | the range of a run's note starts at the head above it and ends before every later line |
| Conservation.NoteRangesOfText | engine/src/strategy.rs:178-210 | from the text: ranges of elision notes are disjoint and increasing, and meet the range of a run's note only where a gap ends with the run's head |
| Conservation.GapNoteFits | engine/src/strategy.rs:70-75 | a gap whose lines are all numbered counts at most b - a + 1 lines for its range a to b |
| Conservation.NumberedNoteFits | engine/src/strategy.rs:368-373 | the same for the note of a collapsed run |
| NumberedNotes.NotesAreExact | engine/src/strategy.rs:70-82 | on lines numbered one after the other every gap of the index and every collapsed run counts exactly the lines of its range |
| NumberedNotes.ListingNotesAreExact | engine/src/strategy.rs:178-210 | the same from the text of a numbered listing |
| Skeleton.ApplySkeleton | engine/src/strategy.rs:269-295 | the outline strategy as specified: absent where the lines do not parse, else heading and outline, cut to its limit |
| Skeleton.PutSkel | engine/src/strategy.rs:215-259 | the recursive writer with its key loop puts out the specified outline |
| Skeleton.ShortIsWhole | engine/src/strategy.rs:215-259 | while heading and full outline fit 700 bytes the body is exactly these |
| OutlineRules.TextTells | engine/src/strategy.rs:221-228 | a text of up to 24 characters is told whole, a longer one by its first 24 and its length |
| OutlineRules.ArrayTells | engine/src/strategy.rs:229-239 | an array tells how many items it has, one at the top also what the first one is |
| OutlineRules.ObjectTells | engine/src/strategy.rs:240-259 | an object on the first two levels tells every field name with what its value tells, in order; a deeper one how many there are |
| OutlineRules.HeadingTells | engine/src/strategy.rs:276-281 | the heading tells the kind of the value and its size |
| Skeleton.KeysAreCounted | engine/src/strategy.rs:243-255 | an object shows its first keys, as many as begin within 700 bytes, and its count is that of all the others |
| Skeleton.OutlineIsShort | engine/src/strategy.rs:283-293 | no body exceeds 907 bytes |
| Skeleton.EllipsisIsExact | engine/src/strategy.rs:283-293 | the ellipsis stands for something left out, except behind a whole text whose last character begins within the limit and ends beyond it |
| Pipeline.Render | engine/src/strategy.rs:415-474 | body and decision log (shape, strategy, deciding rule, features, normalisers, ranges) are as specified for the measured statistics; it panics exactly where the deviation does; which shape and which strategy that is, is told by ShapeRules.ShapeOfText and ShapeRules.AnswerIs |
| ShapeRules.AnswerIs | engine/src/strategy.rs:415-474 | which strategy answers: the collapsed text below the floor; else the index for nested, the outline for structured, the window for monolithic and head and tail for other shapes, where it applies; else head and tail of more than 28 lines; else the collapsed text; else nothing |
| ShapeRules.WhenTheyApply | engine/src/strategy.rs:95-323 | head and tail applies exactly to more than 28 lines and the window exactly to more than 600 characters |
| Pipeline.RleOnly | engine/src/strategy.rs:397-413 | the lossless pass alone, as specified |
| Pipeline.LosslessDeclines | engine/src/strategy.rs:403-405 | it declines exactly the texts without three adjacent equal lines that are not blank |
| Pipeline.LosslessIsLossless | engine/src/strategy.rs:406-412 | its body is line for line the collapsed lines, their counts and annotation flags rebuild every key, and it is shorter |
| Pipeline.OutlinesAreShort | engine/src/strategy.rs:447-466 | an answer by outline is that of the value the collapsed text parses as, in at most 907 bytes |
| Pipeline.VerbatimOnlyWhenShort | engine/src/strategy.rs:449-473 | nothing is answered only for at most 28 lines with nothing to collapse; for the shapes of head and tail exactly then |
| Pipeline.RenderingShortens | engine/src/strategy.rs:415-474 | collapsed and structural bodies have fewer lines than the text, head and tail exactly 29 of at least 29 |
| SseFraming.ChunkingIsIrrelevant | proxy/src/forward.rs:631-644 | feeding chunks one by one is feeding their concatenation |
| SseFraming.BytesAreLines | proxy/src/forward.rs:631-644 | the state is the fold of the line reader over the newline-terminated lines, the unfinished line waiting |
| SseFraming.TailHasNoNewline | proxy/src/forward.rs:632-636 | the tail never holds a newline |
| SseAccumulator.Accumulator.Feed | proxy/src/forward.rs:631-644 | one chunk takes the state, tail included, to that of reading its bytes one at a time |
| SseAccumulator.Accumulator.FeedLine | proxy/src/forward.rs:663-688 | one line changes usage, text and tool buffer as specified, and nothing else |
| SseAccumulator.Accumulator.MergeUsage | proxy/src/forward.rs:647-660 | the latest positive count of each kind wins |
| SseAccumulator.Accumulator.FeedToolUse | proxy/src/forward.rs:691-772 | tool calls of the three dialects enter the buffer as specified |
| SseAccumulator.Accumulator.FeedText | proxy/src/forward.rs:774-813 | completion text of the three dialects is appended as specified |
| SseAccumulator.Accumulator.CollectCalls | proxy/src/forward.rs:620-628 | the buffered calls come out in ascending index order, their arguments parsed |
| SseAccumulator.TallyStream | proxy/src/forward.rs:631-644 | any stream in any cut is tallied like the uncut stream; that its counts are those written is told by WrittenResponses.WrittenCountsComeBack |
| SseEvents.StreamIsTallied | proxy/src/forward.rs:631-688 | the bytes of any printed events, in any cut, are tallied as the usage, text and calls of these events |
| WrittenResponses.WrittenCountsComeBack | proxy/src/extract.rs:329-371 | four counts written into a usage object the way the provider writes them (cached tokens within the prompt for OpenAI and Google, thoughts beside candidates for Google) are exactly those the batch extraction reads from a response and the tally from a stream in any cut |
| WrittenResponses.AnthropicStreamIsCounted | proxy/src/forward.rs:646-686 | an Anthropic stream with counts at its start and an output count at its end is tallied as the counts of the start with that output |
| WrittenCalls.AnthropicCallsComeBack | proxy/src/extract.rs:138-203 | calls written into an Anthropic message among texts are read by the batch extraction, in order |
| WrittenCalls.GooglePartsComeBack | proxy/src/extract.rs:138-203 | likewise for Google parts, whose text the tally reads as well |
| WrittenCalls.OpenaiCallsComeBack | proxy/src/extract.rs:138-203 | likewise for OpenAI calls, whose arguments are JSON in a string |
| WrittenCalls.TextComesBack | proxy/src/forward.rs:774-813 | the text written into a delta of either dialect is the text tallied |
| Usage.ToolCallsFromResponse | proxy/src/extract.rs:138-203 | the batch loops of the three dialects report the named calls in order with their inputs |
| SseSynth.Synthesize | proxy/src/ccr_forward.rs:408-601 | the output is the printed events of the message, or the bytes as they are when they do not parse; what a client makes of them is told by ClientReader.ClientHasTheMessage |
| SseSynth.EventIsRead | proxy/src/ccr_forward.rs:408-601 | a printed event is read back as that event by the line reader |
| SseRoundTrip.SynthesizedStreamIsReadBack | proxy/src/ccr_forward.rs:408-601 | the tally of a synthesised stream, in any cut, is that of the message, with nothing left over |
| ClientReader.ClientHasTheMessage | proxy/src/ccr_forward.rs:408-601 | a client that opens, extends and closes blocks as events tell it, in whatever pieces they arrive, ends with the content blocks in order (texts, thinking and signatures, tool ids, names and inputs, anything else verbatim), the stop reason, the usage and all other fields; a block is unchanged if and only if it has nothing but what is streamed of its kind |
| ClientReader.EventsAreNamed | proxy/src/ccr_forward.rs:408-601 | the name in front of each event is the type of its data |
| SseRoundTrip.TallyAgreesWithBatch | proxy/src/extract.rs:138-157 | it agrees with the batch extraction on usage exactly when no count is negative, and on calls exactly when every tool block has a string name and an input |
| SseDialects.FragmentsAreGathered | proxy/src/forward.rs:719-742 | each buffered OpenAI call has the last name and all argument pieces of its fragments, in whatever order the calls are interleaved |
| SseDialects.OpenaiCallsAgree | proxy/src/forward.rs:719-742 | fragments that add up to the calls of a response are tallied as the batch extraction reads that response, however they are spread over events and choices |
| SseUsage.StreamedUsageIsExact | proxy/src/forward.rs:646-686 | the usage tallied over any events is that of the last usage object if and only if every kind is positive there or never was |
| SseUsage.CachedLaterCountsTwice | proxy/src/forward.rs:646-660 | two Google events whose tally counts 100 uncached tokens that the response does not have |
| CallOrder.GatheredInOrder | proxy/src/forward.rs:620-628 | whatever the fragments, there is one call for every index that occurs, gathered from all fragments of that index, by ascending index |
| CallOrder.OrderDecides | proxy/src/forward.rs:719-742 | calls of one fragment each come out as listed if and only if no two share an index and each stands where its index belongs; they come out fewer if and only if two share one |
| SseDialects.GoogleCallsAgree | proxy/src/forward.rs:693-715 | the parts of a Google response, however spread over events, are tallied as the batch extraction reads the whole |
| SseSynthOpenai.OpenaiStreamIsReadBack | proxy/src/ccr_forward.rs:605-646 | the tally of a synthesised OpenAI stream, in any cut, has the message's text and its calls as fragments, and no usage |
| OpenaiReader.ClientHasTheChoice | proxy/src/ccr_forward.rs:605-646 | a client that adds up the chunks, in whatever pieces they arrive, ends with id, model, role, text, the calls as listed and the finish reason of the first choice |
| SseSynthOpenai.ReadBackIsExact | proxy/src/ccr_forward.rs:630-631 | for every response whose calls have names: the calls read back are the recorded ones if and only if no two share an index and each stands where its index belongs in ascending order; fewer are read if and only if two share one |
| SseSynthOpenai.ReadBackGathers | proxy/src/ccr_forward.rs:630-631 | for every response, names or not: they agree if and only if the pieces gathered by index are the recorded calls; a call without a name and an index of its own is read though it was not recorded |
| SseSynthOpenai.RisingCallsAgree | proxy/src/ccr_forward.rs:630-631 | named calls with rising indices are read back as the batch extraction reads them |
| SseSynthOpenai.NumberedCallsAgree | proxy/src/ccr_forward.rs:630-631 | in particular calls numbered by position, as a stream numbers them |
| SseSynthOpenai.UnnumberedCallsMerge | proxy/src/ccr_forward.rs:630-631 | calls without a number are read back right exactly when there is at most one, and otherwise as a single call |
| SseSynthOpenai.TwoCallsMerge | proxy/src/ccr_forward.rs:630-631 | a response with two calls whose stream is read back with one |
| SseSynthOpenai.TwoCallsStreamedAsOne | proxy/src/ccr_forward.rs:605-646 | the same from the bytes of that response, however the client cuts the stream |
| Dialects.AnthropicIsLawful | proxy/src/pipeline/ccr/anthropic.rs:367-401 | sanitising does something exactly where there are retrieve calls, removes every one and keeps the usage |
| Dialects.OpenaiIsLawful | proxy/src/pipeline/ccr/openai.rs:157-202 | the same for the first choice of an OpenAI response, the only one the source looks at |
| CleanBody.AnthropicDelivers | proxy/src/pipeline/ccr/anthropic.rs:367-401 | of a last reply that is no error, field by field: beside other tool calls the content is the old one without the retrieve blocks, in order; otherwise each becomes an apology and a turn that stopped for a tool ends; nothing else changes, and without a retrieve block not a byte |
| CleanBody.OpenaiDelivers | proxy/src/pipeline/ccr/openai.rs:157-202 | likewise for the first choice of an OpenAI reply, all outside of it unchanged |
| RetrieveLoop.RunAnthropic | proxy/src/ccr_forward.rs:74-190 | the outcome is that of the complete exchange (at most six posts, each following from the reply before it): last status, last body sanitised, the response in the form the client asked for, usage and calls as counted over all replies, recorded tool calls and error body; nothing exactly on a failed first post; what its posts and its last body say is told by FollowUp and CleanBody |
| RetrieveLoop.RunOpenai | proxy/src/ccr_forward.rs:193-303 | the same for the OpenAI loop, whose requests drop the stream options; likewise for its posts and its last body |
| RetrieveLoop.CompleteIsUnique | proxy/src/ccr_forward.rs:96-166 | an upstream has only one complete exchange, so the outcome is determined |
| RetrieveLoop.SanitisedIsClean | proxy/src/ccr_forward.rs:168-179 | a sanitised body carries no retrieve call and the usage it had, and sanitising it again changes nothing |
| RetrieveLoop.NothingLeftToRetrieve | proxy/src/ccr_forward.rs:168-179 | a successful body of an outcome carries no retrieve call |
| StreamedAnswer.AnthropicAnswerIsReadBack | proxy/src/ccr_forward.rs:378-385 | a client that reads the streamed answer in any pieces has the recorded tool calls exactly when every tool block is complete, and the usage exactly when no count is negative |
| StreamedAnswer.OpenaiAnswerIsReadBack | proxy/src/ccr_forward.rs:378-385 | likewise for OpenAI, for every message: the calls are the recorded ones exactly under the condition above, and the usage read is zero |
| StreamedAnswer.AnthropicAnswerIsReceived | proxy/src/ccr_forward.rs:378-385 | a client that rebuilds the message from the answer of a whole exchange has the last body's blocks, stop reason, usage and other fields |
| StreamedAnswer.OpenaiAnswerIsReceived | proxy/src/ccr_forward.rs:378-385 | likewise the first choice of the last OpenAI body |
| StreamedAnswer.OutcomeGoesOut | proxy/src/ccr_forward.rs:346-393 | only a client that asked for a stream and got no error is sent one, and only errors leave an error text |
| StreamedAnswer.StrippedIsReadBack | proxy/src/pipeline/ccr/openai.rs:157-202 | a message with named calls of rising numbers is still read back right after its retrieve calls were taken out |
| StreamedAnswer.NoRetrieveCallIsRecorded | proxy/src/ccr_forward.rs:355-361 | no recorded call of a successful Anthropic answer is a retrieve call |
| RetrieveLoop.Finalize | proxy/src/ccr_forward.rs:346-393 | usage of the final response is added to that of the rounds before; tool calls and a truncated error body are recorded; the body goes out as it is or, to a streaming client that got no error, as a stream |
| RetrieveLoop.ReportedIsExact | proxy/src/ccr_forward.rs:96-123 | reported usage is the sum over the replies if and only if no post failed after a reply that reported some |
| RetrieveLoop.LateFailureCountsTwice | proxy/src/ccr_forward.rs:97-113 | a run of the loop on an upstream that answers once with 10 and 5 tokens and then fails: it reports 20 and 10 |
| RetrieveLoop.RequestsExtend | proxy/src/ccr_forward.rs:152-164 | every request keeps the earlier messages as a prefix and all other fields |
| FollowUp.AnthropicRound | proxy/src/pipeline/ccr/anthropic.rs:404-421 | between two posts, read field by field: the next one has exactly two more messages, the assistant turn with the reply's content verbatim, and a user turn with one tool result for every retrieve block in order, whose tool_use_id is that block's id and whose content is what the resolver gives for its input.id and input.query |
| FollowUp.AnthropicGoesOn | proxy/src/ccr_forward.rs:115-166 | another round follows if and only if the reply is no error, parses, has a retrieve block and no other tool block, and the request has messages |
| FollowUp.OpenaiRound | proxy/src/pipeline/ccr/openai.rs:205-225 | likewise for OpenAI: the reply's message verbatim and one tool message for every call in order, with its id as tool_call_id |
| FollowUp.OpenaiGoesOn | proxy/src/ccr_forward.rs:240-278 | likewise when another round follows |
| FollowUp.ExchangeEnds | proxy/src/ccr_forward.rs:96-166 | an exchange ends with a post without a reply, a reply that leads to no further round, or the sixth reply, and not before |
| FollowUp.FirstAnthropicPost | proxy/src/ccr_forward.rs:83-86 | the first post asks for one body and is the client's request otherwise |
| FollowUp.FirstOpenaiPost | proxy/src/ccr_forward.rs:193-200 | likewise, without the stream options |
| RetrieveLoop.ExchangeIsDetermined | proxy/src/ccr_forward.rs:96-166 | two exchanges with one upstream agree as far as both go |
| Gate.EveryReachableStateIsSafe | engine/src/process.rs:32-51 | in every interleaving active equals the live guards and is at most four, the decrement never saturates, and no wake-up is lost |
| Gate.StepKeepsInv | engine/src/process.rs:32-51 | each step keeps the invariant |
| Gate.StuckOnlyWhenDrained | engine/src/process.rs:35-37 | some step of the protocol is enabled unless every thread has come and gone |
| Gate.QuietRunsDrain | engine/src/process.rs:43-51 | without arrivals and spurious wake-ups every run ends, with every guard returned |
| NegationPeel.SplitLeadingNegations | src/lib.rs:2601-2619 | the loop finds the negations and the core of the only reading of the tokens, and nothing is left to peel |
| NegationPeel.StripOuterGroup | src/lib.rs:2625-2643 | succeeds exactly when the inside is not empty and balanced on every prefix |
| NegationPeel.ParseIsUnique | src/lib.rs:2601-2643 | a well-formed expression is the only one its tokens read as |
| NegationPeel.ParityDecides | src/lib.rs:3039-3046 | parity of the negations gets success and failure right for every nesting |
| NegationPeel.ReportedIsExact | src/lib.rs:3039-3046 | the status itself is bash's exactly when the negations are odd, the status is 0 or 1, or every run of bangs is even |
| NegationPeel.RegroupedNegations | src/lib.rs:3039-3046 | a command ending in 3 behind a bang, a group and another bang is reported as 3 where bash says 1 |
| NegationPeel.DoubleBangIsExact | src/lib.rs:3039-3046 | two bangs in a row agree with bash whatever the status |
| NegationPeel.NativeMeans | src/lib.rs:2578-2586 | a native expression is one where what the openers in front apply to starts with a dash |
| NegationPeel.RunTest | src/lib.rs:3026-3047 | the whole arm: a usage error for a shell script that is not one token, the native branch, a failing runner, a script untouched, and otherwise a status that is zero exactly when the nested expression succeeds |
| Marker.RoundTrip | engine/src/marker.rs:15-54 | scanning a printed stamp gives back exactly that stamp if and only if the grammar can carry it |
| Marker.StampsAreFoundInOrder | engine/src/marker.rs:43-78 | stamps with other text around them are found in order, their methods are listed in order, and the text counts as stamped |
| Marker.HookStampMeans | engine/src/marker.rs:67-78 | a text counts as stamped if and only if it holds a stamp or one of three phrases |
| Marker.PrintedLike | engine/src/marker.rs:15-29 | two stamps as they are printed, letter by letter |
| Fractures.WindowedRefinesFull | src/llm_proxy.rs:259-279 | for every table: the windowed count is the full-scan fractures with both rows in the window and the spurious ones; none is spurious exactly when no outside row falls between an inside pair, as with clocks that agree with ids; up to the limit the counts are equal |
| Fractures.CommandLineRefinesStore | src/llm_proxy.rs:253-279 | over 2000 rows the two counts are equal exactly when as many fractures are spurious as are lost, and always while no more rows qualify; with agreeing clocks the command line never counts more |
| Fractures.LagIsNearest | proxy/src/store.rs:643-668 | the predecessor by time stamp and id is the nearest earlier row of the session when clocks agree with ids |
| FractureMeaning.FullCountMeans | proxy/src/store.rs:643-668 | the store counts the successful requests whose predecessor in their session read more than 4096 tokens from the cache while they read none and wrote more than 4096, less than an hour later |
| FractureMeaning.WindowedCountMeans | src/llm_proxy.rs:259-279 | the command line counts those among the most recent successful requests, with their predecessors among these |
| Fractures.SkewedClockOvercounts | src/llm_proxy.rs:259-279 | with disagreeing clocks the windowed count can exceed the full count, for every limit of at least 2 |
| ContextLedger.DuplicatesAreRepeats | proxy/src/context_analysis.rs:82-100 | without collisions duplicate tokens are all noted tokens less those of the distinct texts |
| ContextLedger.OrderDoesNotMatter | proxy/src/context_analysis.rs:82-100 | the composition depends on what is noted, not on the order |
| ContextLedger.PartsWithinTotal | proxy/src/context_analysis.rs:125-211 | results, inputs and images together, and duplicates and images, never exceed the total, even with collisions |
| ContextLedger.Analyzer.NoteBlock | proxy/src/context_analysis.rs:82-100 | noting a block keeps counters and table those of the log |
| ContextLedger.Analyze | proxy/src/context_analysis.rs:125-211 | the walk over a body gives the composition of everything in it |
| LedgerReading.CountersAddUp | proxy/src/context_analysis.rs:107-211 | on a request written from texts, results, tool inputs, pictures and tools, total, result, input and image counters are what the contents add up to, kind by kind |
| TextCut.TruncateText | proxy/src/forward.rs:135-144 | within the budget nothing changes; over it the longest prefix of whole characters that fits is kept, and an ellipsis |
| TextCut.PrefixIsClose | proxy/src/forward.rs:139-142 | that prefix is at most three bytes short of the budget |
| TextCut.TruncateError | proxy/src/forward.rs:571-593 | the bytes are decoded, trimmed and cut likewise; nothing is stored when nothing is left |
| TextCut.StoredError | proxy/src/ccr_forward.rs:397-403 | the retrieve loop stores the decoded bytes untrimmed, cut likewise |
| TextCut.ByteFallback | proxy/src/tokenizer.rs:46-62 | head and tail are the longest whole-character pieces within half the budget each and do not overlap |
| TokenCut.ElideToTokens | proxy/src/tokenizer.rs:27-43 | elision by tokens, or by four bytes a token when no tokenizer could be loaded, with what it saves |
| TokenCut.PiecesAreParts | proxy/src/tokenizer.rs:37-41 | each piece kept is a front or back part of the text if its cut falls between characters and empty otherwise; with both, exactly the counted tokens lie between |
| TokenCut.ElidedIs | proxy/src/tokenizer.rs:35-43 | a text over the budget is its first and last tokens, half the budget each, around a note on the number of tokens between, with each piece as above |
| TokenCut.CutInsideCharacters | proxy/src/tokenizer.rs:37-41 | a sound tokenizer and a text of ten letters that lose both pieces |
| SqueezeBlank.Apply | src/example_plugins.rs:18-35 | the loop computes the specified squeeze |
| SqueezeBlank.SqueezeResult | src/example_plugins.rs:18-35 | no adjacent blank lines, no trailing white space, no blank line at the end, and the non-blank lines kept in order |
| SqueezeBlank.SqueezeIsIdempotent | src/example_plugins.rs:18-35 | a second application changes nothing |

## Left out

- RunLength.CollapseIsLossless: rebuilds the keys (trimmed, normalised content), not the raw lines; lines that differ only in white space around them or in their numbers collapse together in the source as well, and the raw form of all but the first is gone.
- Skeleton.ApplySkeleton: numbers print as the JSON library prints them, floating-point ones as the text they are held as.
- SseSynthOpenai.ReadBackGathers: where a call without a name shares an index with another one, the condition is left as one on the pieces gathered by index.
- SseUsage.StreamedUsageIsExact: takes the usage object of the complete response to be the last one of the stream, as providers send it.
- KeptMask.ComputeMask: takes the cap as a parameter of at least 1; the environment variable that sets it (at least 8, default 48) is not part of this model.
- Features.Extract: counts brackets and shares without bound, where the source would overflow beyond 2^54 of them.
- SseAccumulator.Accumulator.Feed: works on the sequence of bytes; how the buffer is stored and drained is not modelled.
- ClientReader.ClientHasTheMessage: the client is a model of one, following the events of the Anthropic streaming format; fields of a text, thinking or tool block that the source does not stream are lost, and the contract says exactly when.
- LedgerReading.CountersAddUp: requests written in the common forms; a body that is ill-formed in places is covered by ContextLedger.Analyze.
- SseSynth.Synthesize: the redacted-thinking arm prints the whole block like the default arm and is merged with it.
- ContextLedger.Analyze: token estimates count bytes as the code does, although its documentation and tests speak of characters; the message offsets it skips are not modelled.
- Gate.EveryReachableStateIsSafe: assumes no poisoned lock; a poisoned lock makes acquiring fail.
- SseRoundTrip.TallyAgreesWithBatch: messages of at most 2^63 - 1 blocks.
- RetrieveLoop.Finalize: usage sums are unbounded integers where the source's 64-bit additions could overflow; latencies are not modelled.
- RetrieveLoop.RunAnthropic: one loop over a dialect serves both providers; the two loops of the source differ only in the dialect functions and in what is prepared.
- NegationPeel.ReportedIsExact: bash is the reference; a shell that rejects two bangs in a row gives such a command no status.
- Marker.RoundTrip: which non-ASCII characters count as decimal digits is a parameter.
- JSON text syntax, floating-point numbers, and the key order that removing an entry may disturb.
- The session count beside the fractures, and SQLite itself: rows are sequences and a time stamp is its rank and an optional day number.
- The byte-pair merges of the tokenizer, the regex engine, and the replacement of ill-formed UTF-8.
- Request compression and injection of the retrieve tool, content lookup for a retrieve call, HTTP, retries, process spawning, pricing, settings, dashboards and plug-in loading: input and output around the logic, or one-branch case analyses.
