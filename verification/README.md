# The review pipeline, from diff to findings

A Dafny model of the part of lgtmaybe that turns a pull request's diff into
review calls and the calls' answers into findings. It proves what the pipeline
promises about that route, for every well-formed diff and against any provider,
auditor, triage model, clock and order of completion.

- **The diff algebra** (`DiffParse`, `Patches`, `Cuts`, `Lookup`, `Compress`,
  `SplitBatch`, `Batching`, `Expand`, `Render`, `ExpandHunks`, `Windows`). A diff is a
  sequence of tagged lines, and its meaning is the list of changed lines the
  numbering walk sees: path, side, number and text. Padding, cutting, slicing
  and batching are rewrites that keep this meaning. The format is "Diff -u or -U
  Output Format" of the `diff` utility in IEEE Std 1003.1, as git writes it.
- **String-aware JSON recovery** (`Scan`, `Json`, `Commas`, `Truncation`,
  `ParseFindings`, `Readings`). The quote scanner, bracket matcher, truncation test and
  comma repair against a printed form of the grammar of RFC 8259 (sections 2, 4, 5 and
  7), what can be read out of a printed payload cut anywhere, the choice among
  the values a reply may hold, and the findings each is read as.
- **Retrieval and reflection** (`Retrieve`, `Reflect`). Wave-wise fetching against
  the plain walk, inside the hop-bounded audit.
- **The recovery ladder and the fan-out** (`Ladder`, `Rungs`, `Engine`, `WorstRun`,
  `Schedule`, `FanOut`, `Courses`). A review in progress is an object whose methods are the
  rungs. What the world answers to each question of a call (a ceiling, a capability,
  a completion) is an arbitrary sequence; each method is proved to compute the
  function of it that `Rungs` gives, and to report the completions it caused as a
  ghost `Log`. What it found, whether it covered its payload, what its error rests
  on and what the summary must disclose are all read off that log. `Courses` says how
  a call goes reply by reply, and which calls get a second chance.
- **The ends** (`Triage`, `Anchor`, `Notices`, `Pipeline`, `SmallReview`). Triage as a
  conservation step, re-anchoring and merging of findings, the summary's notices,
  the control skeleton of a whole review, and reviews that show its limits.

The central result is `Pipeline.RunReview`: if a review posts and its notices
admit no gap (no file cap, size limit, triage skip or failed call), then for every
lens every changed line of every reviewable file was in the payload of a call that
answered. A thumbs-up moreover rests only on answers that were asked of the
configured model, at the configured effort, under the configured schema, and none
of which names another model. Every finding a call's replies held is delivered,
collected and accounted for, and posted at its snapped place when nothing filters it.
Conversely a review that leaves no file out and is
answered cleanly is a thumbs-up.

Where the code falls short of what it says or suggests:

- What was asked for need not be what was sent. The adapter takes the schema or the
  effort out of a request by itself, and no notice says so unless a call failed; and
  a fallback's answer goes unnoted when the models are not named
  (`SmallReview.ThumbsUpWithoutSchema`, `ThumbsUpWithoutEffort`,
  `ThumbsUpFromFallback`). With named models every answer behind a thumbs-up was sent
  under the schema if and only if the adapter had not given it up for the configured
  model before the review and did in none of its completions, and likewise the effort
  (`Pipeline.SentIff`).
- A reply cut off after a complete empty list, such as
  `{"needs": [], "findings": [`, parses as a clean answer without findings,
  although `parse_findings` says a closed container means nothing was cut off
  (`ParseFindings.CutReadsAsClean`). A cut payload is reported exactly when neither
  its text nor any container in it that closed before the cut reads as a whole
  payload (`ParseFindings.CutIsReportedIff`).
- The memory of texts already tried loses a reading in a reply such as `[,,] [,]`,
  whose second list was seen as the repair of the first
  (`ParseFindings.MemoryLosesARepair`). The first candidate of its text is passed over
  exactly when an earlier one that was tried and does not decode repairs to it
  (`ParseFindings.PassedOverIff`), and the values tried are exactly what the others
  yield (`ParseFindings.TriedExactly`).
- Head text that ends before the first hunk of a group misplaces that group's
  leading context (`Render.ShortHeadExample`), and only then
  (`Render.ContextIsRightIff` for one group, `ExpandHunks.ExpansionContextIff` for all).
  The changed lines keep their numbers in any case.
- Triage drops a file off the floor that shares its path with one on it, without
  reviewing or reporting it, and no other (`Triage.ShadowedIff`; an instance is
  `Triage.ShadowedExample`).
- `changed_line_count` also counts hunks whose file the walk does not know
  (`Lookup.CountOverrunsTheWalk`); it is exact if and only if there is no such line
  (`Lookup.CountIsExactIff`).
- `engine/retrieve.py:31-33` says at most `MAX_FETCH_FILES` files are fetched in
  total. The cap is applied anew at every hop, so the audit as a whole may fetch
  `MAX_HOPS` times as many, which is the bound `Reflect.ReflectFindings` proves.
- Rendered hunk headers do not apply the POSIX convention for an empty side
  again, so results are stated through the walk and not as equality of headers.

## Model

| member | source | states |
|---|---|---|
| DiffParse.WalkDiff | src/lgtmaybe/core/diffparse.py:56-116 | The line-by-line loop over four variables yields exactly the walk of the numbering state machine on which every other result rests |
| DiffParse.WalkConcat | src/lgtmaybe/core/diffparse.py:56-116 | Walking two diffs one after the other is walking the second from the state the first leaves |
| DiffParse.LineIsNumbered | src/lgtmaybe/core/diffparse.py:101-116 | A line of a hunk is read under the file's path, with its mark and text, numbered from as many lines as stand before it on each side: deletions and context on the old, additions and context on the new, a no-newline remark on neither |
| DiffParse.HunkOpens | src/lgtmaybe/core/diffparse.py:78-101 | Before a hunk the last file name given is the file's, and the hunk header starts the numbers on both sides |
| DiffParse.ChangedLineIndex | src/lgtmaybe/core/diffparse.py:119-139 | The index has a key exactly for each path and side with a changed line, holding that side's changed lines with their numbers and texts in order |
| DiffParse.OnKeyMember | src/lgtmaybe/core/diffparse.py:119-139 | An entry is in the index exactly when the walk sees that changed line |
| Patches.ParseHunks | src/lgtmaybe/engine/compress.py:408-420 | One pass splits a patch into its header lines and its hunks |
| Patches.ParseRender | src/lgtmaybe/engine/compress.py:408-420 | The parsed parts put together again are the patch, line for line |
| Patches.ParseUnique | src/lgtmaybe/engine/compress.py:408-420 | Any header lines and hunks put together parse back to those same parts |
| Patches.RunBody | src/lgtmaybe/core/diffparse.py:103-116 | Inside a hunk the two counters advance by exactly what each side holds |
| Patches.EmptySideNumber | src/lgtmaybe/engine/compress.py:394-400 | A side that holds no line may be numbered from anywhere without changing any changed line |
| Patches.CleanChanges | src/lgtmaybe/core/diffparse.py:56-116 | A file's patch means the changes of its hunks, whatever state the walk comes in |
| Patches.JoinedChanges | src/lgtmaybe/engine/engine.py:1134 | The payload that joins a batch's patches means exactly what the patches mean, despite the joining empty lines |
| Cuts.PartsUnique | src/lgtmaybe/core/diffparse.py:207-216 | Text assembled from parts that each start at their only header line is cut back into those parts |
| Lookup.ChangedLineCount | src/lgtmaybe/core/diffparse.py:142-162 | The count is the number of changed lines the walk sees, and one more for each `+` or `-` line under a hunk header where the walk has no open hunk |
| Lookup.CountIsExactIff | src/lgtmaybe/core/diffparse.py:142-162 | The count equals the number of changed lines walked if and only if every `+` or `-` line under a hunk header, with no file header between, stands where the walk has an open hunk; it is never less |
| Lookup.CountOverrunsTheWalk | src/lgtmaybe/core/diffparse.py:142-162 | A file whose name no header expression reads: the walk sees no change and the count sees one |
| Lookup.CountIsExactOnPatches | src/lgtmaybe/core/diffparse.py:142-162 | In the patch of one file, as git writes it, the count is exact |
| Lookup.SplitByFile | src/lgtmaybe/core/diffparse.py:200-230 | Without file headers the whole diff is one patch; otherwise there is one patch a header, filed by new name, rename target, old name, header path or position |
| Lookup.NamePatches | src/lgtmaybe/core/diffparse.py:217-229 | Each patch is filed, in order, under the first of the names it can have |
| Lookup.PathIs | src/lgtmaybe/core/diffparse.py:217-229 | The first `+++ b/` name, without one the first rename target, without one the first `--- a/` name, without any the path of the `diff --git` line, and without that the listed file at its place or `unknown` |
| Lookup.SplitRecoversPatches | src/lgtmaybe/core/diffparse.py:207-216 | Splitting the concatenation of patches gives back those patches |
| Lookup.DiffMeansItsPatches | src/lgtmaybe/core/diffparse.py:56-116 | A diff means what its patches mean, in order |
| Lookup.HunkForLine | src/lgtmaybe/core/diffparse.py:165-197 | The search returns the first covering hunk, under its header lines, of the first patch filed under the path, or nothing |
| Lookup.LookupInPatch | src/lgtmaybe/core/diffparse.py:165-197 | In a well-formed patch the range lookup of a changed line finds a hunk, and walking that hunk alone yields the same changed line at the same number |
| Lookup.LookupAgreesWithWalk | src/lgtmaybe/core/diffparse.py:165-197 | The same over a multi-file diff with distinct paths, for every changed line |
| Lookup.BuildCommentableLines | src/lgtmaybe/core/diff.py:37-59 | The set built line by line is the set of places of the walked lines |
| Lookup.PlacesAreShown | src/lgtmaybe/core/diff.py:44-53 | A place is in the set exactly when the walk shows a deleted or context line there on the left, or an added or context line on the right |
| Lookup.ChangedLinesAreCommentable | src/lgtmaybe/core/diff.py:44-53 | Every changed line can carry a comment |
| Compress.SplitPatchIntoHunks | src/lgtmaybe/engine/compress.py:107-132 | One unit a hunk, each with all the lines before the first `@@`; a patch without one is its own unit |
| Compress.HunkSplitIsLossless | src/lgtmaybe/engine/compress.py:107-132 | The units are clean patches that together change exactly what the patch changes, one hunk in each |
| Compress.Positions | src/lgtmaybe/engine/compress.py:164-172 | The running positions are the header's starts plus what each side holds so far |
| Compress.ShrinkDecreases | src/lgtmaybe/engine/compress.py:193-197 | The proportional shrink by integer division takes at least one line off, so the loop ends |
| Compress.ShareIs | src/lgtmaybe/engine/compress.py:193-197 | A slice that overran the budget is cut back to the most lines whose share of its cost fits, and one line at least |
| Compress.SliceEnd | src/lgtmaybe/engine/compress.py:183-197 | A slice holds one line or renders within the budget; it starts from the most lines whose separate costs fit, is taken whole if that renders within the budget, and otherwise is the proportional share of a larger slice that overran |
| Compress.SliceHunk | src/lgtmaybe/engine/compress.py:180-199 | The loop of slices reaches the end of the body, each slice starting where the one before ended |
| Compress.SplitHunkByBudget | src/lgtmaybe/engine/compress.py:135-203 | Either the unit comes back untouched or there are two or more slices that cut the body in order, each within the budget or one line long, under headers with fresh starts and lengths; which slices is a function of the unit and the budget |
| Compress.SlicingIsLossless | src/lgtmaybe/engine/compress.py:135-203 | The slices are clean patches that together change exactly what the hunk changes, at the same numbers |
| SplitBatch.SplitBatch | src/lgtmaybe/engine/engine.py:662-696 | Two halves of the file list, or of a lone file's hunks in order, or slices of a lone hunk when asked for; what comes back covers the batch exactly or is nothing, and is never a single piece; a lone hunk of two lines or more that costs more than a token is cut |
| SplitBatch.SliceAlone | src/lgtmaybe/engine/engine.py:687-691 | A lone hunk cut inside at half its size covers it exactly, in two or more pieces; it is left alone only if it has one line, no body behind a header that counts it, or costs a token at most |
| Batching.BatchUnits | src/lgtmaybe/engine/compress.py:244-271 | Batches flatten to the units in order, a batch of two or more fits the budget, a unit that fills it is alone, no batch had room for the first unit of the next, and any two neighbours fill one budget between them |
| Batching.BatchCountBound | src/lgtmaybe/engine/compress.py:244-271 | For a total of T tokens there are at most twice T div max_tokens plus one batches |
| Batching.CutUnit | src/lgtmaybe/engine/compress.py:237-241 | Cutting an oversized hunk inside is lossless, and no piece overruns the budget that could still have been cut smaller |
| Batching.CutFile | src/lgtmaybe/engine/compress.py:230-241 | Cutting one file at its hunks and inside them keeps exactly its changed lines under its path |
| Batching.CutFiles | src/lgtmaybe/engine/compress.py:228-242 | Cutting every over-budget file keeps exactly the changed lines of all the files and leaves the others whole |
| Batching.BatchFiles | src/lgtmaybe/engine/compress.py:206-271 | Batching keeps, per path and side, exactly the changed lines with numbers, text and order, with or without the recursive walk, within the same bounds |
| Expand.BisectRight | src/lgtmaybe/engine/compress.py:298 | The insertion point after every span that starts at or before the line |
| Expand.EnclosingBoundary | src/lgtmaybe/engine/compress.py:285-307 | The start of the last, hence innermost, span that contains the line within reach, or nothing |
| Expand.LeadStartBounds | src/lgtmaybe/engine/compress.py:423-437 | The leading pad starts at line 1 or later, never takes more lines than the old side has, only grows by a definition boundary, and stays within its reach |
| Expand.GroupHunks | src/lgtmaybe/engine/compress.py:448-481 | Groups keep the hunks in order, each with the pad that `Windows.PadsAreShown` and `Windows.NothingElseIsShown` read off the output; neighbours are joined exactly when their pads meet and the gap can be filled, and otherwise are kept apart without overlap |
| Render.MergedReads | src/lgtmaybe/engine/compress.py:489-502 | Hunks merged over gaps filled from the head text read as the hunks do, from the first one's first lines to the last one's last |
| Render.RenderedReads | src/lgtmaybe/engine/compress.py:484-516 | A rendered group changes what its hunks change at the same numbers, its ranges are theirs plus the pads, and with head text reaching it every added context line is the head line at its number |
| Render.LeadingIsRightIff | src/lgtmaybe/engine/compress.py:486-493 | A leading pad line is walked as context with the text of some line of the head text, and at that line's number if and only if the head text reaches the line before the first hunk |
| Render.ContextIsRightIff | src/lgtmaybe/engine/compress.py:484-516 | Every context line of a rendered group is one of the original or the head line at its number, if and only if nothing is padded in front or the head text reaches the line before the first hunk |
| Render.ShortHeadExample | src/lgtmaybe/engine/compress.py:486-493 | A change at line 5 under a head text of one line: that line is put in front and read as line 4 |
| Render.CountSides | src/lgtmaybe/engine/compress.py:504-512 | The counting pass over the emitted lines gives what each side holds |
| Render.MergeBodies | src/lgtmaybe/engine/compress.py:495-502 | The loop emits the hunks with the gaps between them filled from the head text |
| Render.RenderGroup | src/lgtmaybe/engine/compress.py:484-516 | The loop emits exactly the padded, merged hunk whose reading `RenderedReads` gives |
| ExpandHunks.NeighboursOrdered | src/lgtmaybe/engine/compress.py:448-516 | The pads of neighbouring groups do not meet, even where the gap cannot be filled or a boundary widened the pad |
| ExpandHunks.ExpansionOrdered | src/lgtmaybe/engine/compress.py:423-516 | Every emitted header counts its body, both starts are at least 1, and successive ranges ascend without overlap on both sides |
| ExpandHunks.ExpansionContextIff | src/lgtmaybe/engine/compress.py:423-516 | Over all groups together: the context of the output is the original's or the head text's if and only if that holds for each group, since no other group has a context line where a short pad is read |
| ExpandHunks.ExpandHunks | src/lgtmaybe/engine/compress.py:337-384 | For any head text, pads and sorted spans the output changes exactly what the patch changes; its hunks are the grouped, padded ones in order; every context line is the patch's own or the head line at its number if and only if each group has nothing padded in front or is reached by the head text; without a pad, head text or hunk the patch comes back untouched. Which lines it shows is stated by the three `Windows` rows |
| Windows.PadsAreShown | src/lgtmaybe/engine/compress.py:337-516 | In an expanded patch the walk shows, around every hunk whose preceding lines the head text reaches, the n lines before it and the lines back to the start of the innermost definition around it, as far as the old file has lines for them; and after every hunk as many lines as asked for, as far as the head text goes |
| Windows.ShownHasOldLine | src/lgtmaybe/engine/compress.py:431-437 | That limit is exact: no line before the patch's first hunk is shown without a line of the old file for it |
| Windows.NothingElseIsShown | src/lgtmaybe/engine/compress.py:337-516 | Every line an expanded patch shows is one of a hunk's own, in the window before or after one, or in the definition around one |
| Windows.ExpandedHunksAreApart | src/lgtmaybe/engine/compress.py:448-481 | Where the head text reaches every hunk, the hunks of the output stand at least a line apart: pads that overlap or touch were merged |
| Scan.OutsideStrings | src/lgtmaybe/engine/parse.py:117-138 | The two-flag loop marks exactly the characters outside string literals |
| Scan.IsUnterminated | src/lgtmaybe/engine/parse.py:254-273 | The answer is whether the brackets outside strings open more than they close |
| Scan.ScanOnIsFirstReturn | src/lgtmaybe/engine/parse.py:141-156 | The plain scan from an opener ends at the first later point where that bracket's depth is back at zero, if there is one |
| Scan.MatchBrackets | src/lgtmaybe/engine/parse.py:143-153 | The two stacks leave, for every opener outside strings, the end a plain scan from it finds, or none |
| Scan.BalancedSpans | src/lgtmaybe/engine/parse.py:141-156 | The one-pass matcher with two stacks yields exactly the spans of the naive scan from every opener, in opening order |
| Json.TruncationIsExact | src/lgtmaybe/engine/parse.py:254-273 | On every printed container the truncation test is false on the whole text and true on every non-empty proper prefix, cuts inside strings and escapes included |
| Json.ContainerReturns | src/lgtmaybe/engine/parse.py:141-156 | After any prefix that leaves no string open, a printed container's depth first returns to zero at its own end |
| Json.ContainerIsOneSpan | src/lgtmaybe/engine/parse.py:141-156 | Such a container is emitted as one exact span, whatever stray brackets come before and after it |
| Truncation.SpansOfCut | src/lgtmaybe/engine/parse.py:141-156 | The spans of a printed value cut anywhere are exactly the prints of the containers nested in it that close before the cut, in opening order |
| Truncation.CutHasNoSpan | src/lgtmaybe/engine/parse.py:141-156 | A container cut before its end has no span, whatever stands before it |
| Commas.StripTrailingCommas | src/lgtmaybe/engine/parse.py:159-165 | The substitution removes exactly the commas outside strings that a closing bracket follows, with the whitespace after them |
| Commas.RepairIsStringSafe | src/lgtmaybe/engine/parse.py:159-165 | On any text the characters inside string literals, and all others but commas and blanks, are unchanged |
| Commas.RepairIsExact | src/lgtmaybe/engine/parse.py:159-165 | A printed value with at most one trailing comma before each closer becomes the printed value without them and without the whitespace after them |
| Commas.RepairKeepsCut | src/lgtmaybe/engine/parse.py:159-165 | On any text the repair neither hides nor makes a cut: it opens more than it closes exactly when the text does |
| Commas.RepairIsStable | src/lgtmaybe/engine/parse.py:159-165 | Printed JSON is repaired in one go |
| ParseFindings.IterJsonValues | src/lgtmaybe/engine/parse.py:168-203 | The values come from the whole answer and then its spans in order, each text decoded once, as it stands or with its trailing commas repaired |
| ParseFindings.TryCandidate | src/lgtmaybe/engine/parse.py:183-203 | One candidate is decoded at most once, as it stands or repaired |
| ParseFindings.TriedHold | src/lgtmaybe/engine/parse.py:181-203 | Remembering the texts already seen never loses the value of one that decodes |
| ParseFindings.PassedOverIff | src/lgtmaybe/engine/parse.py:181-197 | The first candidate of its text is passed over if and only if an earlier one, itself not passed over and not decodable, has this text for its repair |
| ParseFindings.TriedExactly | src/lgtmaybe/engine/parse.py:168-203 | A value is among those tried if and only if some candidate yields it, as it stands or repaired, that is the first of its text and was not passed over |
| ParseFindings.SettledLosesNothing | src/lgtmaybe/engine/parse.py:168-203 | Where no candidate is the half-repaired form of another, every candidate that yields a value has it among those tried |
| ParseFindings.MemoryLosesARepair | src/lgtmaybe/engine/parse.py:183-197 | In the reply `[,,] [,]` the second list is passed over as the repair of the first, so the reply is an error, although that list by itself reads as a clean answer without findings |
| ParseFindings.ValidateAll | src/lgtmaybe/engine/parse.py:390-394 | The items read as findings exactly when every one of them passes the schema |
| ParseFindings.Classify | src/lgtmaybe/engine/parse.py:206-251 | Which fault an unreadable reply shows, told apart by whether a span with a quote in it exists and decodes |
| ParseFindings.RecoverCompleteFindings | src/lgtmaybe/engine/parse.py:306-323 | What a cut-off reply finished: its lone objects that pass the schema, in order |
| ParseFindings.ParseFindings | src/lgtmaybe/engine/parse.py:361-418 | The first complete payload wins; failing that a cut is reported with what was finished; then the first lone finding; then a refusal by the schema; then exactly the fault the text shows. Which findings that means, item by item, is stated by the `Readings` rows |
| ParseFindings.SomePayloadIsTheAnswer | src/lgtmaybe/engine/parse.py:361-391 | A reply that holds a printed payload passing the schema, amid any prose and brackets, is never an error: the first such payload is the answer |
| ParseFindings.FirstPayloadIsTheAnswer | src/lgtmaybe/engine/parse.py:361-391 | A given payload is the answer when neither the reply as a whole nor anything that opens before it reads as a payload |
| ParseFindings.CutIsReportedIff | src/lgtmaybe/engine/parse.py:376-402 | A printed payload cut anywhere is reported as cut off if and only if neither the cut text nor any container in it that closed before the cut reads as a whole payload; what is recovered is then exactly the lone findings among those |
| ParseFindings.CutReadsAsClean | src/lgtmaybe/engine/parse.py:293-303 | A payload cut off after an empty list inside it, in a text that decodes neither as it stands nor repaired, parses as a clean answer without findings, against the claim that a container shows nothing was cut |
| Readings.SelectedIsRead | src/lgtmaybe/engine/parse.py:361-418 | The answer in terms of the schema alone: the findings of the first envelope or list of objects whose every item passes; failing that a cut, with the lone objects that pass in order; failing that the first lone object that passes; failing that a fault, of the schema exactly when an item of something with the form of findings fails |
| Readings.WholeReplyIsRead | src/lgtmaybe/engine/parse.py:276-290 | A reply that decodes as a whole to an envelope or a list of objects, each item passing the schema as a finding, is read as exactly those findings in order |
| Readings.FirstPrintedIsRead | src/lgtmaybe/engine/parse.py:361-391 | So is such a payload printed amid any prose, if neither the reply as a whole nor anything that opens before it is one |
| Readings.LoneFindingIsRead | src/lgtmaybe/engine/parse.py:388-404 | One finding as an object by itself, with no payload and no other finding among the candidates and nothing cut, is read as that finding |
| Readings.NothingElseIsRead | src/lgtmaybe/engine/parse.py:276-290 | Scalars, lists that hold anything but objects, and payloads with an item refused are never read as findings; with a refused item in one that decodes and nothing cut, the fault is the schema's |
| Readings.RecoveredIs | src/lgtmaybe/engine/parse.py:306-323 | What a cut-off reply finished is every lone object that passes the schema, each once and in order |
| Readings.EmptyIff | src/lgtmaybe/engine/parse.py:228-230 | A reply is reported as empty exactly when only blanks are left without its reasoning |
| Readings.WholeOrProse | src/lgtmaybe/engine/parse.py:231-241 | A reply that decodes as a whole is JSON but no findings; one that does not and holds no quote is prose |
| Readings.PrintedFault | src/lgtmaybe/engine/parse.py:239-251 | With a printed object or list that holds a quote in it, a reply that does not decode is at fault in its shape if that part decodes once repaired, and in its syntax if no bracketed part does |
| Retrieve.WalkKeepsCaps | src/lgtmaybe/engine/retrieve.py:114-132 | The plain walk stays within the file cap and the token budget, takes no path twice or already grounded, and only adds to what it took |
| Retrieve.NothingHeldBack | src/lgtmaybe/engine/retrieve.py:114-162 | A readable file that was asked for, or that defines a symbol asked for where there is no file of that name, is taken with its redacted text unless at the end no place or not enough budget is left for it |
| Retrieve.FirstAskedFirstTaken | src/lgtmaybe/engine/retrieve.py:134-162 | What is asked for first is taken first: asking for more only adds to the end |
| Retrieve.Resolver.Prefetch | src/lgtmaybe/engine/retrieve.py:95-112 | A wave no wider than the headroom fetches each new path once and accepts nothing |
| Retrieve.Resolver.AcceptPath | src/lgtmaybe/engine/retrieve.py:114-132 | A fetched path is taken exactly when it is new, readable and within the budget |
| Retrieve.Resolver.TakeOne | src/lgtmaybe/engine/retrieve.py:150-162 | One prefetched entry ends in the state of the plain walk: accepted, or resolved as a symbol, or passed over |
| Retrieve.Resolver.TakeInWaves | src/lgtmaybe/engine/retrieve.py:134-162 | Taking entries in waves ends in the state the plain walk ends in |
| Retrieve.ResolveNeeds | src/lgtmaybe/engine/retrieve.py:65-165 | Wave-wise resolution returns exactly the files of a one-at-a-time walk with the same caps, and fetches each path at most once and nothing already grounded, in waves each no wider than the headroom left when it started |
| Reflect.Apply | src/lgtmaybe/engine/reflect.py:183-216 | Each finding survives, is deferred or is lost as its verdict says: an unmentioned one survives, and one kept with a score survives exactly when the score reaches the floor; survivors and deferred keep their order, and every loss is justified |
| Reflect.ReflectFindings | src/lgtmaybe/engine/reflect.py:131-264 | Any auditor causes at most one audit a hop left and one more and a bounded number of files; kept and lost make up what was given but for two stamped fields; what is kept, in order, is fixed by the verdicts, hop by hop; each is accounted for by an audit that took place; a failed audit loses nothing |
| Reflect.FetchNeeds | src/lgtmaybe/engine/reflect.py:229-236 | What a hop fetches is bounded, and is nothing exactly when the plain walk takes nothing |
| Reflect.Recheck | src/lgtmaybe/engine/reflect.py:218-264 | The deferred are judged again with what they asked for, one hop on, or lost as unresolved |
| Anchor.MatchesAreCandidates | src/lgtmaybe/engine/engine.py:2864-2897 | Every match is the number of a changed line equal to the anchor up to outer or inner whitespace, or overlapping it |
| Anchor.MatchesAre | src/lgtmaybe/engine/engine.py:2864-2897 | Which lines match: those equal to the anchor but for outer blanks; if none, those with the same words; if none of them either, the only line that overlaps an anchor of eight characters or more |
| Anchor.NormalisedIs | src/lgtmaybe/engine/engine.py:2859 | Whatever blanks stand between words, one space is left between them and none around them |
| Anchor.ExactMatchesWin | src/lgtmaybe/engine/engine.py:2867-2881 | When some line equals the anchor the matches are exactly the lines that do |
| Anchor.SnapIsNearest | src/lgtmaybe/engine/engine.py:2900-2924 | A quoting finding still anchored is on a match, and on the one nearest to the line it claimed |
| Anchor.SnapIs | src/lgtmaybe/engine/engine.py:2900-2924 | A finding that quotes a line moves to the first of the matches nearest to its claim and keeps its anchor, or stays and loses it where nothing matches; nothing else of it changes, and one without a quote not at all |
| Anchor.SnapIsIdempotent | src/lgtmaybe/engine/engine.py:2900-2924 | Snapping a second time changes nothing |
| Anchor.SnapLandsOnTheDiff | src/lgtmaybe/engine/engine.py:2831-2841 | Snapped against a diff with the same meaning as the original, it sits on a changed line of the original, in the commentable set |
| Anchor.SnapFindings | src/lgtmaybe/engine/engine.py:2831-2841 | Every finding is snapped, in order, and the anchored quoting ones can be attached to the original diff |
| Anchor.Dedupe | src/lgtmaybe/engine/engine.py:2927-2958 | One finding a place remains, in order of first appearance: the most severe, then the longest, then the earliest |
| Anchor.OneStands | src/lgtmaybe/engine/engine.py:2927-2958 | Every finding has one at its path, line and side among the results, no less severe, of equals no shorter, and of those no later |
| RankSort.SortIsStable | src/lgtmaybe/engine/triage.py:142 | Sorting by rank gives descending ranks, keeps the items, and keeps the order within a rank |
| Triage.AlwaysEscalate | src/lgtmaybe/engine/triage.py:88-101 | A file is on the floor exactly when its path is hinted or a security path, its patch holds a security token, or its changed lines and any surplus of the count come to 200 |
| Triage.FatesCover | src/lgtmaybe/engine/triage.py:117-142 | Floor, ranked, skipped and shadowed files make up all the files |
| Triage.ShadowedIff | src/lgtmaybe/engine/triage.py:118-120 | A file is lost without notice exactly when it is off the floor and shares its path with one on it |
| Triage.NothingShadowed | src/lgtmaybe/engine/triage.py:118-120 | With distinct paths no file is shadowed |
| Triage.FloorIsReviewed | src/lgtmaybe/engine/triage.py:117-149 | Every file on the floor is among those reviewed first |
| Triage.HasCandidate | src/lgtmaybe/engine/triage.py:119-123 | Triage is only asked when some file is off the floor and shares no path with it |
| Triage.Route | src/lgtmaybe/engine/triage.py:134-142 | The loop sends every file where its verdict says, an unmentioned one to review |
| Triage.TriageFiles | src/lgtmaybe/engine/triage.py:104-149 | File by file: reviewed are the floor, in order, then the files off it that the cheap model wants or did not mention, by falling risk (5 if not mentioned) and in order where that is equal; skipped are exactly those off it that it does not want; any failure reviews everything in order |
| Ladder.BoundKeepsTheSevere | src/lgtmaybe/engine/engine.py:2085-2099 | The per-lens bound drops the least severe: nothing dropped is more severe than anything kept, and nothing else is lost |
| Ladder.GatheredIsDelivered | src/lgtmaybe/engine/engine.py:2075-2099 | Read off the replies: what a call returns is, completion by completion, every finding of a parsed, cut-off or salvaged reply and of a reformat, with its path, line, side, body and anchor, under the lens's category and its ceiling; over the cap as many as the cap, the gravest first and of equals the first; and nothing else |
| Ladder.DeliveredEach | src/lgtmaybe/engine/engine.py:2254-2359 | So every finding of a reply or reformat within the cap has its like among the findings returned |
| Ladder.ListsAre | src/lgtmaybe/engine/engine.py:1963-1980 | What the summary lists of a lens, read off the completions: a reformat, a reply of another named model or one over the cap if and only if there was one; a lower effort or a missing schema if an answer came of it and only if it was asked for |
| Ladder.GatheredConcat | src/lgtmaybe/engine/engine.py:2237-2246 | Findings gathered rung by rung are those gathered from the whole run |
| Ladder.RanBoth | src/lgtmaybe/engine/engine.py:2222-2246 | Two rungs together keep every finding; a success needs one of them to cover the payload, a reason one of them to bear it out |
| Engine.Review.constructor | src/lgtmaybe/engine/engine.py:851-896 | A review starts with nothing to disclose and nothing asked |
| Engine.Review.SkipReason | src/lgtmaybe/engine/engine.py:699-716 | A stop at an interrupt, the deadline or the token budget is final, never rescued |
| Engine.Review.NoteAnsweringModel | src/lgtmaybe/engine/engine.py:1963-1980 | The lens is listed exactly when the reply names a model, the provider names its own, and they differ |
| Engine.Review.StampAndBound | src/lgtmaybe/engine/engine.py:2075-2099 | The findings are stamped with their category and held to its severity ceiling, cut to the bound, and what is dropped is added to the lens's count |
| Engine.Review.RetryLowerEffort | src/lgtmaybe/engine/engine.py:1814-1884 | Without a call the reason travels on unchanged; a call is made at the lower effort unless a ceiling or the adapter refuses; a success is disclosed; outcome, questions and completions are a function of the answers |
| Engine.Review.EscalateModel | src/lgtmaybe/engine/engine.py:1886-1961 | At most one call, on the fallback model, made unless a ceiling or the adapter refuses; if it comes back from a named fallback the lens is listed |
| Engine.Review.RetryWithoutSchema | src/lgtmaybe/engine/engine.py:1982-2042 | At most three completions without the schema; a success is disclosed and makes the adapter leave the schema out from then on, a failure means nothing answered |
| Engine.Review.ReviewWithContext | src/lgtmaybe/engine/engine.py:1586-1667 | The first answer's findings stay and the re-run's are added; the re-run is shown the same diff and exactly the files the plain walk fetches; unless a ceiling stops it, it is made exactly when there is one; an error is borne out by its own calls |
| Engine.PiecesNext | src/lgtmaybe/engine/engine.py:1764-1774 | After each piece all findings are kept, every error is borne out, and without errors the pieces so far are covered |
| Engine.PiecesEnd | src/lgtmaybe/engine/engine.py:1775-1812 | A split succeeds only if its pieces cover the batch; otherwise the last reason is reported, retryable exactly when some piece failed on the provider for another cause than size |
| Engine.Review.ReviewSplit | src/lgtmaybe/engine/engine.py:1669-1812 | A failed piece is never masked by a sibling; the split is disclosed exactly when some piece succeeded; at most six completions a piece; with no smaller piece the reason travels on unchanged; after a split it is never one about the payload |
| Engine.Review.Shrink | src/lgtmaybe/engine/engine.py:2189-2246 | A ceiling spent on thought leads to a lower effort, any other payload-sized failure to smaller pieces, and a whole batch that still fails ends with the second model unless refused |
| Engine.Review.Recover | src/lgtmaybe/engine/engine.py:2252-2309 | One reformat, then one re-ask without the schema; findings of both are kept, a failure stays the unparseable one, and a repair is disclosed |
| Engine.Review.ReadReply | src/lgtmaybe/engine/engine.py:2247-2358 | A parsed reply covers its payload even if its deferral then fails; every finding of a parsed reply, or of one cut in its body, is delivered, and the cut is final; another answering model is disclosed |
| Engine.Review.CompleteLens | src/lgtmaybe/engine/engine.py:2101-2359 | Ends against any provider within max(7, 6p+2) completions for p pieces; the findings are delivered reply by reply, every one within the cap and nothing else; no error only if the whole payload was in answered calls and the last completion is an answer; every error shown by a reply; every remedy tried unless refused; every recovery disclosed and nothing disclosed without one; all of it a function of the answers alone |
| Engine.Review.ReviewLens | src/lgtmaybe/engine/engine.py:1491-1584 | The same for one lens call, which is made with the configured schema unless a ceiling stops it; only a whole batch can split or defer |
| WorstRun.BoundIsReached | src/lgtmaybe/engine/engine.py:2101-2359 | The bound is exact: for any batch there are answers that take 6p+2 completions when it splits into p pieces, and 7 when it does not split |
| WorstRun.PieceTakesSix | src/lgtmaybe/engine/engine.py:1814-2042 | A piece that goes on thought every time takes six completions: its own, the lower effort, a reformat, the re-ask, its lower effort, a reformat |
| Rungs.CleanRun | src/lgtmaybe/engine/engine.py:2101-2359 | A call that nothing stops and that is answered with nothing to report is one completion without findings or error, whatever the adapter learns from it |
| Courses.OneCompletion | src/lgtmaybe/engine/engine.py:2101-2359 | What a call of one completion comes to, reply by reply: no error or a skipped deferral for a parsed one; unparseable, cut off and spent on thought are final; a provider failure is retryable exactly when it is passing; an oversized one stands where the batch cannot be split and otherwise every piece was skipped |
| Courses.StoppedAtOnce | src/lgtmaybe/engine/engine.py:699-716 | A call that a ceiling stops makes no completion and says which: an interruption before the deadline before the budget |
| Courses.DeferralIsShown | src/lgtmaybe/engine/engine.py:1630-1639 | A deferral is shown at most five files within the budget, none of its batch, redacted; every readable one it asked for unless there is no room |
| Courses.DefersOnce | src/lgtmaybe/engine/engine.py:1586-1667 | A deferral that can be met makes a second call, which is answered whatever else it asks for |
| Courses.StepsDownOnce | src/lgtmaybe/engine/engine.py:1814-1884 | Output spent on thought, at nine tenths of the ceiling or more, leads to one call at a lower effort |
| Courses.EscalatesOnce | src/lgtmaybe/engine/engine.py:1886-1961 | With no lower effort to be had it leads to one call of the second model |
| Courses.SplitAnswers | src/lgtmaybe/engine/engine.py:1669-1812 | An oversized call whose pieces all answer is answered, in one completion a piece and the first |
| Courses.SplitFails | src/lgtmaybe/engine/engine.py:1775-1812 | If some piece fails the call fails, worth another attempt exactly when some piece failed in passing; the second model's answer makes it good |
| Courses.Reformats | src/lgtmaybe/engine/engine.py:2252-2309 | An unparseable reply that is reformatted is answered in two completions |
| Courses.ReAsksBare | src/lgtmaybe/engine/engine.py:1982-2042 | One that is not is asked for once more without the schema, and answered in three |
| Schedule.Partition | src/lgtmaybe/engine/engine.py:1407-1437 | Running, deferred and finished calls partition all calls, and a call is deferred only while its batch's primer runs |
| Schedule.NoStall | src/lgtmaybe/engine/engine.py:1424-1437 | When nothing runs nothing is deferred and every call has finished |
| Schedule.SubmitKeeps | src/lgtmaybe/engine/engine.py:1412-1423 | Submitting a batch, or its primer alone, keeps the books in order |
| Schedule.FinishKeeps | src/lgtmaybe/engine/engine.py:1424-1437 | Any running call may finish next: the books stay in order and a primer releases its batch, failed or not |
| Schedule.WaitedNext | src/lgtmaybe/engine/engine.py:1424-1437 | Whoever is released waited for exactly the primer that just finished |
| FanOut.RunCall | src/lgtmaybe/engine/engine.py:1177-1195 | One prepared call runs its lens over its batch's joined patches, to the outcome that is a function of its own answers |
| FanOut.SubmitAll | src/lgtmaybe/engine/engine.py:1407-1423 | Batches are submitted in call order, a warmed one with its first call alone and the rest deferred |
| FanOut.RunPool | src/lgtmaybe/engine/engine.py:1393-1437 | For every order of completion the outcomes are the calls' own, each a function of its own answers alone, in call order; each call runs exactly once and no follower starts before its primer finished |
| FanOut.RescueRuns | src/lgtmaybe/engine/engine.py:1470-1489 | Both attempts together are one run of the call within twice its bound, with the findings of both |
| FanOut.Rescue | src/lgtmaybe/engine/engine.py:1440-1489 | Exactly the calls that failed on the provider run once more; their first findings stay and the second error stands; all others are untouched; what comes of it is a function of the answers. Which calls these are, in replies, is stated by the two rows after `FanOut.FanOut` |
| FanOut.FanOut | src/lgtmaybe/engine/engine.py:1393-1489 | Fan-out and rescue: the merged outcomes are fixed by the answers whatever finishes when; every outcome covers its batch or names a borne-out error, within the doubled bound, with every recovery disclosed |
| Courses.AskedAgainIff | src/lgtmaybe/engine/engine.py:1470-1489 | A call of one completion is asked again if and only if no ceiling stops that and the provider failed in passing, by another failure than a timeout or by a timeout on a batch that could not be split |
| Courses.NotAskedAgain | src/lgtmaybe/engine/engine.py:1470-1489 | A call in which the provider never failed in passing is not asked again, whatever else went wrong: too large a prompt, a ceiling, an unparseable reply, a skip |
| FanOut.RecordEndsAnswered | src/lgtmaybe/engine/engine.py:1393-1489 | When every call came to a success the last completion of the record is an answer, rescue wave included |
| FanOut.CleanFanOut | src/lgtmaybe/engine/engine.py:1393-1489 | Against answers with nothing to report no call is repeated and every completion is a plain one |
| Notices.BuildNotices | src/lgtmaybe/engine/engine.py:264-407 | Each notice is given exactly when its condition holds, once, in the summary's order |
| Pipeline.SubsetMeansNoMore | src/lgtmaybe/engine/engine.py:970-991 | Files chosen from others change no line the others do not change |
| Pipeline.ApplySizeCap | src/lgtmaybe/engine/engine.py:978-991 | The files over the size cap are set aside by name and the rest kept in order |
| Pipeline.FilterIs | src/lgtmaybe/engine/engine.py:970-991 | What a filter lets through is every element that passes, as often and in the order it stood |
| Pipeline.AllFit | src/lgtmaybe/engine/engine.py:984-991 | Nothing named as oversized means every file was kept |
| Pipeline.SelectFiles | src/lgtmaybe/engine/engine.py:968-991 | From a well-formed diff: its own patches, less the filtered ones, less the oversized ones, which are named |
| Pipeline.SelectedAre | src/lgtmaybe/engine/engine.py:968-991 | A file is kept exactly when it passes the path filters and the size limit, and named when it fails only the latter |
| Pipeline.FloorOf | src/lgtmaybe/engine/triage.py:117-118 | Every file is on the floor exactly when the floor's rules put it there |
| Pipeline.ChooseFiles | src/lgtmaybe/engine/engine.py:968-1038 | The chosen files are those that pass the filters and the size limit, in triage's order, as many as the cap allows; with nothing disclosed as left out, no reviewable changed line was left out |
| Pipeline.Prioritise | src/lgtmaybe/engine/engine.py:1028-1038 | What is reviewed is the first of triage's order, as many as the cap allows: the floor, then by risk, or the files as they come; if nothing is reported skipped or capped it is all of them; without a cap no file the floor holds is skipped by triage |
| Pipeline.PadLines | src/lgtmaybe/engine/engine.py:1046-1050 | The pad is the largest number of lines that is configured, within the cap of 20 and paid for at 5000 tokens a line by what the files leave of the budget; none once less than one line is left |
| Pipeline.ExpandFiles | src/lgtmaybe/engine/engine.py:1045-1073 | Every file is padded from its own head text and spans, and all of them mean what they meant; without room or head texts nothing changes |
| Pipeline.PaddedShow | src/lgtmaybe/engine/engine.py:1045-1073 | What the calls are shown around every hunk of a file whose head text is known: as many lines before it as the budget affords at 5000 tokens a line and 20 at most, a quarter of that behind it, the definition around it, and nothing else |
| Pipeline.PrepareCalls | src/lgtmaybe/engine/engine.py:1132-1196 | One call for each lens and batch, in that order; a batch is warmed only when more than one lens shares it |
| Pipeline.Collect | src/lgtmaybe/engine/engine.py:1205-1215 | Every finding of every call is gathered, each once, call by call and in each call's order, and nothing else; so are the errors |
| Pipeline.SuccessCovers | src/lgtmaybe/engine/engine.py:1132-1215 | With no failed call every lens had every changed line of every batch in an answered payload |
| Pipeline.ReviewBatches | src/lgtmaybe/engine/engine.py:1132-1215 | One call for each lens and batch; every finding of every call gathered in call order, each outcome a function of its answers and delivered reply by reply; each call's completions, rescue included, are in the record within twice its bound |
| Pipeline.KeptWellPlaced | src/lgtmaybe/engine/engine.py:1305-1336 | Reflection moves no finding off its changed line |
| Pipeline.Refine | src/lgtmaybe/engine/engine.py:1250-1347 | Every offered finding is accounted for: snapped, merged at its place, then posted unless suppressed, lacking evidence, not kept by the audit verdict by verdict, or below the floors |
| Pipeline.OfferedIsPosted | src/lgtmaybe/engine/engine.py:1250-1347 | Without an audit every offered finding has one at its snapped place, no less severe, that is posted unless it is suppressed, lacks evidence or does not clear the floors |
| Pipeline.AnswerSentIff | src/lgtmaybe/engine/engine.py:2044-2073 | The same for one answer: it was sent as asked for if and only if that was not given up before the review or in any completion up to it |
| Pipeline.SentIff | src/lgtmaybe/engine/engine.py:2044-2073 | With nothing disclosed and named models, every answer went out under the schema if and only if the adapter had not given it up for the configured model before the review and did in none of its completions, and likewise the effort |
| Pipeline.PlainListsNothing | src/lgtmaybe/engine/engine.py:1361-1384 | Completions with nothing to disclose put no lens or batch on any list of the summary |
| Pipeline.RunReview | src/lgtmaybe/engine/engine.py:851-1391 | A thumbs-up, or any posted review that admits no gap, means every changed line of every reviewable file was in an answered payload for every lens; a thumbs-up rests on answers asked for as configured, none naming another model, and sent as configured exactly when the adapter gave nothing up before the review or in it; the findings of all calls are collected, and when nothing filters and no audit runs each is posted at its snapped place, so that a thumbs-up means there were none; each notice stands for what the record shows; the calls see the chosen files, padded as the budget affords and batched; posted anchored findings can be attached; the review is incomplete exactly when every call failed and nothing was found; a review that leaves nothing out and is answered cleanly is a thumbs-up |
| SmallReview.CleanReview | src/lgtmaybe/engine/engine.py:851-1391 | A review of one added line, answered cleanly, is a thumbs-up whatever the adapter learns on the way and whoever answers without being named |
| SmallReview.ThumbsUpWithoutSchema | src/lgtmaybe/engine/engine.py:2044-2057 | A thumbs-up with an answer that was asked for under the schema and sent without it |
| SmallReview.ThumbsUpWithoutEffort | src/lgtmaybe/engine/engine.py:1361-1390 | A thumbs-up with an answer from a model that refused the configured effort |
| SmallReview.ThumbsUpFromFallback | src/lgtmaybe/engine/engine.py:1963-1980 | A thumbs-up with an answer of the fallback model, neither model being named |

## Left out

- The provider adapter, forge gateways, git, HTTP, threads and clocks: the provider's replies, ceilings, interrupts, capability answers, what the adapter learns in a completion and the order of completion are free choices. Of the adapter itself only its memory of refused schemas and efforts is kept; a schema sent as a forced tool call counts as sent.
- Interleaving inside a call: a call, its split pieces and the rescue wave run one after another here; between calls any order is allowed. The adapter's answer to whether the schema is still sent counts among a call's own answers.
- Token counting, redaction, `json.loads`, the findings schema, the reasoning-block filter and the security expressions: function parameters, and patches are taken as already redacted.
- Reading tags off raw lines with regular expressions, tab timestamps in file headers, and the several line-break conventions: a diff is a sequence of tagged lines without line breaks.
- Diffs that are empty or not well-formed, in `Pipeline` and `ExpandHunks`: bodies must match their headers, hunks ascend with equal gaps, paths be distinct, and both readers of a path agree on it.
- Prompt text and its blocks (intent, spec, hints, directory rules, manifests of hidden files): a call's payload is the joined patches.
- How a reply's text becomes parsed, unparseable or cut off: the ladder takes replies by kind, and `ParseFindings` treats the text by itself.
- The wording of notices and reasons, and which of several errors a notice names.
- Static-analysis findings and their off-diff scoping: hints enter as a set of paths, and no scan finding is offered.
- Declarative finding rules after the severity floors.
- The reserve of a tenth of each ceiling for the auditor, and everything else that depends on actual times or token totals.
- Grounding text for the auditor: an audit sees the hop and the findings, and says which paths it was shown.
- Describe, diagram, high-impact and label rendering, profiling, and the command line.
- Engine.Review.EscalateModel: discloses a fallback answer only when the models are named, because the source reads the disclosure off the model named in the reply.
