# Panel model

A Dafny model of the hard parts of a control panel for an xray server, with proofs. Four largely independent
cores and a small printer/parser pair are modelled:

* **QR encoder** (`Qr*.dfy`): the byte-mode, level-M encoder of `web/src/lib/qr.ts`, from field arithmetic and
  Reed-Solomon codes through block interleaving and drawing on an in-place canvas to the choice of the mask. Beside it stands
  a reader written from the standard, apart from the encoder (`QrStandard.dfy`): where the function patterns stand,
  how the data modules are scanned, the masks, the tables of centres and blocks, the BCH and Reed-Solomon checks, the message. The
  main theorem, the contract of `Encoder.EncodeQr`, is that this reader gets exactly the bytes out of the symbol (ISO/IEC 18004,
  sections 5.3 and 7.3 to 7.10).
* **JSONC surgery** (`Jsonc*.dfy`, `TextEdits.dfy`, `Render*.dfy`): the span-carrying parser and the renderer of
  `internal/xrayconfig/render.go`. Well-formed JSONC is a concrete syntax tree that keeps every blank and comment; the theorem
  is that text edits on spans, sorted and spliced from last to first, are list edits on the parsed clients arrays.
* **Roster apply protocol** (`UserStore.dfy`, `StoreLaws.dfy`, `Roster*.dfy`): the durable tables as two maps, the queue of
  per-user changes with generations, and a state machine of mutations and apply passes that may fail at any operation, be
  superseded in mid-pass, and be retried; convergence is in it at its lock points. The theorems are about every run: exact
  agreement of store, file and server for settled users, purges that leave nothing behind, and for each way the service falls
  short of that the exact condition and a run that shows it.
* **Traffic accounting** (`Traffic.dfy`, `Collector.dfy`, `FileSource.dfy`, `RosterSource.dfy`): counters that restart, a
  collector whose query, read and transaction may each fail, and the watched configuration whose roster version moves only on
  a real change. The theorems are conservation, no over-counting, and a last good value that survives.
* **URIs** (`Uri.dfy`): percent-encoding, the query serialisation, and the check on escapes in request paths (RFC 3986,
  sections 2.1 and 2.3).

Code that works in place is modelled in place: the canvas is a class over two-dimensional arrays, the parser a class with a
position, the store, the service, the collector, the tracker and the watcher are classes with the fields of the source. Each
method is proved against a specification function, and the theorems are lemmas about those functions. I/O, clocks and foreign
calls are parameters: a transaction gets a flag saying whether it commits, a push may fail and yet have landed.

## How the parts fit

`Encoder.EncodeQr` rests on `MessageReads.SymbolCarries`, which chains `PatternsShow.DrawnShows`, `Conformance.StreamIsTransmitted`,
`MessageReads.StreamAssembles` and `MessageReads.DataIsMessage`; `Reader.SymbolRoundTrip` says the same of a reader that undoes the
encoder's own steps. `RenderClients.RenderIsTheEditedDocument` chains
`JsoncTrees.ParseDocumentText`, `RenderOrder.PlannedIsPermutation`, `RenderLists.ItemEditsTo` and
`TextEdits.AchievedByAnySort`. `RosterRuns.RunsKeepTheInvariant` lifts `RosterSafety.EditKeeps`, `RosterSafety.DeleteKeeps`
and their `Covers` companions to runs of `RosterMachine.Next`; the methods of `RosterService.Service` are proved equal to the
desk functions that machine uses, and `RosterProgress.CleanPassSettlesEverybody` adds progress: one clean pass applies everything.
`RosterPurges.TrackedPurgesLeaveNothing` is about more runs and says less: failing writes may lose a change, but no purge runs
over a credential. `RosterConverge`, `RosterRecovery` and `RosterLapses` draw the line between the two.
`RosterFile.RenderIsAPush` ties the second core to the third: on each inbound a render does to
a user's entry what pushing the user's operations does to the server, and what the queue plans meets the render's preconditions.
`StoreLaws.AlwaysConsistent` needs the labelled clients `RosterSource.ClientsAreLabelled` provides, and
`TrafficCollector.BooksBalance` rests on `StoreLaws.PollAddsItsDeltas`.

## Where the code does not keep what it says

Each of these is a lemma with the input or the condition; the code is modelled as it is.

* The array loop of the JSONC parser never ends on a stray `}` or `:` (`JsoncSpans.HangsBehindAnyEntries`, and exactly when a
  round makes no progress: `JsoncSpans.ArrayRoundStuck`).
* Edits are said to be non-overlapping. Removing the final entry of an array together with its predecessor plans overlapping
  spans; what they share, the comma between the entries and the blank behind it, is taken a second time from what follows. The
  document comes out as planned exactly if that much blank, with no comment cut, stands before the closing bracket
  (`RenderLimits.RemovingTheLastPairFitsExactly`), or, with entries appended, if the blank before the final entry is no longer
  than what separates them (`RenderLimits.RemovingTheLastPairBeforeAppendsFitsExactly`). Otherwise the list is damaged, the text
  behind the array is cut, or the slice goes out of range; only a comment that repeats the appended entries may still hide it
  (`RenderLimits.CommentReadAsEntries`). Any number of arrays may lose a pair that fits (`RenderOutcome.RenderComesRight`).
* Where a clients array ends in a comma and spans lines, new entries go to the start of the bracket's line. If that line begins
  before the last comma, as in `},]`, they land among the entries with no comma between
  (`RenderMisses.AppendAmongEntriesNeverFits`); if it begins in a block comment, or if on one line a comment holds a comma, they land
  in the comment and are lost (`RenderMisses.AppendIntoACommentIsLost`, `RenderMisses.AppendBehindACommaInACommentIsLost`). Each time
  the render reports a change and no error. Else they come out as planned (`RenderMisses.AppendComesOutExactly`).
* Removing the only entry of an array that also gets an append leaves `[, ...]` (`RenderLimits.ReplacingTheOnlyEntryNeverFits`).
* Where settings have no clients key, removals are said to have nothing to drop; they insert an empty key
  (`RenderLimits.RemovalsAloneInsertTheKey`).
* An edit that re-attaches a tag whose detach is still owed may leave the old credential working
  (`RosterSafety.ReattachIsSwallowed`, reached in `RosterLapses.OldCredentialStays`); this is the only way an edit fails to settle a
  user (`RosterSafety.EditsSettleExactly`).
* A delete whose mark cannot be written has already dropped the unfinished change, owed detaches included
  (`RosterSafety.FailedDeleteExactly`, reached in `RosterLapses.ErasedUserStillConnects`).
* A disable keeps only what an unfinished change was joining, not what it owed (`RosterSafety.DisableExactly`, reached in
  `RosterLapses.DisabledUserStillConnects`), and an enable attaches over a disable that is not applied yet
  (`RosterSafety.EnableExactly`, reached in `RosterLapses.EnabledUserKeepsTheOldCredential`).
* Convergence looks at the queue and at the row, and queues what it listed later, in another critical section. A mutation that
  lands between is overwritten (`RosterLapses.ConvergenceUndoesAnEdit`, `RosterLapses.ConvergenceDropsAPurge`); exactly when that
  does no harm is `RosterConverge.OverwriteExactly`, and without one `RosterConverge.QuietWindow` has it right.
* An edit, unlike an add, does not drop repeats from the requested selection. An inbound named twice is then planned twice exactly
  if the edit has something to do about it (`RosterSafety.EditPlansOnceExactly`), and an attach planned twice gives the clients
  array two entries of the user (`RosterFile.DoubledAttachDoublesTheEntry`).
* A failed mark may outlive its change. A delete or a disable whose write fails, and an edit that plans nothing, take the change from
  the queue and leave the mark: everything reads as failed, with nothing queued and no pass to try again
  (`RosterMarks.MarkOutlivesItsChange`, exactly when: `RosterMarks.MarksWaitExactly`).
* The log line of a failed recovery promises a retry on the next watch fire; the code recovers only at start
  (`RosterRecovery.WithoutRecoveryNothingIsPurged`, and what a recovery is good for: `RosterRecovery.RecoveryErases`).

## Model

| member | source | states |
|---|---|---|
| GaloisField.Multiply | web/src/lib/qr.ts:193-202 | the shift-and-reduce loop computes the product of the field of 256 elements modulo 0x11d |
| GaloisField.TimesCommutative | web/src/lib/qr.ts:193-202 | the field product commutes |
| GaloisField.TimesAssociative | web/src/lib/qr.ts:193-202 | the field product is associative |
| GaloisField.LeftDistributive | web/src/lib/qr.ts:193-202 | the field product distributes over exclusive or, on the left |
| GaloisField.RightDistributive | web/src/lib/qr.ts:193-202 | and on the right |
| ReedSolomon.ReedSolomonDivisor | web/src/lib/qr.ts:166-178 | the in-place rounds leave the generator polynomial, leading 1 implicit |
| ReedSolomon.MultiplyByRoot | web/src/lib/qr.ts:171-174 | one round multiplies the coefficients in place by one more root |
| ReedSolomon.GeneratorIsProduct | web/src/lib/qr.ts:164-178 | at every point the generator has the value of the product of the distances to its roots, the powers of two below its degree |
| ReedSolomon.GeneratorRoots | web/src/lib/qr.ts:164-178 | the generator vanishes at every power of two below its degree |
| ReedSolomon.ReedSolomonRemainder | web/src/lib/qr.ts:180-191 | the division loop leaves the remainder, for any data and any divisor |
| ReedSolomon.DivideByte | web/src/lib/qr.ts:182-189 | one byte shifted through the register is one step of the long division |
| ReedSolomon.CodewordRoot | web/src/lib/qr.ts:180-191 | a block followed by its remainder vanishes wherever the divisor does |
| ReedSolomon.SyndromesVanish | web/src/lib/qr.ts:164-191 | for every block and degree: block and ECC evaluate to zero at every one of the degree powers of two |
| Versions.SmallestVersion | web/src/lib/qr.ts:69-77 | the first version that holds the payload, and none only if none does |
| Versions.BlockShape | web/src/lib/qr.ts:26-33 | every version's table entries split its codewords into non-empty blocks that hold their ECC |
| Segment.DataCodewordsFor | web/src/lib/qr.ts:104-122 | the whole buffer: header, length, bytes, terminator, alignment and alternating filler |
| Segment.AppendBits | web/src/lib/qr.ts:124-126 | the bits of a value, most significant first, behind those already there |
| Segment.Terminate | web/src/lib/qr.ts:110-111 | at most four zero bits, and never past the capacity |
| Segment.AlignToByte | web/src/lib/qr.ts:112 | zero bits up to the next whole byte, no more than needed |
| Segment.Pack | web/src/lib/qr.ts:114-117 | bits packed into bytes in place, the rest of the buffer left alone |
| Segment.Pad | web/src/lib/qr.ts:118-120 | the rest of the buffer filled with 0xEC and 0x11 in turn |
| Segment.PayloadRoundTrip | web/src/lib/qr.ts:101-122 | for every payload that fits: parsing the padded codewords returns the payload |
| Interleaving.Interleave | web/src/lib/qr.ts:128-162 | the finished array is the interleaving of blocks and ECC, for any shape that divides up the codewords |
| Interleaving.SplitBlocks | web/src/lib/qr.ts:140-148 | the data is cut into short and long blocks in order, each with its remainder |
| Interleaving.WriteBlocks | web/src/lib/qr.ts:150-157 | the data half, written block after block at each index, leaves the ECC slots alone |
| Interleaving.WriteEcc | web/src/lib/qr.ts:158-161 | the ECC half behind it |
| Interleaving.OwnerOfSlot | web/src/lib/qr.ts:150-161 | every codeword of every block has a slot, and that slot belongs to it |
| Interleaving.SlotOfOwner | web/src/lib/qr.ts:150-161 | every slot of the output belongs to a codeword of a block, and is the slot of that codeword |
| Interleaving.BlockReadBack | web/src/lib/qr.ts:128-162 | de-interleaving returns each data block |
| Interleaving.EccReadBack | web/src/lib/qr.ts:128-162 | and each block's ECC |
| Interleaving.DataReadBack | web/src/lib/qr.ts:128-162 | the blocks read back one after the other are the data |
| Geometry.ReservedSize | web/src/lib/qr.ts:84-95 | the function patterns take no more modules than the codeword count leaves out |
| Geometry.RoomForCodewords | web/src/lib/qr.ts:84-95 | each version's unreserved modules hold 8 bits for each raw codeword |
| Conformance.PathIsScan | web/src/lib/qr.ts:376-384 | module k of the path stands where the standard's scan has it: pairs of columns from the right, the first upwards and then in turn, the timing column left out |
| Conformance.CentresAre | web/src/lib/qr.ts:308-319 | the positions of the alignment patterns are those of the standard's table, version by version |
| Conformance.ReservedAreFunctionModules | web/src/lib/qr.ts:252-283 | what is reserved are the standard's function modules |
| Conformance.DataModulesAre | web/src/lib/qr.ts:376-392 | the data modules are those of the scan that are no function modules, in its order |
| Zigzag.PathIndexOfPathCell | web/src/lib/qr.ts:373-392 | no module comes twice on the zigzag path |
| Zigzag.PathCellOfPathIndex | web/src/lib/qr.ts:373-392 | every module outside the timing column comes on the path |
| Zigzag.DataCellsDistinct | web/src/lib/qr.ts:376-392 | the data bits go to distinct modules |
| Zigzag.DataCellsComplete | web/src/lib/qr.ts:376-392 | every unreserved module off the timing column is one of them |
| Zigzag.DataCellsCount | web/src/lib/qr.ts:376-392 | so their number is that of the unreserved modules |
| Pictures.FunctionPatternsReserve | web/src/lib/qr.ts:252-283 | drawing the function patterns reserves exactly the modules the standard gives them |
| Pictures.PaintedReadBack | web/src/lib/qr.ts:376-392 | bit k of the stream is the colour of the k-th data module |
| Pictures.MaskTwice | web/src/lib/qr.ts:394-405 | a mask applied twice restores the symbol |
| Pictures.MaskThenFormat | web/src/lib/qr.ts:227-238 | mask and format bits do not meet, so their order does not matter |
| Conformance.MaskIsTable | web/src/lib/qr.ts:407-424 | each mask inverts the modules the standard's table gives it |
| Conformance.StreamIsTransmitted | web/src/lib/qr.ts:373-405 | read along the standard's scan and through the table's mask, a drawn symbol shows its codewords bit by bit, and light modules behind them |
| BchCodes.RegisterDivides | web/src/lib/qr.ts:325-329 | the shift register divides: shifted data and remainder differ by a multiple of the generator |
| BchCodes.FormatIsWord | web/src/lib/qr.ts:323-329 | under the fixed pattern each format word has level M and the mask in front and is a word of the code of 0x537 |
| BchCodes.VersionIsWord | web/src/lib/qr.ts:353-359 | each version word has the version in front and is a word of the code of 0x1f25 |
| BchCodes.WordsApart | web/src/lib/qr.ts:323-359 | no two words of such a code agree in front of the check: the words are determined |
| PatternsShow.PatternsAreShown | web/src/lib/qr.ts:252-319 | every drawn symbol shows the standard's finders, separators, timing and alignment patterns, module by module |
| PatternsShow.DrawnShows | web/src/lib/qr.ts:252-367 | and spells the format of its mask twice and the version twice where there is one |
| Canvases.Canvas.constructor | web/src/lib/qr.ts:215-220 | a blank canvas with nothing reserved |
| Canvases.Canvas.SetFunctionModule | web/src/lib/qr.ts:247-250 | one module drawn and reserved, every other left alone |
| Canvases.Canvas.DrawTiming | web/src/lib/qr.ts:255-260 | the timing row and column, nothing else |
| Canvases.Canvas.DrawFinderPattern | web/src/lib/qr.ts:285-297 | a finder with its separator, clipped at the edge, nothing else |
| Canvases.Canvas.DrawAlignmentPattern | web/src/lib/qr.ts:299-306 | one alignment pattern, nothing else |
| Canvases.Canvas.DrawAlignmentPatterns | web/src/lib/qr.ts:267-277 | all alignment patterns but those of the finder corners |
| Canvases.Canvas.DrawFormatBits | web/src/lib/qr.ts:323-349 | both format areas carry the mask's format word, and the dark module is dark |
| Canvases.Canvas.DrawVersionBits | web/src/lib/qr.ts:353-367 | both version blocks carry the version word from version 7 on, and none before |
| Canvases.Canvas.DrawFunctionPatterns | web/src/lib/qr.ts:252-283 | on a blank canvas: the version's function patterns and their reservation |
| Canvases.Canvas.DrawCodewords | web/src/lib/qr.ts:376-392 | the nested loops write the bit stream to the data modules in the order of the path, which is the standard's scan (Conformance.PathIsScan), and nothing else |
| Canvases.Canvas.ApplyMask | web/src/lib/qr.ts:397-405 | exactly the unreserved modules the mask selects are inverted |
| Canvases.AlignmentPatternPositions | web/src/lib/qr.ts:308-319 | the positions spliced in from the far end are evenly stepped, first at 6 |
| Canvases.FormatWord | web/src/lib/qr.ts:323-329 | the shift register computes the format word of the mask |
| Canvases.VersionWord | web/src/lib/qr.ts:353-359 | and that of the version |
| Reader.FormatAnnouncesMask | web/src/lib/qr.ts:321-338 | for each mask: the format word, unmasked and shifted, is the mask |
| Reader.MaskReadBack | web/src/lib/qr.ts:321-338 | the mask read from a drawn symbol is the one it was drawn with |
| Reader.CodewordsReadBack | web/src/lib/qr.ts:373-405 | unmasking and reading the data modules in the order they were drawn returns the codewords; that order is the standard's by Conformance.DataModulesAre |
| Reader.SymbolRoundTrip | web/src/lib/qr.ts:43-47 | for every payload, version that holds it and mask: a reader of the drawn symbol gets back exactly those bytes |
| Reader.BlocksAreCodewords | web/src/lib/qr.ts:128-148 | the ECC a symbol carries makes each of its blocks a Reed-Solomon codeword |
| MessageReads.StreamAssembles | web/src/lib/qr.ts:128-162 | a reader that knows the standard's block table and interleaving gets every block with clean syndromes, and their data joined is the data |
| MessageReads.DataIsMessage | web/src/lib/qr.ts:101-122 | the data codewords are the standard's message, nibble by nibble: mode, length, bytes, end, and two pad codewords in turn |
| MessageReads.FitsExactly | web/src/lib/qr.ts:69-102 | a payload fits a version exactly if it is no longer than the block table leaves room for |
| MessageReads.TimesTwo | web/src/lib/qr.ts:193-202 | in the field, twice a byte is the shifted byte, less 0x11d if it overflows |
| MessageReads.SymbolCarries | web/src/lib/qr.ts:43-241 | whatever the mask: a reader written from the standard alone, with its own scan, masks, tables and syndromes, gets exactly the payload out of the symbol |
| MessageReads.CarriesOnce | web/src/lib/qr.ts:43-241 | that reader gets one payload at most out of any symbol |
| Penalties.PenaltyScore | web/src/lib/qr.ts:428-484 | the nested loops compute the sum of the four rules over the whole symbol |
| Penalties.ScoreLine | web/src/lib/qr.ts:436-460 | one line's scan computes its run points and finder-lookalike points |
| Penalties.CountBlocks | web/src/lib/qr.ts:463-474 | the number of 2 by 2 squares of one colour |
| Penalties.CountDark | web/src/lib/qr.ts:476-479 | the number of dark modules |
| Penalties.RunPointsAreRunPenalty | web/src/lib/qr.ts:442-448 | the points a line earns while scanned are the sum of L - 2 over its maximal runs of length L of at least 5 |
| FourRules.RunsOfLine | web/src/lib/qr.ts:436-460 | the runs of a line, laid one after the other, are the line, and none between the first and the last is empty |
| FourRules.PointsToCome | web/src/lib/qr.ts:448-503 | the finder-lookalike points of a scan are 40 for each light run next to dark 1:1:3:1:1 with four units of light on one side, the border counted as light |
| FourRules.LineScoreIs | web/src/lib/qr.ts:436-460 | a line pays for its runs and its lookalikes, and nothing else |
| FourRules.PenaltyIs | web/src/lib/qr.ts:428-484 | a symbol pays for its rows and columns, 3 for each one-coloured square, and 10 for each whole twentieth its dark part is off the half |
| Encoder.TrialShowsCandidate | web/src/lib/qr.ts:227-230 | each trial scores the data under its own mask and format bits, whatever was tried before |
| Encoder.TrialLeavesData | web/src/lib/qr.ts:227-236 | each trial leaves every data module as first drawn |
| Encoder.BuildSymbol | web/src/lib/qr.ts:212-241 | the finished canvas is the drawn data under the first mask of least penalty |
| Encoder.EncodeQr | web/src/lib/qr.ts:43-47 | the symbol is of the smallest version that fits, a reader written from the standard gets exactly the bytes out of it, its mask is the first of least penalty, and there is none exactly if the payload is longer than 2331 bytes |
| JsoncReader.Parser.SkipBlanks | internal/xrayconfig/render.go:394-414 | the scan stops behind whitespace and both comment forms |
| JsoncReader.Parser.Str | internal/xrayconfig/render.go:504-525 | a string up to its closing quote, escapes skipped, decoded |
| JsoncReader.Parser.Scalar | internal/xrayconfig/render.go:527-543 | a literal up to whatever ends it; it may be empty |
| JsoncReader.Parser.ReadValue | internal/xrayconfig/render.go:416-431 | one value by its first character, as the recursive description has it |
| JsoncReader.Parser.ReadArray | internal/xrayconfig/render.go:473-502 | the loop agrees with the recursive description; where it would never end, it says so |
| JsoncReader.Parser.ReadObject | internal/xrayconfig/render.go:433-471 | the loop agrees with the recursive description |
| JsoncReader.ParseJsonc | internal/xrayconfig/render.go:375-386 | the parser run by loops over one position agrees with the recursive description, failures included |
| JsoncLexis.SkippedIsBlank | internal/xrayconfig/render.go:394-414 | what is skipped are whitespace and comments, the last perhaps without an end, and it is all that stands there |
| JsoncLexis.QuotedExactly | internal/xrayconfig/render.go:504-525 | a string is a body between quotes in which each backslash takes a character with it and no quote stands bare |
| JsoncLexis.LiteralEndIs | internal/xrayconfig/render.go:527-543 | a literal runs to the first whitespace, separator, closing bracket, comment, or the end |
| JsoncTrees.ParseDocumentText | internal/xrayconfig/render.go:372-386 | for every well-formed text, whatever its blanks, comments and trailing commas: the parse ends, consumes all of it and returns its tree with exact spans |
| JsoncSpans.TreeWellSpanned | internal/xrayconfig/render.go:346-357 | children are nested in their parent, ordered and disjoint; each separator comma stands between its two items, each key before its value |
| JsoncSpans.SpansOfDocument | internal/xrayconfig/render.go:346-386 | every node of a parsed document is well spanned, and parsing its own slice gives the same subtree |
| JsoncSpans.ArrayRoundStuck | internal/xrayconfig/render.go:478-500 | a round of the array loop consumes nothing exactly at a stray } or : |
| JsoncSpans.HangsBehindAnyEntries | internal/xrayconfig/render.go:473-502 | behind any well-formed entries, each with its comma, a stray } or : makes the parser never return, whatever follows |
| JsoncSpans.ParserHangs | internal/xrayconfig/render.go:473-502 | the parser never returns from the text [} |
| TextEdits.LastToFirst | internal/xrayconfig/render.go:63-64 | disjoint edits applied from last to first do what substituting them all at once does |
| TextEdits.SortedIsReversed | internal/xrayconfig/render.go:142 | distinct offsets leave a sort by descending offset no choice |
| TextEdits.AchievedByAnySort | internal/xrayconfig/render.go:142-147 | however planned edits are sorted, splicing them one after the other gives the text they stand for |
| TextEdits.SortDescending | internal/xrayconfig/render.go:142 | a permutation in descending order of offsets |
| TextEdits.ApplyEdits | internal/xrayconfig/render.go:143-147 | the splicing loop, and exactly when a slice goes out of range |
| RenderSyntax.GetOfTree | internal/xrayconfig/render.go:359-370 | looking a key up in a parsed object is looking it up in its syntax tree |
| RenderEntries.EntryValueText | internal/xrayconfig/render.go:310-327 | the text of a rendered entry is that of an object with email, id and, if set, flow |
| RenderEntries.PlannedIdEdits | internal/xrayconfig/render.go:184-200 | the planned id edit, in terms of the entry's syntax |
| RenderEntries.IdEditText | internal/xrayconfig/render.go:184-200 | that edit turns the entry's text into that of the entry with the id |
| RenderEntries.SetIdMeaning | internal/xrayconfig/render.go:184-200 | after it the entry has the id and every other property it had |
| RenderOrder.EditsFromItems | internal/xrayconfig/render.go:164-182 | each entry's removal or id edit, at the spans the parse gave, is the one of the syntax tree |
| RenderOrder.PlannedIsPermutation | internal/xrayconfig/render.go:107-129 | the planner's removals and rotations are the entries' edits in some order |
| RenderLists.ItemEditsTo | internal/xrayconfig/render.go:164-182 | the edits of a clients array turn its text into that of the edited list: separators go with removed entries, additions behind the last |
| RenderLists.EditedValues | internal/xrayconfig/render.go:36-44 | the edited list holds the kept clients in place, then the new ones |
| RenderArrays.RemainingIs | internal/xrayconfig/render.go:117-131 | what is appended is the adds and unmatched sets no client carries, in order |
| RenderArrays.ItemEditsAscend | internal/xrayconfig/render.go:63-64 | the edits of an array have distinct offsets and do not overlap |
| RenderSettings.FilledText | internal/xrayconfig/render.go:273-281 | the insert into an empty array makes the text of the filled one |
| RenderSettings.ArrayAchieves | internal/xrayconfig/render.go:103-139 | all edits planned for one clients array turn its text into that of the edited array |
| RenderKeys.KeyInsertAchieves | internal/xrayconfig/render.go:239-264 | the inserted clients key makes the settings with that key, on its own lines or inline |
| RenderKeys.WithClientsMeaning | internal/xrayconfig/render.go:239-264 | settings given a clients key hold the entries in order, and every other property as before |
| RenderInbounds.InboundRefused | internal/xrayconfig/render.go:66-102 | an inbound is refused exactly when it is managed and not VLESS or cannot hold clients; unmanaged ones plan nothing |
| RenderInbounds.AllRefused | internal/xrayconfig/render.go:65-139 | the whole plan is refused exactly when one inbound is |
| RenderInbounds.InboundAchieves | internal/xrayconfig/render.go:65-139 | the edits planned for one inbound make the edited inbound |
| RenderMeaning.EditedInboundHolds | internal/xrayconfig/render.go:32-46 | an edited inbound is well formed, holds the planned clients, and keeps every other property |
| RenderResult.UntouchedStays | internal/xrayconfig/render.go:41-44 | a client neither removed nor set stays as it is |
| RenderResult.PlannedClientsSettled | internal/xrayconfig/render.go:20-28 | in the planned list nobody to remove is left, everybody to add or set is there once, and set ids are those asked for |
| RenderResult.SettledPlansNothing | internal/xrayconfig/render.go:20-23 | an array already as planned plans no edit |
| RenderClients.ByEmailOf | internal/xrayconfig/render.go:202-214 | the index of client objects by email, later entries winning |
| RenderClients.RemovalLoop | internal/xrayconfig/render.go:107-113 | one removal for each email the array carries |
| RenderClients.SetLoop | internal/xrayconfig/render.go:115-129 | sets of carried emails rewrite the id, the others join the appends in order |
| RenderClients.PlanClients | internal/xrayconfig/render.go:103-139 | all edits of one clients array, or a refusal |
| RenderClients.PlanInbound | internal/xrayconfig/render.go:66-139 | all edits of one inbound, or a refusal |
| RenderClients.PlanInbounds | internal/xrayconfig/render.go:65-139 | all edits of the document, or the first refusal |
| RenderClients.Render | internal/xrayconfig/render.go:47-149 | the whole render, with every way it can end: unchanged, rendered, refused, hanging, crashing |
| RenderClients.RefusedExactly | internal/xrayconfig/render.go:51-99 | on well-formed text: an error exactly when there is no inbounds array or a managed inbound cannot take clients, and it always returns |
| RenderClients.RenderIsTheEditedDocument | internal/xrayconfig/render.go:34-46 | text surgery is list surgery: the rendered text is that of the edited document, every byte outside the edited spans as it was |
| RenderClients.RenderedMeaning | internal/xrayconfig/render.go:34-46 | the rendered text re-parses; each planned inbound holds its old clients minus the removed, ids set in place, missing ones appended in order; all else is as before |
| RenderClients.RenderSettles | internal/xrayconfig/render.go:20-28 | after a render every managed inbound is as the plan wants it, email by email |
| RenderClients.SettledDocument | internal/xrayconfig/render.go:41-46 | a document already as the plan wants it comes back byte for byte |
| RenderClients.RenderingAgainChangesNothing | internal/xrayconfig/render.go:20-23 | rendering the same plan again reports no change and returns identical bytes |
| RenderClients.ChangedExactly | internal/xrayconfig/render.go:46 | changed holds exactly when the rendered text differs from the document |
| RenderedClients.RenderRead | internal/xrayconfig/render.go:34-46 | the rendered text parses, and key by key: each inbound named has its clients but the removed ones in order, with the ids asked for and everything else as it was, then for every other request an object with email, id, the flow if there is one, and no other key; all else is as it was |
| RenderedClients.RefusalRead | internal/xrayconfig/render.go:51-99 | a plan is refused exactly when there is no inbounds array or it names an inbound that is no VLESS or cannot hold clients, read off the properties |
| RenderedClients.VlessFolds | internal/xrayconfig/render.go:78-80 | an inbound is taken for VLESS exactly if its protocol folds to vless |
| RenderPlanner.ByEmailIs | internal/xrayconfig/render.go:202-214 | an email is indexed exactly if some entry has it, at the last one that has |
| RenderLayout.LineIndentIs | internal/xrayconfig/render.go:334-344 | the indent of a line is the whitespace it begins with |
| RenderLayout.AppendIsLaidOut | internal/xrayconfig/render.go:266-304 | behind the last entry every new one comes with its comma, on a line of its own with the last one's indent exactly if the array spans lines, else behind a space |
| RenderLayout.CommaAppendIsLaidOut | internal/xrayconfig/render.go:283-295 | where the last entry has its own comma: whole lines before the bracket's line exactly if the array spans lines, else behind the first comma and a space |
| RenderLayout.FillIsLaidOut | internal/xrayconfig/render.go:266-304 | between empty brackets: one entry to a line, indented by two more, or inline |
| RenderLayout.KeyIsLaidOut | internal/xrayconfig/render.go:239-264 | a new clients key on a line of its own with the last key's indent exactly if the settings span lines, else behind a comma and a space |
| TextLandings.OverlapTakesTooMuch | internal/xrayconfig/render.go:143-147 | two overlapping removals spliced from last to first cut into the text behind both by exactly the overlap, or fail |
| RenderLimits.LastPairOverlaps | internal/xrayconfig/render.go:164-182 | the spans planned for the final entry and its predecessor always overlap |
| TextLandings.OverlapAmongOthers | internal/xrayconfig/render.go:141-147 | among any other edits, before and behind: what the overlap takes is cut off the front of the edited text behind both spans |
| TextLandings.LandsAround | internal/xrayconfig/render.go:141-147 | splicing from last to first, overlaps or not: what stands behind a part lands first, then the part sees only its own edits, then what stands before lands |
| RenderPairs.ArraySpliced | internal/xrayconfig/render.go:141-182 | a clients array that loses its last pair, with every other edit of it: what its planned edits make of it wherever it stands, or that they fail |
| RenderPairs.FittedLands | internal/xrayconfig/render.go:34-46 | if the overlap fits, they make the list of the kept and the appended entries |
| RenderTrailing.EditsFromOpen | internal/xrayconfig/render.go:164-182 | in an array that ends in a comma: each entry's removal goes through the next entry, or through the last comma |
| RenderTrailing.TrailingLands | internal/xrayconfig/render.go:34-46 | however they are sorted, the edits planned for such an array make the list of the kept and the appended entries of it, wherever it stands |
| RenderCommas.AppendFitsExactly | internal/xrayconfig/render.go:283-295 | an append goes behind the last comma and into no comment if and only if, on several lines, the last line break stands behind that comma and in no block comment, and on one, no comment before the comma holds a comma |
| RenderOutcome.RenderComesRight | internal/xrayconfig/render.go:34-46 | documents in which arrays may end in a comma or lose a fitting last pair: the rendered text is that of the document each inbound of which is as planned |
| RenderOutcome.OutcomeMeaning | internal/xrayconfig/render.go:34-46 | that document re-parses; its inbounds hold the planned clients, and everything else is as before |
| RenderOutcome.OutcomeSettles | internal/xrayconfig/render.go:20-28 | in that document every inbound is as the plan wants it, email by email |
| RenderOutcome.OutcomeStands | internal/xrayconfig/render.go:20-23 | rendering the same plan again returns the same bytes, unchanged, and changed says whether the first render made any difference |
| RenderContext.DocumentAround | internal/xrayconfig/render.go:47-147 | a document split at one clients array: the edits before and behind it, what they make of the text there, and that text around any other array |
| RenderContext.DocumentWithHolds | internal/xrayconfig/render.go:34-46 | such a document parses as it stands: the array given, every other inbound as planned, every other property as it was |
| RenderLimits.PairRenders | internal/xrayconfig/render.go:141-182 | a plan that removes the last two entries of an array, whatever else it does: exactly the text rendered, or a failing slice |
| RenderLimits.RemovingTheLastPairFitsExactly | internal/xrayconfig/render.go:164-182 | with nothing appended some well-formed array of the planned clients stands there, all else as planned, if and only if the overlap fits into the blank before the bracket and cuts no comment |
| RenderLimits.RemovingTheLastPairBeforeAppendsFitsExactly | internal/xrayconfig/render.go:164-182 | with entries appended: kept entries, a blank and the appended entries, if and only if the blank before the final entry is no longer than what separates appended entries; and without a comment before the bracket the same for any array of the planned clients |
| RenderLimits.CommentReadAsEntries | internal/xrayconfig/render.go:164-182 | with such a comment it may come out right by accident: the overlap ends inside a comment that repeats the appended entries |
| RenderInk.GoesOnWithInk | internal/xrayconfig/render.go:164-182 | a list that begins with the text of another and holds more values: the rest of its text has as many visible characters as those values and their commas |
| RenderLimits.ReplacingTheOnlyEntryNeverFits | internal/xrayconfig/render.go:181-182 | removing the only entry of an array while others are appended never comes out right, whatever well-formed array is looked for: a comma is left behind the bracket |
| RenderMisses.AppendComesOutExactly | internal/xrayconfig/render.go:283-295 | appending to an array that ends in a comma: some well-formed array of the planned clients stands there, all else as planned, if and only if the append goes behind that comma and into no comment |
| RenderMisses.AppendIntoACommentIsLost | internal/xrayconfig/render.go:287-292 | with the last line break in a block comment, whatever else is planned: the render reports a change, and the array holds the kept clients only |
| RenderMisses.AppendBehindACommaInACommentIsLost | internal/xrayconfig/render.go:293-294 | so on one line, with a comma in a comment before the last comma |
| RenderMisses.AppendAmongEntriesNeverFits | internal/xrayconfig/render.go:287-292 | with the bracket on a line that begins among the entries: the render reports a change, and no well-formed array of the planned clients stands there |
| RenderLimits.RemovalsAloneInsertTheKey | internal/xrayconfig/render.go:81-101 | without a clients key even a plan that only removes inserts an empty one |
| UserStore.Store.AddRosterUser | internal/users/store.go:241-321 | the answer and both tables after an add: taken, revived with its creation kept, or new |
| UserStore.Store.EditRosterUser | internal/users/store.go:560-643 | the answer and both tables after an edit; one that carries the stored state writes nothing |
| UserStore.Store.DisableRosterUser | internal/users/store.go:330-349 | both flags set, history kept, idempotent |
| UserStore.Store.EnableRosterUser | internal/users/store.go:476-511 | both flags shed, credential and attachments kept, deleting rows not found |
| UserStore.Store.MarkRosterDeleting | internal/users/store.go:358-379 | disabled and deleting at once, idempotent |
| UserStore.Store.PurgeRosterUser | internal/users/store.go:387-410 | both rows erased if the row is deleting, nothing otherwise |
| UserStore.Store.ApplyPoll | internal/users/store.go:664-731 | deltas, presence and roster in one transaction, or nothing |
| UserStore.Store.SyncLabels | internal/users/store.go:738-778 | who is not in the configuration and has no live roster row is disabled; parsed emails are relabelled, the panel's flag kept |
| UserStore.Store.AdoptClients | internal/users/store.go:792-881 | new clients adopted, known ones gain attachments only, disabled rows untouched, whatever order the clients are met in |
| UserStore.MergeTags | internal/users/store.go:861-866 | attachments merged in order without repeats |
| StoreLaws.AlwaysConsistent | internal/users/store.go:241-881 | in every reachable state deleting implies disabled, and every roster row has a users row with the same disabled flag |
| StoreLaws.UnlabelledClientBreaksConsistency | internal/users/store.go:738-881 | which rests on every parsed client having a label: without one the flags come apart |
| StoreLaws.PollAddsItsDeltas | internal/users/store.go:664-731 | a poll adds exactly its deltas to each total; no total falls and no last-seen moves back |
| StoreLaws.HistoryKept | internal/users/store.go:241-731 | no transaction but the user's own purge loses a dashboard row or lowers anything in it; only polls add |
| StoreLaws.HistoryAdds | internal/users/store.go:241-731 | so over every log without such a purge the totals are the opening ones plus what its polls brought |
| StoreLaws.PollKeepsTheRoster | internal/users/store.go:780-881 | an adopted row is live, with the parsed Client ID and attachments; a poll revives nobody, rewrites no Client ID and drops no attachment |
| StoreLaws.SameRosterTwice | internal/users/store.go:651-660 | applying the same roster again changes nothing |
| StoreLaws.DeletingKeepsItsClaims | internal/users/store.go:351-357 | a deleting row keeps its email and Client ID through every transaction but its own purge |
| StoreLaws.ClaimsAreRefused | internal/users/store.go:241-275 | no add or edit takes a Client ID another row claims, except onto the user's own disabled row that already held it |
| StoreLaws.MutationsKeepIdsUnique | internal/users/store.go:241-643 | no API mutation makes two rows share a Client ID |
| StoreLaws.DeletingEmailIsRefused | internal/users/store.go:258-262 | a deleting email cannot be added, edited, disabled or enabled |
| StoreLaws.PurgeErasesOnlyDeleting | internal/users/store.go:381-404 | a purge erases a deleting row from both tables and nothing else |
| StoreEffects.PollRoster | internal/users/store.go:780-881 | the roster after a poll, row by row: adopted rows as parsed, live rows gain the parsed tags they lacked and are stamped exactly then, disabled and unparsed rows stay |
| StoreEffects.PollUsers | internal/users/store.go:664-778 | the dashboard after a poll, column by column: who has a row, both totals, the newest time seen, the last addresses reported, labels, and the disabled flag |
| StoreEffects.AddDecides | internal/users/store.go:241-321 | an add is refused for its email while a row not merely disabled has it, for its Client ID while another row has that, and else stores exactly this row |
| StoreEffects.EditDecides | internal/users/store.go:560-643 | an edit of a live user stores what it asks for, stamped unless nothing differs, and refuses a Client ID another row has |
| StoreEffects.FlagsDecide | internal/users/store.go:330-511 | disable, enable and delete move the two flags and the stamp, and only where they change something |
| StoreEffects.OthersUntouched | internal/users/store.go:241-643 | no mutation touches a row of anybody else |
| RosterPlan.PlanEdit | internal/roster/service.go:566-626 | the loops of the edit plan: detaches, owed detaches, then rotates and attaches |
| RosterPlan.PlanDelete | internal/roster/service.go:480-495 | every tag of the record and of the unfinished change, once, detached |
| RosterFlows.PlansCarry | internal/roster/service.go:574-626 | every planned operation that puts the user on an inbound carries the flow the configuration gives that inbound |
| RosterFlows.PlanAsksExactly | internal/roster/service.go:890-914 | the plan of a pass asks of an inbound exactly what some queued change asks of it: its user, its Client ID, the operation's flow |
| RosterEffects.AddEffects | internal/roster/service.go:258-303 | an add stores the row and queues one attach for each selected inbound with its flow, or nothing if none is selected |
| RosterEffects.EditEffects | internal/roster/service.go:323-404 | an edit stores row and labels and queues its plan in place of what was queued |
| RosterEffects.DeleteEffects | internal/roster/service.go:464-501 | a delete detaches the record's tags and every tag of what was queued, each once, and purges behind that; one whose mark fails only forgets |
| RosterEffects.DisableEffects | internal/roster/service.go:414-448 | a disable detaches the record's tags and those the queued change was joining |
| RosterEffects.EnableEffects | internal/roster/service.go:510-554 | an enable attaches what is left of the attachments, written off first where some vanished |
| RosterEffects.RequeueEffects | internal/roster/service.go:640-671 | convergence queues the attaches of the record as it was listed |
| RosterEffects.RecoverEffects | internal/roster/service.go:775-789 | a recovery queues for each row its detaches with the purge behind them, and touches nobody else |
| RosterSafety.DiffOpsOnTag | internal/roster/service.go:566-626 | the edit plan tag by tag: detached, rotated or attached exactly when |
| RosterSafety.PushKeeps | internal/xraygrpc/handler.go:92-98 | one pushed operation, or the remove of a rotate alone, keeps what settles the user |
| RosterSafety.StoppingKeeps | internal/roster/service.go:934-946 | wherever a pass stops, between a rotate's remove and add too, the same plan still settles the user |
| RosterSafety.FullRunIsExact | internal/roster/service.go:934-946 | run to the end the plan leaves exactly the record's tags with its Client ID |
| RosterSafety.RetriesConverge | internal/roster/service.go:1000-1023 | any number of stopped attempts and then a full one end where one full run does |
| RosterSafety.RunOnTag | internal/roster/service.go:1004-1023 | what a run makes of an inbound, whatever the order of its operations |
| RosterSafety.RetriesAgree | internal/roster/service.go:885-889 | from any state, for any plan whose leaves and joins are apart: stopped attempts change nothing about where a full run ends |
| RosterSafety.OrderIsIrrelevant | internal/roster/service.go:934-946 | nor does the order of the operations |
| RosterSafety.AddKeeps | internal/roster/service.go:296-298 | a first add's attaches settle a user who is nowhere |
| RosterSafety.EditKeeps | internal/roster/service.go:566-626 | an edit over an unfinished change, re-attaching no owed tag: its plan settles the user from wherever they are |
| RosterSafety.CleanEdit | internal/roster/service.go:568-569 | with nothing unfinished the difference takes the user from one record to the other |
| RosterSafety.ChainsConverge | internal/roster/service.go:566-626 | any chain of edits, each apply stopped anywhere: the last plan run to the end leaves exactly the last record |
| RosterSafety.EditsSettleExactly | internal/roster/service.go:585-626 | an edit settles every state its unfinished change may have left if and only if it re-attaches no tag whose detach is owed |
| RosterSafety.ReattachIsSwallowed | internal/roster/service.go:609-624 | when it does, the plain attach leaves the old credential in place |
| RosterLapses.OldCredentialStays | internal/roster/service.go:323-404 | a run from a fresh start that ends so: everything reads as applied, the row says one Client ID and the server holds the other |
| RosterSafety.DeleteKeeps | internal/roster/service.go:483-501 | a delete's detaches take the user off every inbound that may hold them |
| RosterSafety.FailedDeleteExactly | internal/roster/service.go:480-501 | a delete whose mark fails, then one that commits: every state the forgotten change may have left is emptied if and only if that change named no inbound outside the record |
| RosterSafety.DisableExactly | internal/roster/service.go:427-448 | a disable empties every state the change it replaces may have left if and only if that change owed no detach outside the record |
| RosterSafety.EnableExactly | internal/roster/service.go:510-554 | an enable, or an add of a disabled user, leaves the record, from every state the disable's change may have left, if and only if that change is settled |
| RosterSafety.DroppedExactly | internal/roster/service.go:480-492 | a change dropped by a failed write or a restart does no harm if and only if it was empty |
| RosterSafety.EditCovers | internal/roster/service.go:600-626 | the plan of an edit undoes whatever the change it replaced may still push |
| RosterSafety.EditCoversOlder | internal/roster/service.go:600-626 | and whatever that change in turn covered |
| RosterSafety.DeleteCovers | internal/roster/service.go:483-501 | so does the plan of a delete |
| RosterSafety.OlderRunKeeps | internal/roster/service.go:934-946 | operations of a replaced change that a pass is still pushing do not disturb the newer one |
| RosterSafety.EditPlansOnceExactly | internal/roster/service.go:574-626 | an edit plans at most one operation for an inbound if and only if the selection repeats no inbound it has something to do about |
| RosterFile.PlannedUniqueExactly | internal/xrayconfig/render.go:117-131 | the planned clients name nobody twice if and only if what is appended names nobody twice |
| RosterFile.DoubledAttachDoublesTheEntry | internal/roster/service.go:890-914 | an inbound attached twice by one change gives its clients array two entries of the user |
| RosterRuns.InvariantKept | internal/roster/service.go:258-973 | every step of the machine, careful mutations of all five kinds and convergence at its lock points interleaved with a pass that fails anywhere and restarts of xray, keeps file, server, store and queue in agreement |
| RosterRuns.RunsKeepTheInvariant | internal/roster/service.go:258-973 | so does every run |
| RosterRuns.SettledUsersHoldTheirRow | internal/roster/service.go:26-35 | in every such run, a user with nothing queued holds exactly their stored record, in the file and on the server; a disabled one nothing |
| RosterRuns.PurgesLeaveNothing | internal/roster/service.go:450-463 | in every such run a purge happens only when no file entry and no live credential of the user is left |
| RosterPurges.TrackedPurgesLeaveNothing | internal/roster/service.go:450-501 | the same in every run, failing writes, restarts and recoveries included, whose steps forget no inbound that row or queue names |
| RosterPurges.MutationsTrackExactly | internal/roster/service.go:323-554 | which edits and committed deletes never do; failed deletes, disables and enables exactly when the change they drop names an inbound outside the row |
| RosterPurges.RestartTracksExactly | internal/roster/service.go:775-789 | and a restart exactly when some queued change does |
| RosterRuns.DeletingIsQueued | internal/roster/service.go:450-463 | a row marked deleting has its purge queued |
| RosterRuns.FileLeads | internal/roster/service.go:882-886 | while a change is pushed the file already is as its row wants it |
| RosterRuns.QueuedOnce | internal/roster/service.go:574-626 | whatever is queued for a user names each inbound once |
| RosterProgress.CleanPassDrains | internal/roster/service.go:890-973 | from an idle state, a pass in which nothing fails empties the queue |
| RosterProgress.CleanPassSettlesEverybody | internal/roster/service.go:26-35 | however a run of failures went, one clean pass brings every user's file entries and live credentials to what is stored |
| RosterGenerations.QueuesKept | internal/roster/service.go:640-671 | a step, careful or not, keeps generations below the counter and purges with deleting rows if and only if it is not convergence queueing over a row marked deleting |
| RosterGenerations.PurgeQueuedExactlyForDeleting | internal/roster/service.go:775-789 | in every run without such a step, from a restart's recovery on, a purge is queued exactly for the rows marked deleting |
| RosterRecovery.WithoutRecoveryNothingIsPurged | internal/roster/service.go:775-789 | after a restart whose recovery fails no run ever queues the purge of a deleting row, or erases it |
| RosterRecovery.RecoveryErases | internal/roster/service.go:775-789 | a recovery and one pass in which nothing fails erase every row marked deleting |
| RosterConverge.OverwriteExactly | internal/roster/service.go:640-671 | queueing attaches over an unfinished change settles every state it may have left if and only if the record has the tags and the change only attaches some of them with the same Client ID |
| RosterConverge.QuietWindow | internal/roster/service.go:800-870 | with no mutation of the user between convergence's listing and its queueing, what it queues fits the row and overwrites nothing |
| RosterConverge.ConvergenceRepairsExactly | internal/roster/service.go:791-870 | what convergence queues brings the file to the record if and only if the file holds no other credential and no foreign entry of the user |
| RosterLapses.ConvergenceUndoesAnEdit | internal/roster/service.go:640-650 | a run from a fresh start in which an edit lands between convergence's second look and its queueing, and is undone |
| RosterLapses.ConvergenceDropsAPurge | internal/roster/service.go:640-650 | one in which a delete lands there, and its purge is lost |
| RosterGenerations.DeletingIsLeftAlone | internal/roster/service.go:464-501 | no mutation touches the row or the queued purge of a user marked deleting |
| RosterGenerations.PassesTouchOnlyTheirGeneration | internal/roster/service.go:158-166 | a pass settles or fails only the change whose generation it snapshotted |
| RosterGenerations.QueuedIsNewer | internal/roster/service.go:660-671 | a change queued mid-pass is newer than the snapshot and not failed |
| RosterGenerations.NewerStaysToTheEnd | internal/roster/service.go:890-973 | and is still pending and not failed when the pass ends |
| RosterGenerations.NoPushBeforeRender | internal/roster/service.go:882-932 | whatever is pushed was part of a snapshot rendered successfully before |
| RosterMarks.MarkedExactly | internal/roster/service.go:890-973 | a step marks a user failed exactly if it fails the queued change its pass took up, at the render, at a push or at the write of a purge, and clears the mark exactly if it settles or replaces the change |
| RosterMarks.MarkedIfLastFailed | internal/roster/service.go:158-166 | in every run a user is marked failed exactly if that is the last thing that happened to their change |
| RosterMarks.MarksWaitExactly | internal/roster/service.go:556-564 | a marked user has a change queued, and keeps having one exactly as long as no mutation takes it and queues none |
| RosterMarks.MarkOutlivesItsChange | internal/roster/service.go:464-501 | a run from a fresh start that ends otherwise: marked failed, nothing queued, and no pass can start |
| RosterLapses.FailedDeleteStrandsACredential | internal/roster/service.go:480-492 | a delete whose mark cannot be written over an owed detach loses it: the next delete purges over a live credential |
| RosterLapses.ErasedUserStillConnects | internal/roster/service.go:480-501 | a run from a fresh start that ends so: the user is erased from every table and still connects |
| RosterLapses.DisabledUserStillConnects | internal/roster/service.go:427-448 | one in which a disable drops an owed detach |
| RosterLapses.EnabledUserKeepsTheOldCredential | internal/roster/service.go:510-554 | one in which a disable and an enable over an unapplied rotation leave the old credential |
| RosterService.DedupeOrder | internal/roster/service.go:1091-1102 | first occurrences in order |
| RosterService.DedupedOnce | internal/roster/service.go:1091-1102 | with no repeats and the same members |
| RosterService.DedupedConcat | internal/roster/service.go:1091-1102 | of a concatenation: the first part without repeats, then what it lacks of the second |
| RosterService.PrunedParts | internal/roster/service.go:352-375 | what is kept and what is pruned of attachments, whatever stands before them |
| RosterService.Select | internal/roster/service.go:352-375 | the selection an edit stores: kept tags pruned, unknown requested tags refused |
| RosterService.Service.TakePending | internal/roster/service.go:556-564 | the unapplied change leaves the queue, its operations returned |
| RosterService.Service.Enqueue | internal/roster/service.go:660-671 | a new generation, the failed mark shed |
| RosterService.Service.Add | internal/roster/service.go:258-303 | answer, store and queue after an add, refusals and a failing write included |
| RosterService.Service.Edit | internal/roster/service.go:323-404 | answer, store and queue after an edit, refusals and a failing write included |
| RosterService.Service.Disable | internal/roster/service.go:414-448 | store and queue after a disable |
| RosterService.Service.Delete | internal/roster/service.go:464-501 | store and queue after a delete, a failed mark included |
| RosterService.Service.Enable | internal/roster/service.go:510-554 | answer, store and queue after an enable, vanished attachments pruned by a second write that may fail |
| RosterService.LackingTags | internal/roster/service.go:846-862 | the listed attachments the file has lost, in order |
| RosterService.Service.MarkRenderFailed | internal/roster/service.go:920-932 | a failed render marks exactly the changes of its snapshot that were not replaced |
| RosterService.Service.SettleChange | internal/roster/service.go:946-971 | the end of one user's pushes: marked failed if a push or the purge failed and the change was not replaced, else settled or purged; nobody else's mark or change moves |
| RosterService.Service.RecoverDeletes | internal/roster/service.go:775-789 | the purge of exactly the rows marked deleting queued again, or nothing when they cannot be read |
| RosterService.Service.Sync | internal/roster/service.go:673-688 | failed while anybody is marked, pending while anything is queued, else synced |
| RosterService.Service.UserStates | internal/roster/service.go:690-704 | everybody with a queued change or a mark, the marked ones as failed |
| RosterService.Xray.PushChange | internal/roster/service.go:934-946 | the pushes stop at the first failure, which may have landed: the server is where a stopped run leaves it |
| RosterService.Xray.PushOp | internal/roster/service.go:1000-1023 | one operation, a rotate as remove and add, however much of it reached the server |
| RosterFile.BuildPlan | internal/roster/service.go:890-914 | the plan of a pass gathers every pending operation by inbound and kind, in whatever order the map is walked |
| RosterFile.PlansAreDisjoint | internal/roster/service.go:890-914 | per inbound it asks at most one thing of an email |
| RosterFile.RenderedEntry | internal/xrayconfig/render.go:34-46 | what a render makes of a user's credential on an inbound is what the user's operations say |
| RosterFile.RenderIsAPush | internal/roster/service.go:882-886 | so the file's half of a pass does to an entry what the pushes do to the server |
| Traffic.Tracker.constructor | internal/reconcile/reconcile.go:31-33 | a tracker that has seen nothing |
| Traffic.Tracker.Add | internal/reconcile/reconcile.go:38-58 | one reading folded into total, last delta and ring, in place |
| Traffic.Tracker.Speed | internal/reconcile/reconcile.go:67-82 | the rate over the last two deltas of whatever was fed |
| Traffic.RateIs | internal/reconcile/reconcile.go:77-81 | the rate is the whole number of bytes a second that fits the bytes and the span, and none for no span |
| Traffic.TrackerHolds | internal/reconcile/reconcile.go:35-65 | after any readings: the total is the sum of their deltas, and the ring holds exactly the last two |
| Traffic.NeverOverCounts | internal/reconcile/reconcile.go:35-58 | the running total is at most the true traffic, and equals it exactly when every interval has no restart, or one that shows as a drop and lost nothing |
| Traffic.TotalsNeverExceedTraffic | internal/reconcile/reconcile.go:35-61 | so is the tracker's, for any counter that restarts any number of times between polls |
| TrafficCollector.Collector.Note | internal/users/collector.go:164-195 | one raw reading: trackers fed, first contact seeded or resumed, delta pending |
| TrafficCollector.Collector.ListPending | internal/users/collector.go:196-199 | the pending map as a list, each user once, in whatever order |
| TrafficCollector.Collector.SampleRoster | internal/users/collector.go:225-239 | a roster whose version moved waits to be stored |
| TrafficCollector.Collector.FlushRoster | internal/users/collector.go:241-261 | it is stored on its own, or keeps waiting |
| TrafficCollector.Collector.Collect | internal/users/collector.go:109-223 | one poll with any of its three calls failing: what is stored, which roster with it, and which roster still waits |
| TrafficCollector.Collector.Purge | internal/users/collector.go:263-275 | every in-memory trace of one email dropped |
| TrafficCollector.ListsCarry | internal/users/collector.go:196-199 | the listed deltas carry each user's pending bytes |
| TrafficCollector.PollBalances | internal/users/collector.go:109-223 | a poll keeps the books balanced whichever of its calls fail |
| TrafficCollector.BooksBalance | internal/users/collector.go:20-42 | in every run: stored + pending = opening balance + first-contact seed + what the trackers counted |
| Accounts.AccountsAreReadings | internal/users/collector.go:109-275 | in every run, from the readings alone: a row holds its opening balance and the worth of the readings stored since, the rest is pending, and a first reading is worth its counter exactly if the user had no row then |
| Accounts.PollShowsActivity | internal/users/collector.go:172-195 | a stored poll marks a user as seen exactly if a reading not stored before moved a counter, a first one never, presence aside |
| FileSource.Watcher.Reload | internal/filesource/watcher.go:176-215 | the value is swapped only when read and parse succeed, and subscribers hear of it only then |
| FileSource.Watcher.RecordFailure | internal/filesource/watcher.go:217-232 | a failure keeps the value, stale if there is one |
| FileSource.LastGoodSurvives | internal/filesource/watcher.go:16-22 | over any reads: the value is the last published one, stale exactly when the last reload failed over one |
| RosterSource.BuildRosterParse | internal/xrayconfig/xrayconfig.go:179-225 | the nested loops gather, email by email, labels, first Client ID and attachments |
| RosterSource.ClientsAreLabelled | internal/xrayconfig/xrayconfig.go:179-225 | every client has a label |
| RosterSource.TagsAre | internal/xrayconfig/xrayconfig.go:184-189 | attachments are the tagged VLESS inbounds that list the email, each once |
| RosterSource.TagsInOrder | internal/xrayconfig/xrayconfig.go:184-189 | in the order of the configuration |
| RosterReads.IdIs | internal/xrayconfig/xrayconfig.go:190-225 | the Client ID is that of the first entry of the email on a VLESS inbound |
| RosterReads.RosterIs | internal/xrayconfig/xrayconfig.go:179-225 | by position: labelled is whoever some inbound names, with those entries' labels once each; a client is whoever a VLESS inbound names, with the first such Client ID and the tags of those inbounds |
| RosterSource.SameIsEqual | internal/xrayconfig/source.go:72-82 | two rosters are the same exactly when nothing in them differs |
| RosterSource.VersionCountsChanges | internal/xrayconfig/source.go:56-70 | the version counts the real changes of the roster |
| RosterSource.SameVersionSameRoster | internal/xrayconfig/source.go:32-35 | the version never falls, and stands still only with the roster |
| Uri.EncodeURIComponent | internal/profiles/uri.go:90-104 | the byte loop writes the percent-encoding |
| Uri.DecodeEncoded | internal/profiles/uri.go:90-109 | for all byte values: decoding what was encoded gives it back |
| Uri.EncodedCharacters | internal/profiles/uri.go:90-109 | an encoded value is made of kept characters and escapes |
| Uri.EncodedExactly | internal/profiles/uri.go:90-109 | unreserved characters stand for themselves, and everything else of an encoding is a percent sign with two upper-case digits |
| Uri.SerializeQuery | internal/profiles/uri.go:77-85 | the loop joins the fields with & and = |
| Uri.QueryRoundTrip | internal/profiles/uri.go:77-85 | splitting at & and at each first = and decoding returns the field list |
| Uri.MalformedEscape | internal/api/user_detail.go:89-98 | the scan rejects exactly the strings with a % that starts no valid escape |
| Uri.MalformedUserEmailEscape | internal/api/user_detail.go:82-100 | it looks only behind the users prefix and before the query |
| Uri.SegmentIs | internal/api/user_detail.go:82-90 | that is what stands behind the first users prefix of the path, if there is one |
| Uri.WellEscapedExactly | internal/api/user_detail.go:89-104 | a text passes if and only if two hexadecimal digits follow every percent sign |
| Uri.AcceptedIsDecodable | internal/api/user_detail.go:82-104 | what it accepts is exactly what can be decoded |
| Uri.EncodedIsAccepted | internal/api/user_detail.go:82-104 | every encoded string passes |

## Left out

* HTTP handlers, authentication, sockets, gRPC dialling, file reads and renames, log lines, the wait for a pass to settle and the
  retry timers: only whether a call succeeds is kept, as a parameter.
* SQL text and schema migrations: tables are maps, a transaction is one step. Emails are one exact identity, already lower-cased;
  Client IDs are compared exactly, as the canonical spellings they are stored in.
* Trimming and UUID parsing of API input, JSON string escaping, case folding beyond the one used on `vless`: an abstract codec
  stands for `json.Marshal` and `json.Unmarshal` on strings, of which only the round trip and plain lower-case keys are assumed.
* Characters stand for the document's bytes.
* Races between two mutations, and between a poll and a purge: mutations, polls and purges are atomic, a pass is broken at its lock
  and push points, convergence at its lock points.
* In the roster machine: hand edits of the file (for one user: `RosterConverge.ConvergenceRepairsExactly`), and polls, which adopt
  clients and merge attachments (in the tables: `StoreLaws.PollKeepsTheRoster`). A restart of xray is a step: it loads the file.
- RenderClients.RenderIsTheEditedDocument: over documents whose edited clients arrays have unique emails and no trailing comma, and plans that do not remove a final entry with its predecessor or the only entry of an array that gets an append; `RenderOutcome.RenderComesRight` and `RenderedClients.RenderRead` cover trailing commas and removed last pairs that fit, and `RenderLimits` and `RenderMisses` say exactly when they do and what becomes of the others.
- RenderMisses.AppendComesOutExactly: the only-if is over plans that only append to the array, new entries that hold no end of a comment, and a bracket whose line does not begin in a comment between the entries or, inside an entry, at a brace.
- RosterRuns.RunsKeepTheInvariant: over runs of careful steps, in which no edit re-attaches an owed tag, no disable drops an owed detach, no add or enable meets an unfinished change, no write fails over one, convergence is not overtaken, and a restart finds the queue empty; each condition is exact for its step, see the list above, and `RosterPurges` and `RosterGenerations` are about the other runs.
- RosterPurges.TrackedPurgesLeaveNothing: a re-add of a disabled user counts as forgetting the inbounds it leaves out even if the disable is applied; `RosterRuns.PurgesLeaveNothing` covers it then.
- RenderLimits.RemovingTheLastPairFitsExactly: about one array at a time, every other inbound coming right; with two pairs that do not fit, whether one can by accident make up for the other is not said.
- JsoncSpans.HangsBehindAnyEntries: a family of texts, not all from which the parser never returns; which round hangs is exact.
* Convergence: pruning attachments of vanished inbounds is not a step, the set of managed inbounds is fixed; a push to an inbound that vanished between planning and pushing is not modelled.
- Traffic.Tracker.Speed: exact arithmetic, rounded down; the source divides in floating point.
- TrafficCollector.Collector.Collect: up to the transaction and its bookkeeping; the snapshot with online marks, speeds and countries is not part of this model, and trackers are values in a map where the source keeps pointers.
- RosterSource.BuildRosterParse: the spelling of protocol, security and transport labels is a function the method is given.
- Uri.SerializeQuery: the choice of fields by profile is not part of this model; any field list is covered whose names hold neither & nor =.
- TrafficCollector.BooksBalance: a purge whose table write fails has already dropped the user's pending bytes; the account is then reopened at what the row holds.
* Byte counts are natural numbers: overflow of 64-bit counters is not modelled.
* The SVG path of a symbol, profile evaluation, advertisement parsing, snapshot caches, sessions, geolocation, the xray status and
  all components of the web interface.
- RosterService.Xray.PushOp: what the server keeps of a user is the Client ID only; that the flow asked for is the configured one is `RosterFlows.PlansCarry`.
