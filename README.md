# Software II components and programs, modelled in Dafny

The modelled repository holds coursework components and programs in Java, built on the
OSU component library: queues, stacks, sequences, maps and sets, plus a BL tokenizer and
reporter. This project models these parts of it:

- **BL parser.** `Statement1Parse1` parses BL statements (IF, IF/ELSE, WHILE, calls and
  blocks) from a queue of tokens. `Program1Parse1` parses a whole BL program: its new
  instructions, its body and the end-of-input marker. Each parse is modelled twice: as
  functions on the token sequence, and as methods that consume the tokens the way the
  source does. A grammar predicate (`BLSyntax.Derives`) gives the concrete text of each
  statement. Lemmas prove the parser sound and complete against that grammar, prove the
  grammar unambiguous, and prove every error path the source reports.
- **`Queue1LSort4`.** Queue quicksort with `partition`. `sort` as written sorts the two
  partitions with the component library's `Queue1L.sort`. It is proved to produce a
  sorted permutation, with the pivot between the two sorted parts. A recursive quicksort,
  as the code's comment describes it, is proved to produce a sorted permutation too.
- **Two-stack sequence.** `SequenceTest.setLengthOfLeftStack` and the
  two-stack sequence `Sequence3`: a sequence kept as a reversed left stack
  followed by a right stack.
- **Waiting line.** The kernel `WaitingLine1` (over a sequence) and the secondary methods
  of `WaitingLineSecondary`.
- **Three word-counting programs.** `TagCloudGeneratorStandard` and `TagCloudGenerator`
  (word/separator tokenising, counting into maps, comparators, font-size scaling) and
  `WordCounter` (counting words into a map plus a list of distinct words).
- **`JCFExplorations`.** `giveRaise` and `incrementAll`.
- **`EmailAccount1`.** Accounts whose dot numbers come from a registry shared by all
  accounts.

Module layout:

| Module | Files |
|---|---|
| `Text` | `text.dfy`: characters and strings, `compareTo`, `Integer.toString`, Java division |
| `Tally` | `tally.dfy`: counting words into a map |
| `BLSyntax`, `StatementParser`, `ProgramParser` | `bl_syntax.dfy`, `bl_statement.dfy`, `bl_program.dfy` |
| `QueueSort` | `queue_sort.dfy` |
| `TwoStack`, `SequenceOnStack` | `two_stack.dfy`, `sequence_on_stack.dfy` |
| `WaitingLines` | `waiting_line.dfy` |
| `TagCloudStandard`, `TagCloud`, `WordCounting` | `tag_cloud_standard.dfy`, `tag_cloud.dfy`, `word_counter.dfy` |
| `Collections` | `jcf_explorations.dfy` |
| `EmailAccounts` | `email_accounts.dfy` |

## Model

| member | source | states |
|---|---|---|
| BLSyntax.ConditionOf | BLParser/src/Statement1Parse1.java:33-38 | the condition keeps the token's length; every '-' becomes '_' and every other character is upper-cased |
| StatementParser.Closing | BLParser/src/Statement1Parse1.java:103-111 | a construct closes exactly when END and then its keyword follow; otherwise the error names the missing END or the wrong keyword |
| StatementParser.ParseCall | BLParser/src/Statement1Parse1.java:191-200 | a call consumes exactly the identifier token and yields Call of it |
| StatementParser.ParseIf | BLParser/src/Statement1Parse1.java:61-115 | the token-consuming parse of IF agrees with the function ParsedIf, including every error |
| StatementParser.ParseWhile | BLParser/src/Statement1Parse1.java:139-172 | the token-consuming parse of WHILE agrees with ParsedWhile |
| StatementParser.Parse | BLParser/src/Statement1Parse1.java:220-242 | the dispatch on the front token agrees with ParsedStatement |
| StatementParser.ParseBlock | BLParser/src/Statement1Parse1.java:246-268 | the block loop, which parses statements while the front token starts one, agrees with ParsedBlock |
| StatementParser.StatementSound | BLParser/src/Statement1Parse1.java:220-242 | a successful parse consumes a prefix of the tokens that is the concrete text of the parsed statement |
| StatementParser.IfSound | BLParser/src/Statement1Parse1.java:61-115 | a successful IF parse consumes exactly the text of the If or IfElse it returns |
| StatementParser.WhileSound | BLParser/src/Statement1Parse1.java:139-172 | a successful WHILE parse consumes exactly the text of the While it returns |
| StatementParser.BlockSound | BLParser/src/Statement1Parse1.java:246-268 | a successful block parse consumes exactly the concatenated texts of its children |
| StatementParser.BlockFromSound | BLParser/src/Statement1Parse1.java:259-267 | continuing a block after some statements keeps them and consumes the text of the rest |
| StatementParser.StatementComplete | BLParser/src/Statement1Parse1.java:220-242 | the text of any statement, followed by anything, parses back to that statement and leaves the rest untouched |
| StatementParser.IfComplete | BLParser/src/Statement1Parse1.java:61-115 | the text of any If parses back to it |
| StatementParser.IfElseComplete | BLParser/src/Statement1Parse1.java:89-102 | the text of any IfElse parses back to it |
| StatementParser.WhileComplete | BLParser/src/Statement1Parse1.java:139-172 | the text of any While parses back to it |
| StatementParser.BlockComplete | BLParser/src/Statement1Parse1.java:246-268 | the texts of a statement sequence, followed by a token that starts no statement, parse back to that Block |
| StatementParser.BlockFromComplete | BLParser/src/Statement1Parse1.java:259-267 | the block loop appends each parsed child to those already parsed |
| StatementParser.Unambiguous | BLParser/src/Statement1Parse1.java:220-242 | a token sequence is the text of at most one statement |
| StatementParser.CallConsumesOneToken | BLParser/src/Statement1Parse1.java:191-200 | a statement starting with an identifier is the call of it, and only that token is consumed |
| StatementParser.ParseRejectsNonStarter | BLParser/src/Statement1Parse1.java:226-230 | a front token that is not IF, WHILE or an identifier is a fatal error naming that token |
| StatementParser.EmptyBlockConsumesNothing | BLParser/src/Statement1Parse1.java:246-268 | a block in front of END is empty and consumes nothing |
| StatementParser.BlockRejectsOtherFront | BLParser/src/Statement1Parse1.java:246-268 | a block whose front token neither starts a statement nor is END is a fatal error |
| StatementParser.EmptyThenBeforeElseRejected | BLParser/src/Statement1Parse1.java:61-102 | IF c THEN ELSE is rejected: the then-block may not be empty before an ELSE |
| StatementParser.WhileRejections | BLParser/src/Statement1Parse1.java:139-172 | a WHILE fails on a non-condition, on a missing DO, and on a missing END WHILE, each with its own message |
| StatementParser.IfKinds | BLParser/src/Statement1Parse1.java:85-113 | after the then-block, ELSE leads to IfElse, END IF to If, and anything else to an error |
| StatementParser.StatementKind | BLParser/src/Statement1Parse1.java:232-241 | the parsed statement's kind is given by the front token: IF gives If or IfElse, WHILE gives While, an identifier gives Call |
| StatementParser.StatementNotExhausted | BLParser/src/Statement1Parse1.java:220-242 | when the tokens end with the end-of-input marker, no parse reads past it, and a successful parse leaves it in place |
| StatementParser.IfNotExhausted | BLParser/src/Statement1Parse1.java:61-115 | the same for IF |
| StatementParser.WhileNotExhausted | BLParser/src/Statement1Parse1.java:139-172 | the same for WHILE |
| StatementParser.BlockNotExhausted | BLParser/src/Statement1Parse1.java:246-268 | the same for blocks |
| ProgramParser.ParseInstruction | BLParser/src/Program1Parse1.java:55-93 | the token-consuming parse of a new instruction agrees with ParsedInstruction |
| ProgramParser.BLProgram.Parse | BLParser/src/Program1Parse1.java:119-183 | the parse agrees with ParsedProgram; on success the program's name, body and context are the parsed ones |
| ProgramParser.InstructionSound | BLParser/src/Program1Parse1.java:55-93 | a parsed instruction consumes exactly its text: INSTRUCTION, a non-primitive name, IS, the body and END with the same name |
| ProgramParser.InstructionsSound | BLParser/src/Program1Parse1.java:140-154 | the instruction loop consumes the texts of declarations with distinct new names and adds them to the context |
| ProgramParser.ProgramSound | BLParser/src/Program1Parse1.java:119-183 | a parsed program consumes exactly its text, ending with the end-of-input marker |
| ProgramParser.ProgramBodySound | BLParser/src/Program1Parse1.java:160-182 | BEGIN, the body, END, the program name and the marker are consumed and the body is kept |
| ProgramParser.InstructionComplete | BLParser/src/Program1Parse1.java:55-93 | the text of any instruction parses back to its name and body |
| ProgramParser.InstructionsComplete | BLParser/src/Program1Parse1.java:140-154 | the texts of distinct new instructions parse back to the context extended by them |
| ProgramParser.ProgramComplete | BLParser/src/Program1Parse1.java:119-183 | the text of any program parses back to it |
| ProgramParser.ParsedInstructions | BLParser/src/Program1Parse1.java:140-154 | the instruction loop only adds to the context |
| ProgramParser.PrimitiveNameRejected | BLParser/src/Program1Parse1.java:67-74 | an instruction named after a primitive is a fatal error |
| ProgramParser.InstructionNameMismatchRejected | BLParser/src/Program1Parse1.java:88-89 | an instruction whose END name differs from its name is a fatal error |
| ProgramParser.DuplicateRejected | BLParser/src/Program1Parse1.java:145 | an instruction whose name is already in the context is a fatal error |
| ProgramParser.ProgramNameMismatchRejected | BLParser/src/Program1Parse1.java:171 | a program whose END name differs from its name is a fatal error |
| ProgramParser.MarkerMissingRejected | BLParser/src/Program1Parse1.java:175-178 | a token after END name other than the end-of-input marker is a fatal error |
| ProgramParser.ProgramNameUnchecked | BLParser/src/Program1Parse1.java:131 | the program name is read without any check, so PROGRAM followed only by the marker reads past the marker |
| QueueSort.Partition | QueueQuicksort/src/Queue1LSort4.java:64-88 | the front queue receives the entries not above the partitioner and the back queue the rest, each in their original order; the queue is emptied |
| QueueSort.DistributeNext | QueueQuicksort/src/Queue1LSort4.java:73-82 | one round of the partition loop: the front entry joins the front part or the back part by the comparison, and the partition so far grows by that entry |
| QueueSort.PartPermutation | QueueQuicksort/src/Queue1LSort4.java:36-63 | the two parts together are a permutation of the queue |
| QueueSort.PartSide | QueueQuicksort/src/Queue1LSort4.java:36-63 | every entry of the front part is ordered at or before the partitioner, every entry of the back part after it |
| QueueSort.PartKeepsOrder | QueueQuicksort/src/Queue1LSort4.java:64-88 | each part is a subsequence of the queue |
| QueueSort.Queue.Sort | QueueQuicksort/src/Queue1LSort4.java:91-121 | for a total preorder, the queue becomes a sorted permutation of its old entries. A queue of at most one entry is left as it is. A longer one ends as the entries partitioned in front of the first entry, sorted, then that entry, then the entries partitioned behind it, sorted |
| QueueSort.Queue.LibrarySort | QueueQuicksort/src/Queue1LSort4.java:109-110 | `Queue1L.sort` on a partition: for a total preorder, the entries end sorted and a permutation of the old ones |
| QueueSort.AroundPivotSorted | QueueQuicksort/src/Queue1LSort4.java:111-120 | for a total preorder, the two sorted partitions around the pivot make a sorted permutation of the whole queue |
| QueueSort.Rebuilt | QueueQuicksort/src/Queue1LSort4.java:111-120 | the queue rebuilt from the sorted partitions and the pivot has the pivot between its two sorted parts and is a sorted permutation of the old queue |
| QueueSort.PivotBounds | QueueQuicksort/src/Queue1LSort4.java:36-63 | for a total preorder, the last entry of a permutation of the front part is related to the partitioner, and the partitioner is related to the first entry of a permutation of the back part |
| QueueSort.Queue.QuickSort | QueueQuicksort/src/Queue1LSort4.java:91-121 | sort with the partitions sorted recursively, as the comment at line 108 says: the queue becomes QuickSorted of its old entries |
| QueueSort.SortTiesOpen | QueueQuicksort/src/Queue1LSort4.java:102-110 | comparing by tens is a total preorder. On <20, 1, 2>, sort's contract admits <1, 2, 20>, while the recursive quicksort gives <2, 1, 20> |
| QueueSort.Queue.Append | QueueQuicksort/src/Queue1LSort4.java:113-120 | the reassembly loop appends the other queue's entries in order and empties it |
| QueueSort.QuickSortedPermutation | QueueQuicksort/src/Queue1LSort4.java:91-121 | the recursive quicksort yields a permutation of the entries |
| QueueSort.QuickSortedSorted | QueueQuicksort/src/Queue1LSort4.java:91-121 | for a total preorder, the recursive quicksort yields entries in order |
| QueueSort.SortedJoin | QueueQuicksort/src/Queue1LSort4.java:111-120 | the reassembly of two sorted parts around the pivot is sorted when the pivot sits between them |
| QueueSort.ShortQueueUnchanged | QueueQuicksort/src/Queue1LSort4.java:93-96 | a queue of length at most one is left as it is |
| TwoStack.Shifted | SequenceTest/src/SequenceTest.java:16-39 | the shifted stacks keep reversed-left followed by right, and the left stack has the requested length |
| TwoStack.ShiftedUnique | SequenceTest/src/SequenceTest.java:16-39 | the contract of setLengthOfLeftStack determines its result uniquely |
| TwoStack.SetLengthOfLeftStack | SequenceTest/src/SequenceTest.java:40-58 | moving entries between the stacks one at a time ends in exactly Shifted |
| TwoStack.Move | SequenceTest/src/SequenceTest.java:46-57 | k entries moved one at a time: the destination gains the top k of the source in reverse, the source keeps the rest |
| TwoStack.ShiftedAtLength | SequenceTest/src/SequenceTest.java:40-58 | asking for the current left length changes nothing |
| TwoStack.AsWrittenShift | SequenceOnStack/src/Sequence3.java:56-82 | as written, the loop ends with the stacks unchanged when no shift is needed |
| TwoStack.AsWrittenAborts | SequenceOnStack/src/Sequence3.java:56-82 | as written, any needed shift never finishes: the counter is never updated, so the loop pops until a stack is empty |
| TwoStack.AsWrittenCounterexample | SequenceOnStack/src/Sequence3.java:56-82 | left empty, right holding one entry, length 1 asked: the loop pops an empty stack, where the contract asks for the entry to move left |
| SequenceOnStack.Sequence3.constructor | SequenceOnStack/src/Sequence3.java:87-101 | a new sequence is empty, on two fresh stacks |
| SequenceOnStack.Sequence3.Clear | SequenceOnStack/src/Sequence3.java:119-121 | the sequence becomes empty |
| SequenceOnStack.Sequence3.TransferFrom | SequenceOnStack/src/Sequence3.java:124-138 | this takes the source's value and the source becomes empty |
| SequenceOnStack.Sequence3.Add | SequenceOnStack/src/Sequence3.java:145-153 | x is inserted at pos, with the other entries kept in order |
| SequenceOnStack.Sequence3.Remove | SequenceOnStack/src/Sequence3.java:156-162 | corrected: the entry at pos is returned and removed, with the others kept in order |
| SequenceOnStack.Sequence3.RemoveAsWritten | SequenceOnStack/src/Sequence3.java:156-162 | as written, the left stack is popped, so the entry at pos - 1 is returned and removed |
| SequenceOnStack.Sequence3.Length | SequenceOnStack/src/Sequence3.java:165-169 | the sum of the stack lengths is the sequence length |
| SequenceOnStack.Sequence3.Iterator | SequenceOnStack/src/Sequence3.java:172-175 | the value is unchanged, all entries move to the right stack, and iteration visits them in order |
| SequenceOnStack.Sequence3.Entry | SequenceOnStack/src/Sequence3.java:197-207 | the entry at pos is returned and the value is unchanged |
| SequenceOnStack.Sequence3.Flip | SequenceOnStack/src/Sequence3.java:182-190 | corrected: the value is reversed |
| SequenceOnStack.Sequence3.FlipAsWritten | SequenceOnStack/src/Sequence3.java:182-190 | as written, both stack fields end up as the same empty stack: the entries are lost and the representation is broken |
| WaitingLines.WaitingLine.constructor | WaitingLineFamilyDesign/src/components/waitingline/WaitingLine1.java:41-43 | a new line is empty |
| WaitingLines.WaitingLine.TransferFrom | WaitingLineFamilyDesign/src/components/waitingline/WaitingLine1.java:60-65 | this takes the source's entries and the source becomes empty |
| WaitingLines.WaitingLine.Clear | WaitingLineFamilyDesign/src/components/waitingline/WaitingLine1.java:68-71 | the line becomes empty |
| WaitingLines.WaitingLine.JoinLine | WaitingLineFamilyDesign/src/components/waitingline/WaitingLine1.java:78-81 | x joins at the end |
| WaitingLines.WaitingLine.LeaveLine | WaitingLineFamilyDesign/src/components/waitingline/WaitingLine1.java:84-86 | the first entry is removed and returned |
| WaitingLines.WaitingLine.SizeOfLine | WaitingLineFamilyDesign/src/components/waitingline/WaitingLine1.java:89-91 | the number of entries |
| WaitingLines.WaitingLine.Iterator | WaitingLineFamilyDesign/src/components/waitingline/WaitingLine1.java:94-96 | iteration visits the entries front to back |
| WaitingLines.WaitingLine.FirstInLine | WaitingLineFamilyDesign/src/components/waitingline/WaitingLineSecondary.java:84-88 | the first entry, with the line unchanged |
| WaitingLines.WaitingLine.ReplaceFirstInLine | WaitingLineFamilyDesign/src/components/waitingline/WaitingLineSecondary.java:91-102 | the first entry is returned and replaced by x; the rest is unchanged |
| WaitingLines.WaitingLine.AppendToLine | WaitingLineFamilyDesign/src/components/waitingline/WaitingLineSecondary.java:105-109 | q's entries are appended and q is emptied |
| WaitingLines.WaitingLine.RemoveFromLineAt | WaitingLineFamilyDesign/src/components/waitingline/WaitingLineSecondary.java:112-120 | as written, the entry at pos is returned, but the line left is the entries after pos followed by those before it; a negative pos moves nothing and removes the first entry |
| WaitingLines.WaitingLine.RemoveFromLine | WaitingLineFamilyDesign/src/components/waitingline/WaitingLineSecondary.java:123-138 | as written, the first position of element is returned, and the rest is left rotated the same way |
| WaitingLines.WaitingLine.IsInLine | WaitingLineFamilyDesign/src/components/waitingline/WaitingLineSecondary.java:141-153 | the answer is membership; as written, a found element is left rotated to the front |
| WaitingLines.WaitingLine.ToString | WaitingLineFamilyDesign/src/components/waitingline/WaitingLineSecondary.java:66-77 | "<", the entries' strings joined by ",", then ">" |
| WaitingLines.WaitingLine.Equals | WaitingLineFamilyDesign/src/components/waitingline/WaitingLineSecondary.java:24-48 | true exactly when both lines hold the same entries in the same order |
| WaitingLines.WaitingLine.RemoveFromLineInOrder | WaitingLineFamilyDesign/src/components/waitingline/WaitingLine.java:69-78 | corrected: the entry at pos is returned and removed, with the others kept in order |
| WaitingLines.WaitingLine.RemoveElementInOrder | WaitingLineFamilyDesign/src/components/waitingline/WaitingLine.java:80-89 | corrected: element's first position is returned and that entry removed, with the others kept in order |
| WaitingLines.WaitingLine.IsInLineRestoring | WaitingLineFamilyDesign/src/components/waitingline/WaitingLineSecondary.java:141-153 | corrected: membership, with the line restored |
| WaitingLines.WaitingLine.PlaceInLine | WaitingLineFamilyDesign/src/components/waitingline/WaitingLineSecondary.java:156-165 | corrected: the first position of element, with the line unchanged |
| WaitingLines.RemovedRotatedEntries | WaitingLineFamilyDesign/src/components/waitingline/WaitingLineSecondary.java:112-120 | the rotated removal loses only the removed entry |
| WaitingLines.RemovedInOrderEntries | WaitingLineFamilyDesign/src/components/waitingline/WaitingLine.java:69-78 | the in-order removal loses only the removed entry |
| WaitingLines.RotatedEntries | WaitingLineFamilyDesign/src/components/waitingline/WaitingLineSecondary.java:141-153 | the rotation keeps the entries and brings the found one to the front |
| WaitingLines.RotationCounterexample | WaitingLineFamilyDesign/src/components/waitingline/WaitingLineSecondary.java:112-153 | on <1,2,3>, removing at 1 leaves <3,1> rather than <1,3>, and looking for 2 leaves <2,3,1> |
| WaitingLines.ShownShortLines | WaitingLineFamilyDesign/src/components/waitingline/WaitingLineSecondary.java:66-77 | an empty line shows as "<>" and a one-entry line without a comma |
| WaitingLines.RemoveFromLineAsSpecified | WaitingLineFamilyDesign/src/components/waitingline/WaitingLine.java:69-78 | under the interface's precondition pos <= length, the removal succeeds exactly when pos < length |
| WaitingLines.RemoveAtLengthFails | WaitingLineFamilyDesign/src/components/waitingline/WaitingLine.java:75 | pos equal to the length passes the precondition, but there is no entry to remove |
| WaitingLines.PlaceInLineAsWritten | WaitingLineFamilyDesign/src/components/waitingline/WaitingLineSecondary.java:156-165 | as written, a position is found only when element is first in line; otherwise an empty line is read |
| WaitingLines.PlaceInLineCounterexample | WaitingLineFamilyDesign/src/components/waitingline/WaitingLineSecondary.java:156-165 | for <1,2> and element 2 the code reads from an empty line, where position 1 is due |
| TagCloudStandard.KindIsIndex | TagCloudGeneratorStandard/src/TagCloudGeneratorStandard.java:33 | a character's kind is its index in the separator string, or -1 when it is not a separator |
| TagCloudStandard.NextWordOrSeparator | TagCloudGeneratorStandard/src/TagCloudGeneratorStandard.java:118-130 | the scan returns the token at position |
| TagCloudStandard.TokenIsMaximalRun | TagCloudGeneratorStandard/src/TagCloudGeneratorStandard.java:118-130 | the token is a nonempty slice of the text whose characters are all of the first character's kind, and it cannot be extended |
| TagCloudStandard.RunEndIsMaximal | TagCloudGeneratorStandard/src/TagCloudGeneratorStandard.java:123-128 | the scan stops exactly at the first character of a different kind |
| TagCloudStandard.TokensCoverLine | TagCloudGeneratorStandard/src/TagCloudGeneratorStandard.java:141-156 | the tokens of a line concatenate back to the line |
| TagCloudStandard.SeparatorReadingsDiffer | TagCloudGeneratorStandard/src/TagCloudGeneratorStandard.java:102-130 | the code splits ", " into "," and " ", where the javadoc's maximal separator string is ", " |
| TagCloudStandard.CountedAsDocumented | TagCloudGeneratorStandard/src/TagCloudGeneratorStandard.java:102-156 | the code's scan and the javadoc's reading count the same words in the same order, so getCountMap's counts are the same under both |
| TagCloudStandard.CountedAreWords | TagCloudGeneratorStandard/src/TagCloudGeneratorStandard.java:145 | the counted tokens are nonempty words that start with no separator |
| TagCloudStandard.GetCountMap | TagCloudGeneratorStandard/src/TagCloudGeneratorStandard.java:141-156 | the map returned is the given map with each lower-cased word token of the line counted once more |
| TagCloudStandard.CountWord | TagCloudGeneratorStandard/src/TagCloudGeneratorStandard.java:145-153 | a word's count goes up by one, starting from 1 |
| TagCloudStandard.CountStep | TagCloudGeneratorStandard/src/TagCloudGeneratorStandard.java:141-156 | one loop step preserves "the map, once the rest is counted, equals the final tally" |
| TagCloudStandard.CountNext | TagCloudGeneratorStandard/src/TagCloudGeneratorStandard.java:141-156 | one round of the loop keeps "the map, once the rest is counted, equals the final tally" and moves the position forward |
| TagCloudStandard.TalliedKept | TagCloudGeneratorStandard/src/TagCloudGeneratorStandard.java:145-153 | counting what a token contributes and then the rest is one round of the loop followed by counting the rest |
| TagCloudStandard.CountFileAsWritten | TagCloudGeneratorStandard/src/TagCloudGeneratorStandard.java:274-278 | main's reading loop counts into an empty map exactly the words of the lines at even indexes that another line follows |
| TagCloudStandard.OneLineUncounted | TagCloudGeneratorStandard/src/TagCloudGeneratorStandard.java:274-278 | for the one-line file "a", the loop as written counts nothing, while counting every line gives a:1 |
| TagCloudStandard.CountFile | TagCloudGeneratorStandard/src/TagCloudGeneratorStandard.java:274-278 | the intended reading loop counts into an empty map the words of every line, line after line |
| TagCloudStandard.EveryLineCounted | TagCloudGeneratorStandard/src/TagCloudGeneratorStandard.java:274-278 | every word occurrence of every line is among the words the intended loop counts |
| TagCloudStandard.NoSeparatorKeys | TagCloudGeneratorStandard/src/TagCloudGeneratorStandard.java:145 | every key the line adds is a nonempty word with no separator in front |
| TagCloudStandard.AlphabeticalOrder | TagCloudGeneratorStandard/src/TagCloudGeneratorStandard.java:48-58 | entries are ordered by key ignoring case, then by larger count; the order is antisymmetric |
| TagCloudStandard.ByCountOrder | TagCloudGeneratorStandard/src/TagCloudGeneratorStandard.java:76-86 | entries are ordered by larger count, then by key; the result is 0 only for equal entries, and the order is antisymmetric |
| TagCloudStandard.FontRange | TagCloudGeneratorStandard/src/TagCloudGeneratorStandard.java:220-229 | every font size is in 11..48; the smallest count gets 11 and the largest 48 |
| TagCloudStandard.FontMonotone | TagCloudGeneratorStandard/src/TagCloudGeneratorStandard.java:220-229 | a larger count never gets a smaller font |
| TagCloud.Kind | TagCloudGenerator/src/TagCloudGenerator.java:49 | the separator index: 0 exactly for a space, 1 exactly for a tab |
| TagCloud.KindIsIndex | TagCloudGenerator/src/TagCloudGenerator.java:49 | a character's kind is -1 exactly when it is not in SEPARATORS |
| TagCloud.KindIndexesSeparators | TagCloudGenerator/src/TagCloudGenerator.java:49 | a separator's kind is its index in SEPARATORS |
| TagCloud.NextWordOrSeparator | TagCloudGenerator/src/TagCloudGenerator.java:190-217 | the scan returns the token at position |
| TagCloud.TokenShape | TagCloudGenerator/src/TagCloudGenerator.java:190-217 | the token is a nonempty slice of the text that continues its first character's kind, and it cannot be extended |
| TagCloud.RunEndIsMaximal | TagCloudGenerator/src/TagCloudGenerator.java:190-217 | the scan stops exactly at the first character that does not continue the run |
| TagCloud.InputText | TagCloudGenerator/src/TagCloudGenerator.java:128-132 | the text built from the lines starts with a space when there is any line |
| TagCloud.WordsAreWords | TagCloudGenerator/src/TagCloudGenerator.java:139-145 | the counted tokens are nonempty words that start with no separator |
| TagCloud.CountWord | TagCloudGenerator/src/TagCloudGenerator.java:139-145 | a word's count goes up by one, starting from 1 |
| TagCloud.CountStep | TagCloudGenerator/src/TagCloudGenerator.java:135-154 | one loop step preserves "the map, once the rest is counted, equals the final tally" |
| TagCloud.CountTokens | TagCloudGenerator/src/TagCloudGenerator.java:135-154 | the loop returns the tally of the word tokens scanned before stop |
| TagCloud.GetCountMap | TagCloudGenerator/src/TagCloudGenerator.java:119-158 | as written, the tally of the word tokens that start before the last character of the text |
| TagCloud.GetCountMapToEnd | TagCloudGenerator/src/TagCloudGenerator.java:135 | corrected: the tally of all word tokens of the text |
| TagCloud.ScanCoversText | TagCloudGenerator/src/TagCloudGenerator.java:135-154 | scanning to the end yields tokens that concatenate back to the text |
| TagCloud.ScanStopsEarly | TagCloudGenerator/src/TagCloudGenerator.java:135 | as written, the scan misses exactly the token that starts at the last character, if there is one |
| TagCloud.LastWordMissed | TagCloudGenerator/src/TagCloudGenerator.java:135 | for the single line "a", the as-written map is empty where a:1 is due |
| TagCloud.NoSeparatorKeys | TagCloudGenerator/src/TagCloudGenerator.java:139-145 | every key is a nonempty word with no separator in front |
| TagCloud.Alphabetical | TagCloudGenerator/src/TagCloudGenerator.java:68-71 | 0 exactly for keys equal ignoring case; swapping the arguments negates the result |
| TagCloud.ByCount | TagCloudGenerator/src/TagCloudGenerator.java:92-95 | negative, zero or positive exactly as the first count is larger than, equal to or smaller than the second |
| TagCloud.MinFold | TagCloudGenerator/src/TagCloudGenerator.java:351-359 | the minimum is a lower bound of the start value and of every count |
| TagCloud.MaxFold | TagCloudGenerator/src/TagCloudGenerator.java:351-359 | the maximum is an upper bound of the start value and of every count |
| TagCloud.FoldAttained | TagCloudGenerator/src/TagCloudGenerator.java:351-359 | each bound is either its start value or one of the counts |
| TagCloud.BoundsAttained | TagCloudGenerator/src/TagCloudGenerator.java:351-359 | starting from Integer.MAX_VALUE and 0, both bounds are counts that occur |
| TagCloud.WordBounds.constructor | TagCloudGenerator/src/TagCloudGenerator.java:39-44 | WORDMIN starts at Integer.MAX_VALUE and WORDMAX at 0 |
| TagCloud.WordBounds.Fold | TagCloudGenerator/src/TagCloudGenerator.java:351-359 | the loop leaves WORDMIN and WORDMAX at the folded minimum and maximum |
| TagCloud.FontSizeAsWritten | TagCloudGenerator/src/TagCloudGenerator.java:298-302 | as written, the size formula divides by zero exactly when WORDMAX == WORDMIN |
| TagCloud.FontSizeAgrees | TagCloudGenerator/src/TagCloudGenerator.java:298-302 | where the as-written formula is defined, it agrees with the corrected one |
| TagCloud.FontSizeRange | TagCloudGenerator/src/TagCloudGenerator.java:287-302 | for WORDMIN <= x <= WORDMAX the size is in FONTMIN..FONTMAX, and the extremes are reached |
| TagCloud.FontSizeMonotone | TagCloudGenerator/src/TagCloudGenerator.java:298-302 | a larger count never gets a smaller font |
| TagCloud.SingleCountDividesByZero | TagCloudGenerator/src/TagCloudGenerator.java:298-302 | with a single count of 1, WORDMIN == WORDMAX == 1 and the as-written size divides by zero |
| WordCounting.NextWordOrSeparator | WordCounter/src/WordCounter.java:67-101 | the scan returns the token at position |
| WordCounting.TokenIsMaximalRun | WordCounter/src/WordCounter.java:67-101 | the token is a nonempty slice that stays on its first character's side of the separator set, and it cannot be extended |
| WordCounting.RunEndIsMaximal | WordCounter/src/WordCounter.java:67-101 | the scan stops exactly at the first character on the other side |
| WordCounting.TokensCoverLine | WordCounter/src/WordCounter.java:186-215 | the tokens of a line concatenate back to the line |
| WordCounting.NewWordsMember | WordCounter/src/WordCounter.java:199-211 | a string is in the words list exactly when it is a token without separators |
| WordCounting.NewWordsDistinct | WordCounter/src/WordCounter.java:199-211 | the words list holds no duplicates |
| WordCounting.CountTerm | WordCounter/src/WordCounter.java:194-211 | the term's count goes up by one, and a new separator-free term is appended to both lists |
| WordCounting.ContainsSeparator | WordCounter/src/WordCounter.java:201-207 | true exactly when some character of the word is a separator |
| WordCounting.CountedStep | WordCounter/src/WordCounter.java:186-215 | one token step preserves the counting invariant |
| WordCounting.CountLine | WordCounter/src/WordCounter.java:186-215 | one line's tokens are added to the counting invariant |
| WordCounting.CountTerms | WordCounter/src/WordCounter.java:186-215 | the map is the tally of all tokens, and both lists are the distinct separator-free tokens in first-seen order |
| WordCounting.Alphabetical | WordCounter/src/WordCounter.java:43-47 | 0 exactly for words equal ignoring case; swapping the arguments negates the result |
| Tally.BumpGet | WordCounter/src/WordCounter.java:194-198 | counting a word raises its count by one and leaves the others |
| Tally.TalliedGet | WordCounter/src/WordCounter.java:186-215 | a word's tallied count is its start count plus its occurrences |
| Tally.TalliedKeys | TagCloudGeneratorStandard/src/TagCloudGeneratorStandard.java:141-156 | the tally's keys are the start keys plus the counted words |
| Tally.TalliedPositive | TagCloudGeneratorStandard/src/TagCloudGeneratorStandard.java:141-156 | all counts stay positive |
| Tally.TalliedSnoc | WordCounter/src/WordCounter.java:186-215 | tallying one more word is one more count step |
| Collections.Raised | JCFExplorations/src/JCFExplorations.java:62-67 | the raise is raisePercent percent of the salary, truncated: never a cut, and off by less than one unit |
| Collections.GiveRaise | JCFExplorations/src/JCFExplorations.java:48-69 | the result is the map in which exactly the names starting with initial have the raised salary |
| Collections.RaisedMapContract | JCFExplorations/src/JCFExplorations.java:39-46 | the same names; the named salaries raised, the others unchanged; all salaries positive |
| Collections.IncrementedMembers | JCFExplorations/src/JCFExplorations.java:125-128 | y is in the result exactly when y - 1 was in the set |
| Collections.IncrementedSize | JCFExplorations/src/JCFExplorations.java:125-128 | the set keeps its size |
| Collections.IncrementAll | JCFExplorations/src/JCFExplorations.java:130-142 | the result is the set with every element incremented |
| Collections.IncrementAllByCopy | JCFExplorations/src/JCFExplorations.java:160-174 | the java.util version gives the same set |
| EmailAccounts.Address | EmailAccounts/src/EmailAccount1.java:80-83 | the lower-cased last name, '.', the decimal digits of the dot number and "@osu.edu"; no upper-case letter |
| EmailAccounts.AddressInjective | EmailAccounts/src/EmailAccount1.java:80-83 | an address determines the lower-cased last name and the dot number |
| EmailAccounts.Registry.constructor | EmailAccounts/src/EmailAccount1.java:39 | the registry starts empty |
| EmailAccounts.EmailAccount.constructor | EmailAccounts/src/EmailAccount1.java:53-67 | the dot number is one more than the recorded one, or 1; the registry records it |
| EmailAccounts.EmailAccount.Name | EmailAccounts/src/EmailAccount1.java:74-77 | the first name, a space, then the last name |
| EmailAccounts.EmailAccount.EmailAddress | EmailAccounts/src/EmailAccount1.java:80-83 | the address ends in "@osu.edu" and has no upper-case letter |
| EmailAccounts.EmailAccount.ToString | EmailAccounts/src/EmailAccount1.java:86-89 | "Name: ", the name, ", Email: " and the address, in that order |
| EmailAccounts.CreateAccounts | EmailAccounts/src/EmailAccount1.java:53-67 | for accounts created in turn, the registry counts each lower-cased last name, the i-th dot number counts its last name among the first i + 1 accounts, and all addresses differ |
| EmailAccounts.CreatedDistinct | EmailAccounts/src/EmailAccount1.java:53-83 | accounts created one after another have pairwise distinct addresses |
| EmailAccounts.Registered | EmailAccounts/src/EmailAccount1.java:56-64 | one more account keeps the registry equal to the tally of the last names so far |
| EmailAccounts.OccurrencesIncrease | EmailAccounts/src/EmailAccount1.java:57-61 | the dot numbers handed out for one last name strictly increase |
| EmailAccounts.AddressesDistinct | EmailAccounts/src/EmailAccount1.java:53-83 | two accounts created in turn never share an address |

## Left out

- File and console I/O and the HTML output of the programs' `main` methods are not modelled. Of `TagCloudGeneratorStandard`'s `main`, only the reading loop is modelled (`TagCloudStandard.CountFileAsWritten`), over the file's lines given as a parameter.
- In `TagCloudGeneratorStandard`'s `main`, the font scale's min and max come from the top-n selection (TagCloudGeneratorStandard.java:291-308). With n >= 2, max is the count of the first entry removed from the count-ordered queue and min the count of the n-th. With n = 1, max is the first count and min stays 0. An n larger than the number of words makes `remove` throw. This selection is not modelled: `TagCloudStandard.Font` takes min and max as parameters.
- TagCloud.InputText: `TagCloudGenerator`'s `main` reads and drops the file's first line before calling `getCountMap` (TagCloudGenerator.java:422). Its `==` compares references, so the blank-file check never reports. The lines given to `InputText` are the lines `getCountMap` reads, so that dropped first line is not among them.
- The Tokenizer is a parameter. Its classification of identifiers and conditions is a `Classifier` value with the one property the parser relies on (`BLSyntax.Premise`).
- Reporter's fatal errors are a `Fatal(message)` result, not a program exit.
- `Queue1L`, `Stack`, `Map` and `Set` from the component library are not part of this model. They become Dafny sequences, maps and sets, with small classes where the source updates them in place.
- `WaitingLineSecondary.hashCode` is not modelled: Java's hash arithmetic is irrelevant to the line's behaviour.
- The `TagCloudGenerator` sorting steps and the `TagCloudGeneratorStandard` sorting steps are left out, except for their comparators. This covers the sorting machine, the priority queue and the selection of the top words. Both are library sorting.
- Java `int` overflow is not modelled in the counters, in `Collections.Raised` or in the two font formulas: counts and salaries are unbounded. In Java, `(FONTMAX - FONTMIN) * (x - WORDMIN)` (TagCloudGenerator.java:300) overflows once the count range exceeds 53,687,091, and `(temp.getValue() - min) * scale` (TagCloudGeneratorStandard.java:226) once it exceeds 58,040,098. Past those ranges `TagCloud.FontSizeRange` and `TagCloudStandard.FontRange` do not hold for the Java code.
- Case mapping covers ASCII letters only. Java's `toLowerCase` is locale-aware.
- `TagCloud.InputText`: the text is assembled from lines given as a parameter. Reading the file is left out.
- QueueSort.Queue.LibrarySort: `Queue1L.sort` from the component library is modelled by its contract only: sorted and a permutation. The order in which it leaves entries the comparator treats as equal is open. So QueueSort.Queue.Sort promises no particular order among them.
- `TagCloud`: the adding of lower-cased words in `outputWordCloud`, and the precondition on `Map.add` it relies on, are not modelled. Only the fold over the counts is.
- The `nextWordOrSeparator` javadoc differs from its code in both `TagCloudGenerator` and `TagCloudGeneratorStandard`, and the model follows the code. In `TagCloudGeneratorStandard`, the javadoc promises a maximal run of any separators, but the code groups only copies of one separator (`TagCloudStandard.SeparatorReadingsDiffer`). Word tokens are the same under both readings, so the counts are too (`TagCloudStandard.CountedAsDocumented`).
- `TagCloudStandard.GetCountMap` and `TagCloud.GetCountMap` return the new map instead of updating a map argument in place.
- Collections.GiveRaise: requires nonempty names, because `charAt(0)` would throw on an empty name. The java.util `giveRaise` (JCFExplorations.java:96-117) takes the same steps and is covered by the same member.
- SequenceOnStack.Sequence3.RemoveAsWritten: requires 0 < pos, because pos = 0 pops the empty left stack and throws.
- EmailAccounts: the static database becomes an explicit `Registry` object that is passed to the constructor. The unused email field is left out.
- WaitingLines.WaitingLine.ReplaceFirstInLine: the temporary queue is a sequence.
- WaitingLines.WaitingLine.Equals: the argument is always a `WaitingLine`. The `false` that `equals(null)` returns and the ClassCastException for an argument of another class are not modelled.
- WaitingLines.WaitingLine.RemoveFromLineAt: requires a nonempty line. With an empty line, the final `leaveLine` violates its precondition.

## Findings

| source | as written | input that shows it | evidently intended | confidence | as-written member | corrected member |
|---|---|---|---|---|---|---|
| SequenceOnStack/src/Sequence3.java:56-82 | the loop counter of setLengthOfLeftStack is never updated, so a needed shift pops until a stack is empty | left <>, right <x>, length 1 | move entries one at a time until the left stack has the asked length | not executed | TwoStack.AsWrittenCounterexample | TwoStack.SetLengthOfLeftStack |
| WaitingLineFamilyDesign/src/components/waitingline/WaitingLine.java:75 | removeFromLine(pos) requires pos <= length | pos equal to the length | pos < length | not executed | WaitingLines.RemoveAtLengthFails | WaitingLines.WaitingLine.RemoveFromLineInOrder |
| WaitingLineFamilyDesign/src/components/waitingline/WaitingLineSecondary.java:112-120 | removeFromLine(int) leaves the entries after pos in front of those before it | <1,2,3>, pos 1 gives <3,1> | <1,3> | not executed | WaitingLines.RotationCounterexample | WaitingLines.WaitingLine.RemoveFromLineInOrder |
| WaitingLineFamilyDesign/src/components/waitingline/WaitingLineSecondary.java:123-138 | removeFromLine(T) rotates the remaining entries the same way | <1,2,3>, element 2 gives <3,1> | <1,3> | not executed | WaitingLines.WaitingLine.RemoveFromLine | WaitingLines.WaitingLine.RemoveElementInOrder |
| WaitingLineFamilyDesign/src/components/waitingline/WaitingLineSecondary.java:141-153 | isInLine leaves a found element rotated to the front | <1,2,3>, element 2 leaves <2,3,1> | <1,2,3> restored | not executed | WaitingLines.RotationCounterexample | WaitingLines.WaitingLine.IsInLineRestoring |
| WaitingLineFamilyDesign/src/components/waitingline/WaitingLineSecondary.java:156-165 | placeInLine leaves the line of the empty temporary | <1,2>, element 2 | position 1 | not executed | WaitingLines.PlaceInLineCounterexample | WaitingLines.WaitingLine.PlaceInLine |
| SequenceOnStack/src/Sequence3.java:156-162 | remove pops the left stack: entry pos - 1 is removed, and pos 0 pops an empty stack | <a,b>, pos 1 removes a | remove the entry at pos | not executed | SequenceOnStack.Sequence3.RemoveAsWritten | SequenceOnStack.Sequence3.Remove |
| SequenceOnStack/src/Sequence3.java:182-190 | flip makes both stack fields the same empty stack | any nonempty sequence | the reversed sequence | not executed | SequenceOnStack.Sequence3.FlipAsWritten | SequenceOnStack.Sequence3.Flip |
| QueueQuicksort/src/Queue1LSort4.java:102-110 | the partitions are new `Queue1L` queues, so their `sort` is the library's, not this quicksort, although the comment at line 108 says they are sorted recursively | <20, 1, 2> compared by tens: the contract admits <1, 2, 20>, while the recursive quicksort gives <2, 1, 20> | the partitions sorted recursively by this quicksort | not executed | QueueSort.SortTiesOpen | QueueSort.Queue.QuickSort |
| TagCloudGeneratorStandard/src/TagCloudGeneratorStandard.java:274-278 | the loop condition reads a line and drops it, so only the lines at even indexes that another line follows are counted | the one-line file "a" | every line counted: a:1 | not executed | TagCloudStandard.OneLineUncounted | TagCloudStandard.CountFile |
| TagCloudGenerator/src/TagCloudGenerator.java:135 | the scan stops before the last character of the text, so a one-letter last word is never counted | the single line "a" | a:1 | not executed | TagCloud.LastWordMissed | TagCloud.GetCountMapToEnd |
| TagCloudGenerator/src/TagCloudGenerator.java:298-302 | fontSize divides by WORDMAX - WORDMIN, which is 0 when all counts are equal | a single word counted once | FONTMIN | not executed | TagCloud.SingleCountDividesByZero | TagCloud.FontSize |
