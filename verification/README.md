# A model of genet, with proofs

genet is a packet analyser. This project models the parts of it that decide what a user sees, in Dafny, and
proves what they promise:

* **The decoding pipeline.** Batches of frames are numbered by the event loop, fan out to parallel workers,
  come back in any order, are put in order again for one serial decoder and end up in the frame store.
  `Pipeline` states this as a system of threads that take steps, over two queues, a command channel and a
  reordering map; `PipelineSafety` proves what every step keeps, `PipelineTheorems` what follows for every run.
  `PipelineInputs` reads off a schedule what it pushes and which filters it sets, and proves that the event loop does
  all of it. `Threads` gives each parallel thread a memory of its own and refines this to the pipeline; `ThreadMemory` shows what
  the memories could do otherwise. `EventLoop` says what
  a turn of the event loop does to the filter results, `StoreThread`, `DecoderPools` and `ArrayVec` are the loops
  themselves, proved against that.
* **The frame dispatcher and its tree.** `Dispatcher` is the nested loop that offers every layer to every
  decoder. `DispatcherTheorems` proves when it ends, what it accepts and that its counts are a level-order
  list (`LevelOrder`), `DispatcherHistory` what the calls make of the layers and memories, `DispatcherTurns` in what
  order the decoders are called, `DispatcherRefusals` when a layer is left, `DispatcherBounds` what follows from bounds
  that a caller can give. `DispatcherLoops` is the loop itself. `Tree`, `TreeTheorems`, `TreeBuilder` and `TreeCuts` are the JavaScript side, which
  rebuilds the tree from the counts.
* **The filter language.** `FilterSyntax` is the grammar, matched character by character; `FilterParser` the
  parser with its precedence climbing; `Unparser` the printer; `FilterAst` and `Variants` the evaluator, `Integers` what
  its operators make of integers;
  `Numerals` and `Json` the number and string forms. `FilterText`, `FilterRoundTrip` and `FilterGroups` prove what
  printing and parsing do to each other, `FilterSelfMatch` what the filter written for an attribute selects.
  `FilterReading` and `FilterMeaning` say what the symbols and words of a filter are read as, and what they mean.
* **File formats.** `GenetFormat`, `GenetWriter`, `GenetReader`, `GenetFile`, `GenetFaults` for genet files, `PcapFormat`,
  `PcapWriter`, `PcapReader`, `PcapFile` for pcap files, over the byte encodings of `Encoding`.
* **The TCP reassembly buffer** (`TcpStream`, `TcpOverlap`, `TcpCoverage`) and **the merging of export ranges** (`RangeMerge`).
* `System` puts the pipeline, the dispatcher and the filter language together.

Code that changes state in place is a class or a method with a loop, proved equal to a function of the old
state; the properties are then lemmas about these functions.

What the proofs found where the code does not do what one might expect:

* `treefy` rebuilds the tree of the dispatcher exactly when, at each depth, only the last layer that has
  children has grandchildren (`TreeTheorems.RebuiltIffLastParentOnly`); otherwise every layer is still placed
  once, with the right number of children, but below another layer
  (`TreeTheorems.GrandchildrenChangePlaces` shows it for six layers).
* The counts are cut to eight bits: they add up exactly when no layer has 256 children or more
  (`DispatcherTheorems.CountsAddUpIff`), and exactly then does `treefy` read every layer
  (`TreeCuts.AllLayersReadIffNarrow`). A root with 256 children loses them all (`TreeCuts.WideRootLosesAll`).
* In the precedence table `<` binds loosest and `||` tightest, contrary to what the operators suggest; the
  model follows the table. Printing never writes a group, so it is undone by parsing exactly for the normal
  expressions (`FilterRoundTrip.RoundTripIffNormal`; `GroupIsLost` is the shortest failure).
* A negative Int64 equals the UInt64 with the same 64 bits (`Integers.IntegerEquality`), and the order of the two types
  is wrong where a cast turns a number round (`Integers.CastsTurnRound`). Two BigInts, or buffers, are compared byte
  by byte. That is the order of the numbers exactly if they have the same sign and compare alike when both are written
  in equally many bytes; without needless bytes, exactly if the first byte that differs agrees with the lengths
  (`Integers.IntegerOrder`, `Integers.BigIntegerOrder`). So 256 is below 2, and 1 below -1
  (`Integers.BigIntsOutOfOrder`).
* The filter written for a BigInt finds it exactly if it is not negative, as the sign is not printed, and is below 2^64
  or has no needless bytes (`FilterSelfMatch.SelfMatch`, `NegativeBigIntMissed`, `PaddedBigIntMissed`).
* The filter written for an attribute can miss its own frame when another attribute of the same id comes first
  (`FilterSelfMatch.ShadowedAttrMissed`).
* `x == true` is printed as `x`, which also holds for numbers and texts (`Unparser.FoldMeaning`).
* A TCP stream is blocked for good exactly by a put below the offset, or by a fetch that reaches a segment inside
  which another pending one begins (`TcpOverlap.BlockedIff`). Two overlapping segments that were both put above the
  offset are enough (`TcpOverlap.OverlapBlocks`). Being blocked for good means the same as having something wait below
  the offset (`TcpCoverage.BlockedForGoodIff`). A stream that is not blocked is delivered whole exactly if each byte is
  in a put that no later one replaced while it waited (`TcpCoverage.DeliveredIff`): a short piece put at the position of
  a longer one loses the rest (`TcpCoverage.ShorterReplaces`).
* A pcap file keeps the link type of its first frame only, and without frames it cannot be opened
  (`PcapFile.PcapRoundTrip`).

## Model

| member | source | states |
|---|---|---|
| PipelineSafety.RunInv | genet-kernel/src/store.rs:232-266 | every reachable state keeps the invariant of the pipeline: where the batches are, what they contain, what was decoded so far, and how far each filter is |
| PipelineTheorems.ConcurrentRefinesSequential | genet-kernel/src/decoder/serial.rs:26-50 | in every run, under any interleaving, the store is a prefix of decoding the layers that the inputs of the schedule push, one at a time, and with the frames on their way to it exactly the first `next` of them |
| PipelineInputs.OfferedIsAccepted | genet-kernel/src/store.rs:289-321 | every layer that an input pushes is accepted in its turn, or still in the channel |
| PipelineInputs.RunServes | genet-kernel/src/store.rs:234-266 | the event loop has done exactly what the commands of the schedule ask for, all but those still in the channel: it accepted their layers and set their filters |
| PipelineInputs.PushFilterSets | genet-kernel/src/store.rs:361-381 | setting a filter makes it the active one of its id, with nothing seen yet; removing it leaves none; other ids keep theirs |
| PipelineInputs.LastSetIsActive | genet-kernel/src/store.rs:361-381 | in every run the active filter of an id is the last one that the schedule sets for it, once the commands are taken |
| PipelineTheorems.LastSetIsListed | genet-kernel/src/store.rs:383-423 | in every run the list of an id is exactly the positions of the stored frames that pass the filter set last for it, in increasing order, and there is none without a filter |
| PipelineTheorems.StoredIndexIsPosition | genet-kernel/src/store.rs:241-248 | the frame at position i of the store has index i |
| PipelineTheorems.Conservation | genet-kernel/src/store.rs:289-321 | the indices from 0 up to the counter are split, without overlap, into the store, the batches on their way to it, and contiguous batches in exactly one other place each (what the stored frames contain is said by ConcurrentRefinesSequential) |
| PipelineTheorems.EveryIndexInOneBatch | genet-kernel/src/decoder/parallel.rs:35-51 | an index that is not decoded yet is in exactly one batch of the channel, the queues, the hands of the workers or the reordering map |
| PipelineTheorems.WorkShrinks | genet-kernel/src/decoder/serial.rs:30-49 | every step but an input lowers a measure, so that the pipeline cannot run for ever without input |
| PipelineTheorems.RunsEnd | genet-kernel/src/decoder/parallel.rs:37-50 | without input, a schedule of any length has at most as many real steps as the measure says |
| PipelineTheorems.NothingStranded | genet-kernel/src/decoder/serial.rs:33-42 | when no step is possible any more, the reordering map is empty and the store holds every layer that the schedule pushed, decoded in order |
| Threads.ThreadsRefinePipeline | genet-kernel/src/decoder/parallel.rs:30-51 | with threads that each keep a memory from batch to batch, every run is a run of the pipeline, if what a thread remembers makes no difference to a frame |
| Threads.ThreadsRefineSequential | genet-kernel/src/decoder/parallel.rs:30-51 | under any interleaving of these threads the store is a prefix of the sequential decoding of the layers that were pushed, frames carry their positions and the filter lists are complete |
| Threads.ThreadsStrandNothing | genet-kernel/src/decoder/parallel.rs:17-29 | when all these threads rest, every layer that was pushed is in the store |
| Threads.SomeThreadIsIdle | genet-kernel/src/decoder/parallel.rs:18-23 | a batch can be taken by some thread exactly when fewer batches are held than there are threads |
| ThreadMemory.StoreDependsOnThreads | genet-kernel/src/decoder/parallel.rs:30-51 | two runs that accept the same two frames store different ones, if the threads remember: in one of them a single thread decodes both |
| Threads.Thread.Process | genet-kernel/src/decoder/parallel.rs:36-43 | decoding a batch in place threads the thread's own memory through its frames, in order |
| PipelineTheorems.FilteringIsComplete | genet-kernel/src/store.rs:265-265 | after every turn the list of each active filter is the result of filtering the whole store, its length is the last reported one, and no other list exists |
| PipelineTheorems.FilteredIndicesArePositions | src/view/display/frame-list-view.ts:115-120 | a filtered list holds increasing store positions, exactly those of the frames that pass |
| EventLoop.CatchUpCompletes | genet-kernel/src/store.rs:383-423 | lists that are right for what their filters have seen are complete after one turn |
| EventLoop.PushFilterForgets | genet-kernel/src/store.rs:361-381 | setting, replacing or removing a filter leaves nothing of its old list, and every other list right |
| EventLoop.PassingPositions | genet-kernel/src/store.rs:397-405 | the indices of the passing frames are increasing, and exactly the positions of the passing frames, when frames carry their positions |
| StoreThread.Thread.ProcessInput | genet-kernel/src/store.rs:289-321 | a failed or empty input sends nothing; otherwise each layer is sent on as a fresh frame whose index is its position among all layers accepted since the start, in 32 bits |
| StoreThread.Thread.Store | genet-kernel/src/store.rs:241-251 | stored frames are appended, in order |
| StoreThread.Thread.ProcessPushFilter | genet-kernel/src/store.rs:361-381 | the new filter is filed under its id with nothing seen yet, or the old one removed, and the id's list is gone |
| StoreThread.Thread.ScanFilter | genet-kernel/src/store.rs:390-421 | the chunks of 16384 frames add up to one scan of what the filter had not seen, and every list published on the way is a prefix of the full result |
| StoreThread.Thread.ProcessFilters | genet-kernel/src/store.rs:383-423 | all filters caught up, whatever the order in which the map yields them |
| StoreThread.ScannedIsPrefix | genet-kernel/src/store.rs:409-417 | what is published between two chunks is a prefix of the full result |
| StoreThread.Thread.WriteBlocks | genet-kernel/src/store.rs:331-351 | each write is the frames of its block of the store at the positions that pass, in order, and all blocks are written if no write fails |
| StoreThread.Thread.ProcessOutput | genet-kernel/src/store.rs:323-359 | if no write fails, the writes together are exactly the frames at the increasing positions of the store that pass, one write per 65536 frames, then one end and one report; after a failure there is no further write and no end |
| ArrayVec.ArrayVec.Push | genet-kernel/src/array_vec.rs:39-50 | the buckets hold the old contents and the new value at the end |
| ArrayVec.ArrayVec.Get | genet-kernel/src/array_vec.rs:29-37 | bucket and offset address the element at the index, or nothing past the end |
| ArrayVec.ArrayVec.Range | genet-kernel/src/store.rs:85-93 | skipping and taking over the buckets gives that slice of the contents, cut off at its end |
| DecoderPools.SerialPool.Process | genet-kernel/src/decoder/serial.rs:30-43 | receiving a batch and emptying the map is a Receive step and the Emit steps after it, with the same batches sent on |
| DecoderPools.SerialPool.ProcessFrames | genet-kernel/src/decoder/serial.rs:38-40 | decoding a batch in place threads the decoders' state through its frames in order |
| DecoderPools.DrainIsRun | genet-kernel/src/decoder/serial.rs:36-42 | the draining loop is a run of the step system, so that the theorems about runs apply to it |
| Dispatcher.Settle | genet-kernel/src/decoder/dispatcher.rs:44-64 | the sweeps over one layer end, and layers are only added while unused decoders become fewer |
| Dispatcher.Rounds | genet-kernel/src/decoder/dispatcher.rs:35-72 | the loop over the levels ends |
| DispatcherBounds.IdleDecodersDoNotMatter | genet-kernel/src/decoder/dispatcher.rs:100-117 | a decoder without a worker has no part in a pass: any other could stand in its place, and every layer, count and call would be the same |
| DispatcherHistory.CallsMakeTheResult | genet-kernel/src/decoder/dispatcher.rs:44-58 | in a pass over any frame the first call finds the frame's layers; each call's layer becomes what the decoder, with what it remembers of its own earlier calls, makes of it, and its new layers follow in order; that is what the next call finds, and the last one leaves the result |
| DispatcherTurns.EveryoneInTurn | genet-kernel/src/decoder/dispatcher.rs:35-64 | layers are offered in order, and each to one decoder after the other, again from the first when all were asked, leaving out exactly those that have accepted |
| DispatcherLoops.FrameDispatcher.OfferTo | genet-kernel/src/decoder/dispatcher.rs:133-143 | a runner that has accepted is not asked again |
| DispatcherLoops.FrameDispatcher.ProcessFrame | genet-kernel/src/decoder/dispatcher.rs:30-76 | the nested loops end and leave the layers, counts and workers of Process, which its calls make in turn of those before |
| DispatcherTheorems.AcceptedAtMostOnce | genet-kernel/src/decoder/dispatcher.rs:133-143 | in one frame each decoder accepts at most one layer, and is offered none afterwards |
| DispatcherRefusals.LeftWhenDeclined | genet-kernel/src/decoder/dispatcher.rs:35-64 | in a pass over any frame, whenever a layer is left, the calls just before are one refusal of it by every unused decoder, with the layers as they are then, up to what skipped calls changed in this very layer |
| DispatcherRefusals.UnusedFrom | genet-kernel/src/decoder/dispatcher.rs:46-60 | those refusals come from exactly the decoders that have accepted nothing |
| DispatcherRefusals.EveryLayerIsLeft | genet-kernel/src/decoder/dispatcher.rs:35-72 | in a pass over a fresh frame every layer is left once, in order |
| DispatcherTheorems.FirstPassEncodes | genet-kernel/src/decoder/dispatcher.rs:30-76 | after the first pass there is one count per layer, the layers added to a layer are its contiguous block in level order, parents come first, and the stored counts are the true ones modulo 256 |
| DispatcherTheorems.CountsAddUpIff | genet-kernel/src/decoder/dispatcher.rs:65-65 | the stored counts add up to the number of layers but one exactly when no layer has 256 children, and are the true ones then |
| DispatcherBounds.FewLayersAreNarrow | genet-kernel/src/decoder/dispatcher.rs:43-65 | if no call adds more than some number of layers, and that number times the number of decoders is below 256, the stored counts are the true ones |
| DispatcherBounds.WideLayerIsLost | genet-kernel/src/decoder/dispatcher.rs:65-65 | a decoder that adds 256 layers to the root: its count is stored as 0 and the counts do not add up |
| DispatcherTheorems.SecondPassAppendsZeros | genet-kernel/src/decoder/dispatcher.rs:37-65 | a pass that adds no layers keeps the id, headers, data, attributes and payloads of every layer, adds attributes and payloads at the end at most, and appends one zero count for every leaf |
| DispatcherTheorems.AnyWorkerAlike | genet-kernel/src/decoder/parallel.rs:30-41 | if a decoder's result depends on the frame alone, it does not matter which thread decodes it nor what that thread decoded before |
| DispatcherTheorems.ProcessKeepsRoles | genet-kernel/src/decoder/dispatcher.rs:111-117 | a frame gives no decoder a worker and takes none away |
| LevelOrder.OneParent | genet-kernel/src/decoder/dispatcher.rs:58-59 | no layer is in the blocks of two layers |
| Tree.EndOf | genet-node/session.js:5-17 | the recursion of consume ends and never claims more layers than there are |
| Tree.TakesWhatItOwns | genet-node/session.js:8-15 | a layer takes exactly the layers that it owns |
| Tree.UsesAllCounts | genet-node/session.js:19-28 | a valid list of counts is used up exactly |
| Tree.PlacedOnce | genet-node/session.js:5-17 | every layer but the root is placed below exactly one layer, which comes before it |
| TreeTheorems.RebuiltIffLastParentOnly | genet-node/session.js:5-28 | the rebuilt tree is the dispatcher's exactly when at each depth only the last layer with children has grandchildren |
| TreeTheorems.GrandchildrenChangePlaces | genet-node/session.js:5-28 | in the list 2, 1, 1, 1, 0, 0 two layers change places |
| TreeBuilder.Builder.Consume | genet-node/session.js:5-17 | the splicing recursion gives each layer the block of children that the plan says, and sets their parents |
| TreeBuilder.Builder.Treefy | genet-node/session.js:19-28 | on any counts that claim no more layers than there are, cut ones included: the children of every layer after both reads, parents and children agree, and the layers that no read reaches have no parent |
| TreeBuilder.ZerosChangeNothing | genet-node/session.js:19-28 | on the counts of a first pass layer k gets exactly counts[k] children, and zeros appended by a second pass change nothing, not even for a lone root |
| TreeCuts.AllLayersReadIffNarrow | genet-node/session.js:5-17 | of counts cut to eight bits the first read reaches every layer exactly when no layer has 256 children or more |
| TreeCuts.CutCountsReadTwice | genet-node/session.js:19-28 | behind cut counts too, the zeros of a second pass, one for each layer of the first read, are enough for the second read |
| TreeCuts.WideRootLosesAll | genet-node/session.js:19-28 | a root with 256 children: the tree is the root alone, with the zeros of a second pass or without |
| FilterParser.WrapBackwards | genet-filter/src/parser.rs:117-153 | walking over the parts from the last to the first nests the unary operators from the outside in |
| FilterText.PrintedIsFlat | genet-filter/src/syntax.pest:1-44 | the grammar reads every printed expression as its operands and operators in order, with every literal in one piece |
| FilterText.MemberMatches | genet-filter/src/syntax.pest:17-22 | an id that reads as a member does so before a blank too, and never as a literal |
| FilterText.TokensAreWritten | genet-filter/src/syntax.pest:4-7 | a written string is matched to its closing quote, whatever it contains |
| FilterGroups.GroupedIsRead | genet-filter/src/syntax.pest:39-42 | written with groups, every expression over the parser's own atoms is read back, whatever its shape |
| FilterRoundTrip.ClimbShaped | genet-filter/src/parser.rs:86-114 | climbing makes a tree in which every left operand binds at least as tight as its operator and every right operand tighter |
| FilterRoundTrip.ClimbLeaves | genet-filter/src/parser.rs:97-114 | climbing keeps all operands, in order |
| FilterRoundTrip.PrintedIsReread | genet-filter/src/parser.rs:63-71 | printed text always parses, without a panic |
| FilterRoundTrip.RightOperand | genet-filter/src/parser.rs:91-114 | climbing puts a normal right operand together again, whatever looser operator follows |
| FilterRoundTrip.NormalRoundTrip | genet-filter/src/unparser.rs:30-59 | printing then parsing gives a normal expression back |
| FilterRoundTrip.RoundTripIffNormal | genet-filter/src/parser.rs:43-110 | printing then parsing is the identity exactly on the normal expressions |
| FilterRoundTrip.GroupIsLost | genet-filter/src/unparser.rs:55-57 | a negated comparison is printed as a comparison of a negation |
| FilterRoundTrip.RadixDoesNotMatter | genet-filter/src/parser.rs:125-140 | the text of a number reads as the same literal in each of the radices 2, 8, 10 and 16 |
| Unparser.FoldMeaning | genet-filter/src/unparser.rs:35-47 | a comparison with a Boolean constant, printed as the other side alone, keeps its meaning on exactly the frames where that side is a Boolean, or nil under true, or another value under false |
| Unparser.NumberIsNotTrue | genet-filter/src/unparser.rs:35-47 | where an id is 5 its comparison with true fails, but what is printed for it holds |
| FilterReading.ComparisonsAreRead | genet-filter/src/parser.rs:59-62 | `<`, `>`, `<=` and `>=` between two ids are read as their comparisons |
| FilterReading.SymbolsAreRead | genet-filter/src/parser.rs:63-66 | `==`, `!=`, `&&` and the bars of "or" are read as their operators |
| FilterReading.PrefixesAreRead | genet-filter/src/parser.rs:78-80 | `!`, `-` and `+` before an id are read as their operators |
| FilterReading.WordsAreRead | genet-filter/src/syntax.pest:17-23 | nil, true and false are read as their values, an id as itself |
| FilterReading.LevelsAreRead | genet-filter/src/parser.rs:43-53 | in a text with two operators, "or" binds tighter than `&&` on either side of it, and `&&` tighter than `==` |
| FilterReading.ComparisonsAreLoosest | genet-filter/src/parser.rs:43-53 | `==` binds tighter than `<` on either side of it |
| FilterReading.SameLevelIsReadFromLeft | genet-filter/src/parser.rs:48-53 | "or", `&&`, and `==` with `!=` are read from the left |
| FilterReading.ComparisonsAreOneLevel | genet-filter/src/parser.rs:44-47 | so are `<` with `<=` and with `>` |
| FilterReading.AtLeastIsOfThatLevel | genet-filter/src/parser.rs:44-47 | and `<` with `>=` |
| FilterReading.NameIsMember | genet-filter/src/syntax.pest:22-23 | a name of letters, digits and underscores that does not begin like a keyword is a member |
| FilterReading.DottedIsMember | genet-filter/src/syntax.pest:22-23 | and so are such names with dots between them |
| FilterReading.GroupsAreRead | genet-filter/src/syntax.pest:39-40 | parentheses make one operand of what they hold |
| FilterReading.PlainTextIsRead | genet-filter/src/syntax.pest:4-7 | a text between quotes is read as that text |
| FilterReading.AddressesAreRead | genet-filter/src/parser.rs:30-41 | after an at sign stands an address, tried as IPv4, IPv6 and hardware address in this order |
| FilterReading.UpperCaseHexIsRead | genet-filter/src/parser.rs:90-93 | hexadecimal digits may be written in upper case |
| FilterReading.ProtocolIsFound | genet-filter/src/ast.rs:42-46 | the name of a protocol is a filter for the frames with such a layer, if no layer above says anything about the name |
| FilterReading.LessFilter | genet-filter/src/ast.rs:29-29 | a filter such as udp.length < 100 holds on exactly the frames where the number is so, if the order of the two is safe |
| FilterReading.GreaterFilter | genet-filter/src/ast.rs:30-30 | the same for `>` |
| FilterReading.AtMostFilter | genet-filter/src/ast.rs:31-31 | the same for `<=` |
| FilterReading.AtLeastFilter | genet-filter/src/ast.rs:32-32 | the same for `>=` |
| FilterReading.TextFilter | genet-kernel/src/binding/attr.rs:99-109 | the filter written for a text holds on exactly the frames where the id is that text |
| FilterMeaning.ValueMeaning | genet-filter/src/variant.rs:34-39 | a value is true unless it is nil or false |
| FilterMeaning.ConnectiveMeaning | genet-filter/src/ast.rs:27-41 | the connectives are those of the truth of their sides, and `!=` is the opposite of `==` |
| FilterMeaning.IntegersCompare | genet-filter/src/ast.rs:29-32 | the four order comparisons of two integers hold as those of the numbers exactly when their order is safe |
| FilterMeaning.IntegersEqual | genet-filter/src/ast.rs:27-27 | two integers test equal exactly when they are the same number, in the same bytes if both are big, or the same 64 bits with another sign |
| FilterMeaning.SignMeaning | genet-filter/src/variant.rs:41-62 | plus keeps a number, minus negates it exactly when the result fits in 64 bits or it is big, and both make 0 of anything else |
| FilterMeaning.TextsCompare | genet-filter/src/variant.rs:93-93 | texts are equal only if they are the same, and ordered by the first character that differs |
| FilterMeaning.UnlikeValues | genet-filter/src/variant.rs:92-126 | values of different kinds are neither equal nor ordered, and truth values and nil are never ordered |
| FilterMeaning.LayerAnswers | genet-filter/src/ast.rs:42-58 | a layer says of its own id that it is there, of another the value of the first header or attribute of that id, and nothing without one |
| FilterSelfMatch.SelectsTheNumber | genet-kernel/src/binding/attr.rs:99-109 | the filter written for an integer holds on exactly the frames where the id is the same number, in the same bytes if it is big, or wraps around to it |
| FilterSelfMatch.SelfFilterSelects | genet-kernel/src/binding/attr.rs:99-109 | the filter written for a value holds on exactly the frames where the id compares equal to the value as read |
| FilterSelfMatch.SelfMatch | genet-kernel/src/binding/attr.rs:99-109 | the filter written for a value holds on every frame where the id has it, unless it is a negative BigInt, or a big one with needless bytes |
| FilterSelfMatch.NegativeBigIntMissed | genet-filter/src/variant.rs:175-177 | the filter written for minus one as a BigInt does not hold where the id is that |
| FilterSelfMatch.PaddedBigIntMissed | genet-filter/src/variant.rs:97-97 | the filter written for 2^64 in ten bytes does not hold where the id is that |
| FilterSelfMatch.ForemostIsLookedUp | genet-filter/src/ast.rs:42-58 | the first attribute of its id in a layer decides the id, if no layer above says anything about it |
| FilterSelfMatch.ShadowedAttrMissed | genet-kernel/src/binding/attr.rs:99-109 | the filter written for the second of two attributes with one id misses its own frame |
| FilterSelfMatch.AddressIsRead | genet-filter/src/unparser.rs:7-28 | an address is printed as one and read as a buffer of its bytes |
| FilterAst.FindToken | genet-filter/src/ast.rs:42-58 | the topmost layer decides that has the id or a readable attribute of that id |
| FilterAst.TopmostDecides | genet-filter/src/ast.rs:42-58 | an id is what the topmost layer says that says anything about it, and nil without one |
| Integers.IntegerOrder | genet-filter/src/variant.rs:64-155 | integers of any representation are ordered as numbers exactly when casting the right one to the left one's type does not turn it round and, if both are big, they have the same sign and the bytes compare alike in equal lengths |
| Integers.BigIntegerOrder | genet-filter/src/variant.rs:65-97 | two big integers without needless bytes are ordered as numbers exactly when they have the same sign and, if the lengths differ, the first byte that differs agrees with the lengths |
| Integers.BigIntsOutOfOrder | genet-filter/src/variant.rs:97-97 | as BigInts, 256 is below 2 and 1 is below -1 |
| Integers.CastsTurnRound | genet-filter/src/variant.rs:99-101 | minus one equals the largest UInt64, and zero is not below 2^63 |
| Integers.IntegerEquality | genet-filter/src/variant.rs:64-165 | two integers of any representation are equal exactly when they are the same number, in the same bytes if both are big, or are the same 64 bits with another sign |
| Integers.ShrinkKeepsInteger | genet-filter/src/variant.rs:22-32 | shrink keeps the number, and makes a UInt64 whenever one can hold it, else an Int64 |
| Variants.CompareBytesOrder | genet-filter/src/variant.rs:97-97 | two BigInts are ordered by the first byte that differs, and a beginning comes before what it begins |
| Variants.EqualLengthOrder | genet-filter/src/variant.rs:97-97 | of equally long bytes this is the order of the unsigned numbers, and that of the signed ones turned round if their signs differ |
| Numerals.MinimalUnique | genet-filter/src/variant.rs:54-60 | minimal two's-complement bytes are the only minimal ones of their number |
| Numerals.SignedIsComplement | genet-filter/src/variant.rs:24-24 | the bytes of a BigInt are two's complement: a negative one is the unsigned number less the weight of the next byte |
| Numerals.UpperCaseReads | genet-filter/src/parser.rs:90-93 | digits in upper case read as the same number |
| Numerals.DigitsRoundTrip | genet-filter/src/variant.rs:170-180 | digits in any radix up to 16 read back as the number |
| Json.RoundTrip | genet-filter/src/variant.rs:174-174 | a string written as JSON (section 7 of RFC 8259) reads back as itself |
| Json.CodePointReads | genet-filter/src/parser.rs:98-100 | every character can be written as its code point in four hexadecimal digits, or as two surrogates |
| Json.PlainIsWritten | genet-filter/src/variant.rs:174-174 | a text without quotes, backslashes and control characters is written as itself between quotes |
| GenetFormat.ThroughFile | package/genet-file/format/src/lib.rs:27-53 | through a file values stay what they are, but big integers and slices become nil |
| GenetFormat.ValueRoundTrip | package/genet-file/format/src/lib.rs:16-25 | a value reads back from its bytes, whatever follows them |
| GenetFormat.FrameRoundTrip | package/genet-file/format/src/lib.rs:61-72 | a frame record reads back from its bytes, whatever follows them |
| GenetFormat.HeaderRoundTrip | package/genet-file/format/src/lib.rs:9-14 | the header reads back from its bytes, whatever follows them |
| GenetFaults.TagsOfValues | package/genet-file/format/src/lib.rs:16-25 | a value begins with its number among the variants, in four bytes |
| GenetFaults.CutHeaderIsRefused | package/genet-file/reader/src/lib.rs:34-65 | a file that ends before its header does is refused |
| GenetFaults.HeaderOpensOrPanics | package/genet-file/reader/src/lib.rs:34-65 | a header opens with its tables, or panics exactly when a class names a token that is not there |
| GenetFaults.EntryPanics | package/genet-file/reader/src/lib.rs:85-109 | an entry that names a token or a class that is not there panics |
| GenetFaults.CutFileIsError | package/genet-file/reader/src/lib.rs:85-109 | entries that are cut anywhere give an error and no entry, and the reader still expects as many |
| Encoding.BytesInOrder | package/pcap-file/reader/src/lib.rs:30-58 | little-endian bytes begin with the least significant one, big-endian bytes end with it |
| Encoding.Utf8Samples | package/genet-file/writer/src/lib.rs:107-107 | characters of each length have the bytes of section 3 of RFC 3629 |
| Encoding.Utf8RoundTrip | package/genet-file/writer/src/lib.rs:107-107 | the bytes of a text are read as the text |
| GenetWriter.Intern | package/genet-file/writer/src/lib.rs:55-69 | the index found or made is that of the entry, earlier indices stay, and no duplicate arises |
| GenetWriter.Worker.GetTokenIndex | package/genet-file/writer/src/lib.rs:55-61 | the search and push intern the token |
| GenetWriter.Worker.GetAttrIndex | package/genet-file/writer/src/lib.rs:63-69 | the search and push intern the pair of id and type |
| GenetWriter.Worker.Write | package/genet-file/writer/src/lib.rs:73-94 | one entry for the first layer, or none and grown tables when a value cannot be read |
| GenetWriter.Classes | package/genet-file/writer/src/lib.rs:97-105 | the token indices of each class name its id and type, and are in range |
| GenetWriter.Worker.End | package/genet-file/writer/src/lib.rs:96-121 | the output is the header with its length, then each frame record with its length and data |
| GenetReader.Open | package/genet-file/reader/src/lib.rs:34-65 | opening gives the tables of the header, an error on malformed bytes, a panic on an index out of range |
| GenetReader.Worker.Read | package/genet-file/reader/src/lib.rs:85-109 | all entries or the first failure, and no entries left after success |
| GenetFile.WriteStores | package/genet-file/writer/src/lib.rs:54-94 | a write keeps the tables free of duplicates and the meaning of every earlier entry, every index is in range, and the new entry means the frame |
| GenetFile.FileRoundTrip | package/genet-file/reader/src/lib.rs:85-109 | reading gives back every written frame in order, with its id, data and value attributes, and nothing when read once more |
| PcapFormat.PacketOfLayer | package/pcap-file/reader/src/lib.rs:117-128 | the writer finds in a layer that was read the fields that the reader put there |
| PcapWriter.Worker.WriteHeader | package/pcap-file/writer/src/lib.rs:52-67 | the header is written once, in its order and widths |
| PcapWriter.Worker.Write | package/pcap-file/writer/src/lib.rs:71-101 | one record, after the header at the first; nothing when a field cannot be read |
| PcapWriter.WritesFile | package/pcap-file/writer/src/lib.rs:25-35 | after any writes the file holds exactly the packets of the successful ones, behind one header |
| PcapReader.Worker.Read | package/pcap-file/reader/src/lib.rs:134-149 | the block that 65535 turns gather; an error only while nothing was read |
| PcapFile.AnyMagicReads | package/pcap-file/reader/src/lib.rs:30-58 | under each magic number the packets come back in order in full blocks, fractions scaled to nanoseconds |
| PcapFile.CutRecordIsNone | package/pcap-file/reader/src/lib.rs:106-131 | a record that is cut anywhere is no record, and the rest of the input is swallowed |
| PcapFile.CutFileReads | package/pcap-file/reader/src/lib.rs:134-149 | a file cut inside its last record reads as the packets before it, and then ends |
| PcapFile.MagicsReadAlike | package/pcap-file/reader/src/lib.rs:32-38 | the same records read alike under all four magic numbers, as long as the scaled fractions fit in 32 bits |
| PcapFile.PcapRoundTrip | package/pcap-file/writer/src/lib.rs:71-101 | what was written is read back, then the end of the file; a file opens exactly if it holds a packet, and link types return exactly if they are all the same |
| PcapFile.SecondLinkIsLost | package/pcap-file/writer/src/lib.rs:52-67 | of two frames with different link types the second comes back with the type of the first |
| PcapFile.CopyIsTheFile | package/pcap-file/writer/src/lib.rs:71-101 | writing what was read makes the same file |
| TcpStream.Stream.Fetch | package/tcp/tcp-stream/src/lib.rs:37-55 | the loop hands out the segments that start at the offset, one after the other |
| TcpStream.PlayReassembles | package/tcp/tcp-stream/src/lib.rs:26-55 | for non-overlapping segments in any order with fetches in between, the fetched bytes are the stream up to the offset and nothing below it is pending |
| TcpStream.FetchStopsAtGap | package/tcp/tcp-stream/src/lib.rs:43-51 | a fetch stops only where the next byte was never put |
| TcpStream.CoveredStreamIsDelivered | package/tcp/tcp-stream/src/lib.rs:37-55 | once all bytes were put, a final fetch has delivered them all and the map is empty |
| TcpStream.StaleBlocksForever | package/tcp/tcp-stream/src/lib.rs:41-48 | once something waits below the offset nothing is delivered any more, whatever is put |
| TcpOverlap.PutGoesStaleIff | package/tcp/tcp-stream/src/lib.rs:26-35 | a put leaves something below the offset exactly if its data is not empty and starts there |
| TcpOverlap.FetchGoesStaleIff | package/tcp/tcp-stream/src/lib.rs:37-55 | a fetch does exactly if a pending segment begins strictly inside one that the fetch reaches and hands out |
| TcpOverlap.BlockedIff | package/tcp/tcp-stream/src/lib.rs:26-55 | after any puts and fetches the stream is blocked exactly if one of the calls was such a put or such a fetch, as the caller could see before it |
| TcpOverlap.PiecesDeliverPrefix | package/tcp/tcp-stream/src/lib.rs:26-55 | even for overlapping and repeated pieces of one stream, what is handed out is its beginning, up to the offset |
| TcpOverlap.OverlapBlocks | package/tcp/tcp-stream/src/lib.rs:37-55 | two overlapping pieces, none put below the offset, block their stream before its last byte |
| TcpCoverage.BlockedForGoodIff | package/tcp/tcp-stream/src/lib.rs:26-55 | no further calls can deliver anything exactly if something waits below the offset |
| TcpCoverage.LiveDelivers | package/tcp/tcp-stream/src/lib.rs:26-55 | otherwise a put at the offset and a fetch do |
| TcpCoverage.DeliveredIff | package/tcp/tcp-stream/src/lib.rs:26-55 | overlapping and repeated pieces of one stream that is not blocked: after a fetch all of it is delivered exactly if each byte is in a put that no later one at the same position replaced while it waited |
| TcpCoverage.ShorterReplaces | package/tcp/tcp-stream/src/lib.rs:26-35 | a short piece replaces a longer one, and two bytes are lost without the stream being blocked |
| RangeMerge.Merge | src/view/display/output-dialog.ts:9-39 | the output ranges are increasing and apart, and cover exactly the selected numbers; neighbouring numbers share a range exactly when one input selects both |
| System.SystemRefinesSequential | genet-kernel/src/decoder/parallel.rs:30-51 | with a dispatcher in every parallel thread and one in the serial thread, under any interleaving, the store is a prefix of the sequential decoding of the layers that were pushed, if the results of parallel decoders depend on the frame alone |
| System.StoredFramesAreTrees | genet-kernel/src/decoder/dispatcher.rs:30-76 | in every run of these threads, frame i of the store has index i, the layers of the first pass of the i-th layer that was pushed with attributes and payloads added at most, and counts that treefy can use |
| System.SelfFilterListsIff | genet-kernel/src/binding/attr.rs:99-109 | in every run that sets it, the filter written for a value of an id lists exactly the stored frames on which the id compares equal to the value as read |
| System.SelfFilterListsItsFrame | genet-kernel/src/binding/attr.rs:99-109 | in every run that sets the filter written for it, if an attribute of a stored frame is the first of its id in its layer and no layer above says anything about the id, that filter lists the frame exactly if it is not a negative BigInt, nor a big one with needless bytes |

## Left out

- Float64 values: printing, parsing, comparing, negating and casting them are parameters (`Variants.Floats`); they are
  carried as 64-bit patterns, and expressions with float literals are not part of the round trips.
- IPv4, IPv6 and MAC text forms are parameters; `FilterSelfMatch.AddressLaws` says that the library reads what it writes.
- Overflow: integer negation, the frame counter and the scaling of pcap fractions wrap around, as in a release build; a
  debug build panics instead.
- PipelineTheorems.ConcurrentRefinesSequential: for at most 2^32 accepted frames, because indices are 32 bits wide and
  the serial decoder's own counter is not; the other theorems about runs have the same bound.
- Close, joining of threads, caught panics, unset inputs and the callbacks for inputs and for the number of frames.
- Decoders that add layers in a call that they skip are not part of this model (`Dispatcher.Polite`).
- Decoders of the serial pass that add layers: their counts are appended per visited leaf and describe no tree.
- System.StoredFramesAreTrees: for parallel decoders whose results depend on the frame alone
  (`DispatcherTheorems.Memoryless`); `ThreadMemory.StoreDependsOnThreads` shows why.
- TreeBuilder.Builder.Treefy: not for counts that claim more layers than there are, which no dispatcher stores, and not
  for a second read that claims more layers than it has counts for.
- System.SelfFilterListsItsFrame: for attributes that their id reads as; SelfFilterListsIff says what holds of the others.
- FilterText.PrintedIsFlat: for expressions without float literals, with ids that the grammar reads as members and macros
  without blanks; other ids and macros print as something else altogether.
- Aliases in the attribute lookup of layers, and the display fields of attributes and layers.
- Errors of the file system while writing; reading stands on the bytes of a whole file.
- GenetFile.FileRoundTrip: for files shorter than 2^64 bytes.
- PcapReader.Worker.Read: gives packets; the layer made of a packet is `PcapFormat.LayerOf`, with the time as a float a parameter.
- The caching of link layer classes by the genet file reader, which does not change what is read.
- TcpCoverage.DeliveredIff: for streams that are not blocked; of a blocked one nothing more is delivered, and
  PiecesDeliverPrefix says what was.
- Sequence numbers of TCP segments: the offset arithmetic before `put` is not part of this model.
- The text of export ranges before and after merging: their numbers are given.
- The N-API bindings, the views, the package manager and the protocol field tables.
