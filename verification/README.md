# Fork-aware block streams, modelled and proved in Dafny

bstream turns blocks that arrive in any order, on several forks, into a stream of New, Undo, Irreversible and
Stalled events, and lets a consumer that went away come back with a cursor. This project models the parts that
must agree with each other about what such a consumer has seen, and proves that they do.

The yardstick is a small reference consumer (`consumer.dfy`): a stack of blocks whose lowest part is final. New
pushes a child of the top, Undo pops exactly the top and never a final block, Irreversible makes the next block
of the stack final, NewIrreversible does both, and every event has to name the consumer's final block as its LIB.
A list of events is *legal* for a consumer when it can obey all of it. Nearly every result says that some list is
legal, and where it leaves the consumer.

Two layers stand beside each other. The value layer (`*_model.dfy`) says what each operation computes, as
functions on values, and carries the theorems. The class layer (`forkdb.dfy`, `forkable.dfy`, `hub.dfy`,
`cursor_resolver.dfy`, `block_index.dfy`, `index_provider.dfy`, `file_reading.dfy`) is the program: mutable maps,
flags on shared objects, loops and queues, with every method proved equal to the value layer or against its own
specification.

## What the main results say

- **Every run is legal.** `RunCorrect`, `StepCorrect`, `InclusiveRunCorrect` and `DiscoveryStarts` cover every
  sequence of well-formed blocks, from a given LIB or from one found on the way. The invariant `Inv` ties the
  consumer's stack to the stored chain from the LIB to the last block sent. `Forkable.ProcessBlock` refines the
  step these theorems are about.
- **The cache is exact.** `CacheIsExact` is about any chain that was cached, also by blocks of a side branch.
- **Finality.** `FinalityOverRuns`: one parent-linked chain, each block once, no block both final and stalled.
  `StalledExactly` is the other half: which blocks are declared stalled.
- **In numbers.** `HeadOnlyRises`, `HigherTakesHead`, `StepKeeps` and `StepTells` say of one step, in the numbers that
  arrive, when the head changes, what stays stored and what every event names.
- **Coming back.** `ResumeAfterRun` and `ResumesExactlyWhen`: when resuming equals never having disconnected. Two
  families of runs break it, a LIB at a numbering hole (`HoleBreaksResuming`) and an undone block that becomes final
  (`ReturnBreaksResuming`); the condition shuts out exactly those. `ResumesWithinKept`: the kept final blocks
  are what keeps cursors good. `FromNumIsLed` and `ThroughCursorIsLed` are about the other two lists; `CursorListExists`,
  `FromNumExists` and `ThroughExists` say when there is a list at all.
- **The hub.** `Session`: whatever the interleaving of blocks and deliveries, a subscriber's handler sees a prefix
  of one legal stream.
- **Files.** `ResolverBrings` and `PassesThrough` for the cursor resolver; `ReadFiles` and `HandedOnExactly` for
  reading by index, `IndexAndLookUp` for the index itself; `TextRoundTrip` and `NameRoundTrip` for the text forms,
  each with its exact condition.

Some promises do not hold of the code as it is. Besides the two families above: a fork numbered in a hole just above
the LIB is passed by without ever being declared stalled (`StalledUnlessInHole`, `MissedInHole`). And the comment at `filesource.go:193`
says that the first block after the cursor's is sent even if it does not match the filter. `WhitelistedExactly` says
when: it has to lie in the bundle of the cursor's number plus one, and that bundle's file has to be there at the first
check, because a whitelisted number is forgotten once its bundle has been looked up (`ReadFrom97`).

## Assumptions

- `WellFormed`: an id determines its block; ids and parent ids are not empty; a parent is numbered below its child;
  a block's LIB number is not above its own number. The parameter `u` holds all blocks that exist; the operations
  take it as a ghost, so that nothing is computed from it.
- `RefOk`: a LIB carries a number above its parent block's and not above its own block's. Numbering holes are
  allowed: `forkable/forkdb.go:248-253` returns the number asked for with the id of the next block.
- `SuffixesTell`: the last 16 characters tell blocks and parents apart. `ResolverModel.FilesOk`: the forked-block
  store holds blocks that exist under those characters. `FileSource.FilesOk`: a merged file is in ascending order and
  holds nothing above its bundle.
- Each call runs under its lock and is one atomic step. Between steps, deliveries may happen in any order.
- Numbers are unbounded. Where the width is checked by the program, as in parsing, it is written out.

Code and comments disagree in one more place: the comment at `steps.go:32` gives 5 for the combined step; the value is 17, as
the model has it.

## Model

| member | source | states |
|---|---|---|
| `Consumers.FinalBlocksStay` | forkable/forkable.go:894-934 | Of any legal stream: final blocks are never undone, the stack's final part grows by exactly the blocks declared final, in order, and stalled blocks are remembered |
| `Consumers.FinalityOfLegalStreams` | forkable/forkable.go:894-968 | Of any legal stream: the blocks declared final form one parent-linked chain from the consumer's final block, none twice, and none of them is ever stalled |
| `Consumers.FewerStalled` | forkable/forkable.go:936-968 | A consumer that knows fewer stalled blocks follows the same stream to the same stack and final block |
| `ForkDbModel.BlockInChainMeaning` | forkable/forkdb.go:228-258 | From a start block at or above a height: the lowest ancestor-or-self numbered that height or more, under the number asked for; empty exactly when no known ancestor is that low |
| `ForkDbModel.PurgeInvisibleAboveLib` | forkable/forkdb.go:472-507 | For every start block the reversible segment is the same before and after a purge with any number of kept blocks, and kept and purged blocks partition the stored ones |
| `ForkDbModel.PurgeKeeps` | forkable/forkdb.go:472-507 | A stored block survives a purge if and only if the LIB is no more than the kept number above it |
| `ForkDbModel.StalledSpan` | forkable/forkdb.go:401-438 | A block is listed as stalled if and only if it is stored beside the segment and numbered from the segment's first block up to the LIB; a segment of one block spans just the LIB's number |
| `ForkDbModel.SwitchUnique` | forkable/forkdb.go:136-187 | There is at most one nearest common ancestor, with one undo path and one redo path |
| `ForkDbModel.SwitchFromRoot` | forkable/forkdb.go:136-187 | Two paths off one root agree up to a point; that point is the junction, and what lies above it are the undo and redo paths |
| `ForkDbModel.ListsUnique` | forkable/forkdb.go:401-438 | The stalled blocks have exactly one listing by ascending id |
| `Chain.CycleHasNoEnd` | forkable/forkdb.go:274-278 | A walk that meets a block again has no end: its start has no complete path on that link map |
| `ForkDbClass.ForkDB.AddLink` | forkable/forkdb.go:196-226 | Stores a block that is not its own parent and not stored yet, and reports whether it was stored and whether its parent is |
| `ForkDbClass.ForkDB.SetLIB` | forkable/forkdb.go:94-114 | Sets a first LIB exactly when the head is the first streamable block or the links reach down to the LIB number |
| `ForkDbClass.ForkDB.BlockInCurrentChain` | forkable/forkdb.go:228-258 | The loop finds the block that `BlockInChainMeaning` characterises |
| `ForkDbClass.ForkDB.CompleteSegment` | forkable/forkdb.go:266-321 | On any link map, cyclic ones too, the walk ends; it returns the complete stored path when there is one, nothing when the links run in a circle, and tells whether it met the LIB |
| `ForkDbClass.ForkDB.ReversibleSegment` | forkable/forkdb.go:323-399 | On any link map the walk ends, and what it returns with the LIB reached is the parent-linked path from just above the LIB; on a well-numbered map it reaches the LIB exactly when that path exists |
| `ForkDbClass.ForkDB.StalledInSegment` | forkable/forkdb.go:401-438 | Exactly the stored blocks that are not in the segment and are numbered from its first element to its last, by ascending id |
| `ForkDbClass.ForkDB.HasNewIrreversibleSegment` | forkable/forkdb.go:440-458 | What becomes final when the LIB moves, and what stalls; nothing when the new LIB is the LIB or does not link to it |
| `ForkDbClass.ForkDB.ChainSwitchSegments` | forkable/forkdb.go:136-187 | The ids to undo from the old head down and to redo up to the new one, with the nearest common ancestor; all empty exactly when there is none |
| `ForkDbClass.ForkDB.PurgeBeforeLIB` | forkable/forkdb.go:472-507 | A block stays if and only if the LIB's number is at most its own plus the kept number; exactly the others are returned |
| `ForkableInvariant.CacheIsExact` | forkable/forkable.go:547-571 | Whenever the cached chain hangs off the LIB, appending to it gives what walking down from the new block gives, and the cache stays good |
| `ForkableInvariant.ReorgParts` | forkable/forkable.go:746-779 | The undone, redone and new blocks are consecutive parts of the old and the new chain around the fork |
| `ForkableInvariant.ReorgIsLegal` | forkable/forkable.go:690-723 | Undo, redo and new events take the consumer from the old stack to exactly the new chain |
| `ForkableInvariant.NewHeadKeepsInv` | forkable/forkable.go:573-735 | After the reorganisation the whole invariant holds again with the new block as head |
| `ForkableInvariant.AdvanceLibCorrect` | forkable/forkable.go:690-735 | The LIB stays or moves to a descendant; irreversible and stalled events are legal and keep the invariant |
| `ForkableInvariant.StepCorrect` | forkable/forkable.go:573-735 | For every block in every reachable state: legal events, the consumer back in step, and the LIB replaced only by a descendant |
| `ForkableRuns.RunCorrect` | forkable/forkable.go:573-735 | For every run in any arrival order the events are legal, and after it the stack above the final block is the stored chain from the LIB to the last block sent |
| `ForkableRuns.FinalityOverRuns` | forkable/forkable.go:654-735 | Over every run the irreversible events form one parent-linked chain from the initial LIB, each block once, and none of them stalled |
| `ForkableRuns.FinalityOfInclusiveRuns` | forkable/forkable.go:654-735 | The same over a run with an inclusive LIB, above the LIB block |
| `ForkableRuns.StepAdvances` | forkable/forkable.go:573-735 | Exactly when a block becomes the head, by its number, and exactly where the LIB is afterwards |
| `ForkableRuns.UndosStopAtJunction` | forkable/forkable.go:746-762 | After the undos of a reorganisation the consumer's top is the junction block; it is reported whenever something is undone, unless it is a LIB that is not stored |
| `ForkableRuns.StartInv` | forkable/options.go:45-58 | A Forkable with a known LIB starts in step with a consumer that stands on that LIB |
| `ForkableRuns.InitialBlock` | forkable/forkable.go:866-892 | With an inclusive LIB its block is sent as exactly two events, new and at once irreversible, and starts a stream of its own |
| `ForkableRuns.InclusiveRunCorrect` | forkable/forkable.go:573-735 | A run with an inclusive LIB, whichever block comes first: the LIB block is sent at most once and first, and everything else is legal for a consumer on the LIB |
| `ForkableRuns.DiscoveryStarts` | forkable/forkable.go:615-627 | While no LIB is known nothing is sent. The block that makes it known sends legal events for a consumer on the LIB and then exactly one Irreversible event, for the LIB block; when it is the LIB itself it is sent as new and final, or, under a number below its own, not at all |
| `StepFacts.HeadOnlyRises` | forkable/forkable.go:984-998 | A known head gives way only to a strictly higher block; any other block leaves head and LIB alone and sends nothing |
| `StepFacts.HigherTakesHead` | forkable/forkable.go:573-688 | Every strictly higher new block that is not below the LIB and links to it becomes the head |
| `StepFacts.StepKeeps` | forkable/forkable.go:690-735 | Exactly what is stored after a step: the new block unless it is refused, and, when the LIB moved, nothing more than the kept number below it |
| `StepFacts.KeptOverRuns` | forkable/forkable.go:690-735 | Over any run the LIB's number never falls, a block within the kept number of it is still stored, and so is every arrived block not below it |
| `StepFacts.StalledExactly` | forkable/forkable.go:690-735 | The other half of finality: a stored block is declared stalled if and only if the LIB moves past it beside the final blocks, with the numbers written out |
| `StepFacts.StalledUnlessInHole` | forkable/forkdb.go:401-438 | A block that the LIB passes by is declared stalled if and only if it is not numbered in a hole between the old LIB and the first block made final |
| `StepFacts.MissedInHole` | forkable/forkdb.go:401-438 | Such a block: 3, when 5 becomes final right after 1 |
| `StepFacts.StepTells` | forkable/forkable.go:781-968 | The head, LIB and junction that every event of a step names, and which LIB is known afterwards |
| `StepFacts.JunctionReported` | forkable/forkable.go:746-762 | A reorganisation opens with its undos, and each of them reports the block that is then the consumer's top |
| `StepFacts.DiscoversExactly` | forkable/forkdb.go:94-114 | Exactly which block makes a first LIB known, and which LIB that is |
| `ForkableClass.Forkable.constructor` | forkable/forkable.go:511-529 | Starts empty, with no LIB and nothing sent |
| `ForkableClass.Forkable.WithLIB` | forkable/options.go:45-58 | Starts from a given LIB, inclusive or exclusive, in the state `StartInv` is about |
| `ForkableClass.Forkable.ComputeNewLongestChain` | forkable/forkable.go:547-571 | The cached list, its numbers and its shared objects are the reversible segment of the new block |
| `ForkableClass.Forkable.SentChainSegment` | forkable/forkable.go:764-779 | All blocks of the ids when undoing, only those sent before when redoing; every id is stored, so the panic cannot happen |
| `ForkableClass.Forkable.SentChainSwitchSegments` | forkable/forkable.go:746-762 | What to undo and redo, and the junction when it is stored and something is undone |
| `ForkableClass.Forkable.ProcessBlocks` | forkable/forkable.go:781-818 | One event per block, in order, with the LIB, head and junction given |
| `ForkableClass.Forkable.ProcessNewBlocks` | forkable/forkable.go:820-864 | Sends exactly the blocks of the chain not sent before, flags the very objects stored, and makes the last one the head |
| `ForkableClass.Forkable.ProcessIrreversibleSegment` | forkable/forkable.go:894-934 | One irreversible event per block, each naming itself as LIB; the last one becomes the LIB that cursors name |
| `ForkableClass.Forkable.ProcessStalledSegment` | forkable/forkable.go:936-968 | One stalled event per block, in order |
| `ForkableClass.Forkable.ProcessInitialInclusiveIrreversibleBlock` | forkable/forkable.go:866-892 | Sends a block as new and irreversible without touching the stored objects |
| `ForkableClass.Forkable.AdvanceLIB` | forkable/forkable.go:690-735 | The end of a step: LIB moved, blocks purged, irreversible and stalled events in this order, as the model does |
| `ForkableClass.Forkable.ProcessBlock` | forkable/forkable.go:573-735 | State and events after one arriving block are those of the model's step; refused, with nothing changed, only when the block is its own parent |
| `ForkableClass.Forkable.BlocksFromNum` | forkable/forkable.go:177-223 | The list equals the one `FromNumIsLed` is about, errors included |
| `ForkableClass.Forkable.BlocksFromCursor` | forkable/forkable.go:259-348 | The list equals the one `ResumesExactlyWhen` is about, errors included, and the recursion ends |
| `ForkableClass.Forkable.BlocksThroughCursor` | forkable/forkable.go:350-432 | The list equals the one `ThroughCursorIsLed` is about, errors included |
| `Resume.ForwardIsLegal` | forkable/forkable.go:283-308 | From any position on the head's segment the forward events make the consumer final up to the LIB and lead it to the head |
| `Resume.CursorResumes` | forkable/forkable.go:259-348 | From any cursor whose branch is stored, forked or not: undo down to the segment, then forward to the head |
| `ResumeExact.ResumesExactlyWhen` | forkable/forkable.go:259-348 | A past position of a run is led to the live stack and final block if and only if the head's stored segment reaches the cursor's LIB number, the LIBs carry the numbers of their blocks or the LIB has not moved, and the block of an Undo cursor has not become final; then there always is a list |
| `ResumeExact.ResumeAfterRun` | forkable/forkable.go:259-348 | The cursor of any New or Undo event of a run, after any number of further blocks, takes its consumer to where the live consumer is if and only if that condition holds |
| `ResumeExact.UndoneFinalFails` | forkable/forkable.go:288-294 | An Undo cursor whose block has since become final: the list declares it irreversible, and the consumer, which does not have it, cannot obey |
| `ResumeKept.ResumesWithinKept` | forkable/forkable.go:259-348 | A cursor of a run whose LIB is no more than the kept number below the LIB takes its consumer to the live one, after any further blocks, if and only if the LIB is in order and an undone block has not become final: the stored segment is always long enough |
| `ResumeLists.CursorListExists` | forkable/forkable.go:259-348 | In any state and for any cursor: there is a list if and only if the head's segment meets the LIB, reaches down to the cursor's LIB and holds it, and stored blocks lead from the cursor's block to the segment |
| `ResumeLists.ReachesLibMeans` | forkable/forkdb.go:266-312 | The walk down from a block meets the LIB, stored or not, if and only if stored blocks lead from the LIB to it |
| `ResumeLists.ListForCursor` | forkable/forkable.go:283-347 | The events of such a list: undos first, naming the cursor's LIB and reporting where they stop, then only forward, naming the LIB or themselves |
| `ResumeWitness.HoleBreaksResuming` | forkable/forkdb.go:248-253 | Any chain of three blocks whose last reports a LIB number in the hole between the other two: the run sends a cursor whose list its own consumer cannot obey |
| `ResumeWitness.HoleExample` | forkable/forkdb.go:248-253 | Three such blocks, numbered 1, 5 and 6 with LIB number 3 |
| `ResumeWitness.ReturnBreaksResuming` | forkable/forkable.go:288-294 | Any block undone for a sibling and then made final by its child: the run sends an Undo cursor whose list its own consumer cannot obey |
| `ResumeWitness.ReturnExample` | forkable/forkable.go:288-294 | Four such blocks |
| `ResumeRuns.PositionAfter` | forkable/forkable.go:484-503 | In any legal stream the cursor of an event is where the consumer is after it |
| `ResumeHoles.MisalignedFails` | forkable/forkdb.go:248-253 | Where LIBs do not carry the numbers of their blocks and the LIB has moved, no list leads to the live consumer |
| `ResumeThrough.FromNumIsLed` | forkable/forkable.go:177-223 | The list exists exactly when a block of the head's segment has the number, wherever the LIB is. It takes the consumer that starts there to the head and the LIB, and cannot be obeyed exactly when it sends a LIB whose number is below its block's |
| `ResumeThrough.FromNumExists` | forkable/forkable.go:177-223 | In any state there is a list from a number if and only if the head links to the LIB and a block of its segment has the number |
| `ResumeThrough.FromNumAboveLib` | forkable/forkable.go:177-223 | With a LIB that is not stored the list takes the consumer that has the blocks below the start to the head |
| `ResumeThrough.NumTells` | forkable/forkable.go:177-223 | Step, head and LIB of every event of such a list |
| `ResumeThrough.ThroughExists` | forkable/forkable.go:350-432 | For any start block and cursor there is a list if and only if the segment starts low enough and the cursor's block is on it, or links to the LIB, is not below the start, and has its LIB on the segment |
| `ResumeThrough.ThroughExistsFromLib` | forkable/forkable.go:350-432 | With a start at or below the cursor's LIB a forked cursor gets a list if and only if stored blocks lead from its block down to the LIB |
| `ResumeThrough.ThroughExistsAnywhere` | forkable/forkable.go:350-432 | The same condition in any state at all, with a LIB that is stored or not |
| `ResumeThrough.ThroughCursorTells` | forkable/forkable.go:350-432 | Step, head and LIB of every event: along the branch those of the cursor, and then the list back to the chain |
| `ResumeThrough.ThroughCursorIsLed` | forkable/forkable.go:350-432 | A returned list takes a fresh consumer to exactly the canonical chain from the start block to the head, final up to the LIB, if and only if the LIBs involved carry the numbers of their blocks; a forked cursor is passed on the way, along its own branch |
| `HubClass.Subscription.Push` | hub/subscription.go:42-48 | Fails exactly when the queue is full, and then changes nothing |
| `HubClass.Subscription.Turn` | hub/subscription.go:50-64 | One turn of the delivery loop hands over exactly the front of the queue, nothing after a shutdown, ends the subscription exactly when the handler fails, and keeps handled plus queued what is due |
| `HubClass.Subscription.OfferServes` | hub/subscription.go:42-48 | An event offered to a subscription keeps it served: due events grow by that event, or the subscription ends with a prefix |
| `HubClass.ForkableHub.Subscribe` | hub/hub.go:156-164 | All initial blocks are queued: they never overflow |
| `HubClass.ForkableHub.Unsubscribe` | hub/hub.go:166-175 | Takes out exactly one subscriber and leaves the others in their order |
| `HubClass.ForkableHub.BroadcastBlock` | hub/hub.go:432-447 | Every subscriber is offered the event; exactly those with a full queue are cut off and removed; all others are still served |
| `HubClass.ForkableHub.ProcessBlock` | hub/hub.go:315-334 | Everything the Forkable emits for a block is broadcast once, in order |
| `HubClass.ForkableHub.SourceFromBlockNum` | hub/hub.go:177-190 | Subscribes with the blocks from a number, or not at all when there are none |
| `HubClass.ForkableHub.SourceFromCursor` | hub/hub.go:207-220 | Subscribes with the blocks from a cursor, or not at all on an error |
| `HubClass.ForkableHub.SourceThroughCursor` | hub/hub.go:222-240 | Subscribes with the blocks through a cursor, or from the start block when the cursor lies below it |
| `HubStreams.OneView` | forkable/forkable.go:573-735 | In any state there is only one stack above the final block to be in step with |
| `HubStreams.CursorJoins` | hub/hub.go:207-220 | The initial blocks for a cursor bring the consumer to the live one exactly when the cursor is resumable |
| `HubStreams.NumJoins` | hub/hub.go:177-190 | The initial blocks from a number bring the consumer that starts there in step, and cannot be obeyed when they send a LIB at a numbering hole |
| `HubStreams.ThroughJoins` | hub/hub.go:222-240 | The initial blocks through a cursor bring a fresh consumer in step exactly where the LIBs are in order |
| `HubStreams.StaysLive` | hub/hub.go:432-447 | Initial blocks followed by the events of any further run are legal, prefix by prefix, and end in step |
| `HubStreams.CursorStartsSession` | hub/hub.go:207-220 | A subscription made from a resumable cursor of the past is due exactly what brings its consumer to the live one, and `Session` is about it |
| `HubStreams.NumStartsSession` | hub/hub.go:177-190 | So is one made from a number, for the consumer that starts there |
| `HubStreams.ThroughStartsSession` | hub/hub.go:222-240 | So is one made through a cursor, for a fresh consumer |
| `HubStreams.Session` | hub/subscription.go:50-64 | For any interleaving of arriving blocks and deliveries: what the handler was given is one legal stream, and unless cut off, handled plus queued ends exactly where the Forkable is |
| `ResolverRuns.CanonicalBrings` | cursor_resolver.go:84-97 | When the cursor's block is fed, New and Undo cursors alike leave every block up to it on the stack and final |
| `ResolverRuns.WalksFork` | cursor_resolver.go:182-223 | The walk through forked blocks gives what is to be undone, top first, and the junction, exactly when every block above the junction has a file |
| `ResolverRuns.ForkBrings` | cursor_resolver.go:103-121 | On a fork: undone to the junction, final up to it, then new and final up to the triggering block; or an error with nothing sent |
| `ResolverRuns.ResolverBrings` | cursor_resolver.go:50-147 | Fed from the cursor's LIB: silent up to the cursor's height; then an error exactly when a block of the branch was neither fed nor stored, otherwise all blocks fed so far and from then on are on the stack and final |
| `ResolverRuns.PassesThrough` | cursor_resolver.go:55-74 | In passing through, every block fed comes out exactly once, in order, new and final, for any LIB at or below the cursor's block and any start |
| `ResolverRuns.ResolverTells` | cursor_resolver.go:50-147 | Undos come first, name the cursor's LIB and head, and report the seen block that is the parent of the last one; all other events are final and name themselves |
| `CursorResolverClass.CursorResolver.SendMergedBlocksBetween` | cursor_resolver.go:133-147 | Hands over exactly the blocks seen in a range of numbers, overwriting their steps in place |
| `CursorResolverClass.CursorResolver.SendUndoBlocks` | cursor_resolver.go:114-131 | One undo event per block with the cursor's LIB and head, and the junction |
| `CursorResolverClass.CursorResolver.SeenIrreversible` | cursor_resolver.go:173-180 | The first block seen whose id ends with a suffix |
| `CursorResolverClass.CursorResolver.Resolve` | cursor_resolver.go:182-223 | The loop returns what the recursive walk of `WalksFork` returns, and ends |
| `CursorResolverClass.CursorResolver.ProcessBlock` | cursor_resolver.go:50-112 | State, handed-over events and error are those of the model's step |
| `BlockIndexing.PlusAllKeys` | transform/block_index.go:128-135 | Adding a number under some keys changes what is said about that number only |
| `BlockIndexing.CoversOne` | transform/block_indexer.go:140-175 | The index being filled goes on saying of each number in its range just what the stream said |
| `BlockIndexing.CoversStays` | transform/block_indexer.go:140-175 | A written index goes on covering its range whatever higher numbers come |
| `BlockIndexing.BlockIndexer.Add` | transform/block_indexer.go:140-175 | For an ascending stream every file ever written covers its whole range of the stream, earlier files stay, and there is a file for exactly the ranges the stream has left, but for writes that failed |
| `BlockIndexing.RangesFiled` | transform/block_indexer.go:140-175 | A stream that starts on a boundary, on the first streamable number or where indexing was told to start: every range it entered and left is filed |
| `BlockIndexing.OnlyRangesFiled` | transform/block_indexer.go:140-175 | Only ranges that the stream left are filed, each on a boundary, entered or the one told to start with |
| `IndexProviding.IndexAndLookUp` | transform/block_index_provider.go:71-148 | An indexer told of a whole stream and a provider over the files it wrote: a bundle is answered if and only if its range has been filed and that write succeeded, and then with exactly the stream's matching numbers |
| `IndexProviding.GetByPrefixAndSuffix` | transform/block_index.go:60-81 | The union over exactly the keys that match; nothing when none does or there is nothing to match |
| `IndexProviding.KeyMatchesMeans` | transform/block_index.go:60-81 | A key matches if and only if it begins with the prefix and ends with the suffix |
| `IndexProviding.PrefixAndSuffixIsPointwise` | transform/block_index.go:60-81 | Listing what matches a prefix and a suffix looks at each number by itself |
| `IndexProviding.BundleInRange` | transform/block_index_provider.go:125-148 | An aligned bundle fits inside the index range that holds its first number when sizes are multiples of the bundle size |
| `IndexProviding.IndexProvider.FindIndexContaining` | transform/block_index_provider.go:125-148 | The first possible size, not below the bundle's, with a file for the bundle; none only when no such file exists |
| `IndexProviding.IndexProvider.LoadRange` | transform/block_index_provider.go:98-121 | Keeps the loaded range when it holds the bundle, otherwise loads one that does; fails only when there is none |
| `IndexProviding.IndexProvider.BlocksInRange` | transform/block_index_provider.go:71-96 | Whichever range was loaded: ascending numbers, and within the bundle exactly the stream's matching blocks; the number just after the bundle may come along |
| `FileReading.IncomingBlocksFile.PassesFilter` | blocktypes.go:29-46 | Takes exactly the wanted numbers at or below the block's off the front; the block passes when there was one |
| `FileReading.IncomingBlocksFile.ReadBlocks` | filesource.go:440-490 | Over ascending blocks exactly the first at or above each number of the filter pass; all without a filter |
| `FileReading.FileSource.TakeWhitelisted` | filesource.go:336-348 | Takes the whitelisted numbers of a bundle, and drops those below it |
| `FileReading.FileSource.TweakRangeIndexResults` | filesource.go:336-381 | Index numbers, whitelisted ones, start and stop: ascending, each once, within start and stop, when there is something to add; otherwise the index's numbers |
| `FileReading.FileSource.LookupBlockIndex` | filesource.go:383-411 | Jumps only over bundles without a wanted number, returns exactly those wanted in the bundle, never passes the stop block's bundle, and ends |
| `FileReading.FileSource.NextBundle` | filesource.go:585-607 | The bundle to read next, over bundles without a wanted number only, with exactly the numbers wanted there, retries included; without a filter exactly where the index ends, or one bundle below when that file is missing |
| `FileReading.FileSource.ReadFile` | filesource.go:413-490 | What passes of one file is exactly the first block at or above each number wanted in its bundle; all of it without a filter |
| `FileReading.FileSource.ReadFiles` | filesource.go:574-653 | The whole loop over files that may be missing at first: every bundle up to the end was read as its wanted numbers say, or has none and was jumped over; whole bundles from where the index ends; the loop ends only past the stop block or at a missing file |
| `FileReading.FileSource.HandedOnExactly` | filesource.go:336-411 | A block is handed on if and only if it is the first at or above a number wanted in its own bundle |
| `FileReading.FileSource.HandedOnWhenAsked` | filesource.go:336-411 | The same with what is asked for spelled out: the start, the stop, whitelisted numbers of a file that was there at once, and numbers whose keys are wanted, all between start and stop |
| `FileReading.FileSource.HasBlockMeans` | filesource.go:440-490 | A file offers exactly the blocks of its bundle that are not below the start |
| `FileReading.FileSource.WantedIsSent` | filesource.go:336-411 | A block that is wanted itself is handed on |
| `FileReading.FileSource.WhitelistedExactly` | filesource.go:336-348 | The first block at or above a whitelisted number that nothing else selects is handed on if and only if it lies in the number's bundle and that file was there at the first check |
| `FileReading.ReadFrom97` | filesource.go:193-200 | Blocks 97, x and 200 and a cursor at 97: the first block after the cursor's is sent if and only if it lies in the same bundle of 100 and that file was there at the first check |
| `Text.PrintIsRead` | cursor.go:176-183 | A printed decimal number is read back |
| `Text.SplitJoin` | cursor.go:77-78 | Fields without the separator come back from the joined text |
| `Text.JoinCount` | oneblockfile.go:133-138 | Every separator inside a field makes one more field |
| `CursorText.TextRoundTrip` | cursor.go:64-174 | A cursor comes back from its text if and only if its step can be read, no id holds a colon and equal ids carry equal numbers wherever a short form relies on it |
| `CursorText.FormAndStep` | cursor.go:64-76 | The form and the step of any cursor as they are written: 1, 2, 16 and 17 for the steps a cursor can have |
| `CursorText.FieldsWritten` | cursor.go:64-76 | All further fields of the three forms, in their order |
| `OneBlockFiles.NameFields` | oneblockfile.go:129-172 | What is in a name: ten digits, the last sixteen characters of both ids, the LIB number and the suffix |
| `OneBlockFiles.NameRoundTrip` | oneblockfile.go:129-172 | A file name is read if and only if its numbers fit 32 bits and no field holds a dash, and then every field comes back |
| `OneBlockFiles.ListedInOrder` | cursor_resolver.go:149-163 | Below ten digits a listing from a padded number on holds a file name if and only if its block has that number or a higher one |

## Left out

- Step filters, `EnsureBlockFlows`, `EnsureAllBlocksTriggerLongestChain`, and running without a LIB while not holding blocks back: they deliberately give up the one-chain view.
- The counters of consecutive unlinkable blocks: they depend on a clock and can only end the stream with an error.
- A failing handler of the Forkable: events are emitted one at a time, so a prefix of a legal list was sent; `ApplyPrefix` shows it is legal.
- The step index, step count and step blocks of multi-block events: they repeat what the list of events says.
- `Linkable`, bootstrap, reconnect and linking by one-block files in the hub: readiness heuristics around further `ProcessBlock` calls.
- `blocksFromNumWithForks`: it carries no steps, so there is no consumer to be legal for.
- Plain Irreversible cursors: they belong to consumers of final blocks only, which have no stack to resume.
- ResumeThrough.ThroughCursorIsLed: start blocks above the cursor's LIB are not covered; along a forked branch the list may then undo blocks below the start block, which only a consumer that already has them can obey.
- Joining file and live sources: the switch may happen at any event and depends on facts outside these files.
- Goroutines, channels, retry timers, shutdown, metrics, logging, object stores and protobuf: a store is a map, and the progress timer of index lookups is a parameter that says for each bundle whether time is up.
- ForkDbClass.ForkDB.AddLink: not for an empty parent id. The program takes an empty entry of `links` for a missing one, so such a block would count as not stored; every block has a parent id.
- ForkDbClass.ForkDB.PurgeBeforeLIB: the purged blocks are returned as a map by id rather than as a list, because the order of the list is that of a Go map.
- ForkableClass.Forkable.SentChainSwitchSegments: returns the blocks' objects; the application object each one carries is not modelled.
- CursorResolverClass.CursorResolver.Resolve: the check at `cursor_resolver.go:203-205` is not repeated, because the listing from the LIB's number already leaves such files out below ten digits; both give an error.
- HubClass.ForkableHub.ProcessBlock: the events of one block are broadcast after the Forkable has made all of them, not in between; no subscriber can tell.
- IndexProviding.IndexProvider.BlocksInRange: the store of index files does not change while it is being read.
- FileReading.FileSource.ReadFiles: a file that never shows up ends the model's loop, where the program goes on retrying; storage errors and the existence check at `filesource.go:598`, which changes nothing, are not modelled; files are read one after another, while the program overlaps them and hands their blocks on in order.
- FileReading.IncomingBlocksFile.ReadBlocks: the check that blocks follow each other, the gator and the resumption after a read error are not modelled.
- Gates, gators, trackers, buffers and negative start blocks: each looks at one block or one number at a time and keeps nothing that the other parts rely on.
