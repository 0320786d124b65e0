# amast verified

amast is a runtime for event driven embedded programs in C. This project models
eleven of its parts in Dafny and proves what they are for. Where the C code
changes state in place the model is a class with the same fields and methods;
each method is proved to do what a function on plain values says, and the
theorems are about those functions, over all inputs or all runs.

| part | modules | what is proved |
|---|---|---|
| ring buffer | RingProtocol, RingSafety, RingBuffer, RingFreeSize | exactly when a request is granted and where; one writer and one reader, every atomic access a step of its own, in every interleaving: the consumed bytes are a prefix of the committed ones, the two grants never overlap, no assertion fails |
| state machine engine | HsmSpec, HsmTheorems, HsmDispatch, HsmEngine | what a dispatch calls and where it ends, told by the handlers' answers; entry, exit and init calls form brackets whose open ones are the ancestors of the active state; every handler called for an event finds the state that is really active and its own instance; the least common ancestor search is right; the depth bound is enough and tight |
| dining philosophers | DiningSpec, DiningSafety, DiningSessions, DiningTable | neighbours never eat together, no wake-up is lost, the protocol never gets stuck, how many meals are served, for any number of philosophers |
| linked list, timer | SList, TimerSpec, TimerEngine | the pointer operations are sequence operations; a walk that drops items visits each once; an armed event fires on exactly its ticks whatever happens to other events meanwhile; when the timer lets go of an event |
| block allocator | PoolSpec, Onesize | free and live blocks always split the pool; iteration visits the live ones in order |
| events | EventSpec, EventAlloc, EventQueue, EventAsync, EventBus, EventOrder | reference counters equal queue slots plus holds, blocks go back exactly with the last reference, when publishing keeps that true; a publish over real queues and one allocator gives each subscriber with room the event once; events leave a queue in the order they were posted |
| cooperative scheduler | Bit, CoopSpec, CoopPort | the two level bit array is a set; no lost wake-up; the loop ends with the highest waiting active object |
| checks | CrcSpec, CrcTables, Crc | the tables and loops compute polynomial remainders; short windows of damage are detected |
| byte stuffing | CobsSpec, Cobs | what the encoder writes expands to its source, exactly when; which blocks it chooses; the exact size bound |

Arithmetic holds shared facts about division, Options the type of values that may be missing.

## How the C code is represented

- Memory that C reaches through pointers is explicit: the list items are heap
  objects, buffers are arrays, blocks are addresses. Critical sections are steps.
- Integers are unbounded where the source's asserts keep them in range (offsets,
  counters, ticks). Where width matters it is explicit: bytes are `bv8`, the CRC
  registers `bv32` (unsigned int) and `bv64` (unsigned long), a reference counter
  is at most 127.
- AM_ASSERT is a Dafny assert, a precondition when it checks the caller, or an
  outcome of the step when the theorem is that it cannot fail.
- User handlers of state machines are an arbitrary function of everything that
  happened before, of the event, and of the instance and active state they find. Interrupts are arbitrary actions between critical sections.

## What turned out not to hold

- A push that fails because of its margin drops a reference its caller still
  holds (`EventSpec.PostKeepsBooks`), so publishing keeps the counters right
  exactly when no push fails (`EventSpec.PublishKeepsBooks`). With one event in a
  queue of two slots, publishing another with margin 1 frees it under its
  publisher (`EventSpec.PublishBreaksBooks`).
- The handler of active objects answers true even when its queue refuses the
  event, so am_ao_publish_x and the posts with a margin answer true always, while
  ao.h promises false for an event not delivered. True is right exactly when every
  target has room (`EventBus.DeliveredToAll`, `EventBus.LostUnnoticed`).
- The reader of a ring buffer may not ask for the free size: read_skip is loaded
  first and may be stale when the writer wraps (`RingFreeSize.ReaderMayNot`,
  `RingFreeSize.FreeSizeFails`).
- The encoder loses a last nonzero byte that follows a zero it still holds back,
  as in {0, 5} (`CobsSpec.RoundTripIff`, `CobsSpec.SwallowedWhen`), and the size
  macro in its header is one short for 224 nonzero bytes (`CobsSpec.MacroEnough`).
- An event that is armed again while it waits for its visit in the tick going on
  counts that tick (`TimerSpec.Firing` gives the tick its countdown starts from,
  `TimerSpec.RearmedFiresAtOnce` a run).
- crc.h allows empty data; the code asserts that there is some, and the model
  follows the code.

## Model

| member | source | states |
|---|---|---|
| `RingSafety.WriterStable` | libs/ringbuf/ringbuf.c:85-149 | whatever the reader may do between two atomic accesses of the writer keeps what the writer knows, at every program point |
| `RingSafety.ReaderStable` | libs/ringbuf/ringbuf.c:48-83 | whatever the writer may do between two atomic accesses of the reader keeps what the reader knows |
| `RingSafety.GetWriteStepOk` | libs/ringbuf/ringbuf.c:85-126 | each step fails no assertion, keeps the offsets valid, moves the cells only as the reader relies on, and grants only free memory |
| `RingSafety.FlushStepOk` | libs/ringbuf/ringbuf.c:128-149 | each step fails no assertion and leaves what is left of the grant free |
| `RingSafety.GetReadStepOk` | libs/ringbuf/ringbuf.c:48-83 | each step fails no assertion, moves the cells only as the writer relies on, and grants only unread memory |
| `RingSafety.SeekStepOk` | libs/ringbuf/ringbuf.c:151-178 | each step fails no assertion and leaves what is left of the grant unread |
| `RingSafety.FlushData` | libs/ringbuf/ringbuf.c:128-149 | only the store of write_offset changes the unread bytes, and it appends the flushed ones |
| `RingSafety.SeekData` | libs/ringbuf/ringbuf.c:151-178 | only the store of read_offset changes the unread bytes, and it removes the ones sought over from the front |
| `RingSafety.StepInv` | libs/ringbuf/ringbuf.c:48-193 | every step of either process keeps the invariant |
| `RingSafety.StreamSafety` | libs/ringbuf/ringbuf.c:48-178 | in every interleaving no assertion fails and the committed bytes are the consumed ones followed by the unread ones, and data sizes answered are exact |
| `RingSafety.GrantSafety` | libs/ringbuf/ringbuf.c:48-126 | in every interleaving the two granted regions lie in the buffer and do not overlap, and the read grant holds the next committed bytes |
| `RingSafety.GrantsAreStable` | libs/ringbuf/ringbuf.h:112-136 | no action of one process takes its grant from the other or changes the bytes behind the read pointer |
| `RingBuffer.EmptyBufferGrants` | libs/ringbuf/ringbuf.c:48-126 | an empty buffer grants any request below its size, at once or after one failed attempt and one look of the reader |
| `RingBuffer.Ring.GetWritePtr` | libs/ringbuf/ringbuf.c:85-126 | in offsets, exactly when it grants, where and how much, and when it wraps: the gap to the reader less one byte, or the tail, or all before the reader less one byte; it does what the protocol's steps do and keeps the contents |
| `RingBuffer.Ring.Flush` | libs/ringbuf/ringbuf.c:128-149 | appends the flushed bytes to the contents; the write offset goes back to 0 at the end of the memory |
| `RingBuffer.Ring.GetReadPtr` | libs/ringbuf/ringbuf.c:48-83 | grants a prefix of the contents, nothing only if they are empty; in offsets, all up to the writer, or up to the skipped tail, or after a wrap all before the writer |
| `RingBuffer.Ring.Seek` | libs/ringbuf/ringbuf.c:151-178 | removes bytes from the front of the contents; the read offset goes back to 0 where the data end |
| `RingBuffer.Ring.GetDataSize` | libs/ringbuf/ringbuf.c:180-193 | the number of bytes in the contents |
| `RingBuffer.Ring.GetFreeSize` | libs/ringbuf/ringbuf.c:195-210 | the memory less what is unread, one byte, and the skipped tail while the reader is before it |
| `RingFreeSize.WriterMayAsk` | libs/ringbuf/ringbuf.c:195-210 | asked by the writer, the assertion holds for every movement of the reader between the loads, the answer is exactly what was free when read_offset was loaded less the skipped tail, and never more than what is free then |
| `RingFreeSize.ReaderMayNot` | libs/ringbuf/ringbuf.c:195-210 | asked by the reader, it fails exactly when read_skip was stale and the writer wrapped between the loads |
| `RingFreeSize.FreeSizeFails` | libs/ringbuf/ringbuf.c:195-210 | a sequence of calls on a buffer of 10 bytes after which it fails |
| `HsmSpec.Chain` | libs/hsm/hsm.h:303-327 | the superstates of a state, as many as its level |
| `HsmTheorems.KeptIsShared` | libs/hsm/hsm.c:218-254 | the states a transition to another state neither exits nor enters are exactly the superstates source and target share, so the search finds the least common ancestor |
| `HsmTheorems.SharedIsKept` | libs/hsm/hsm.c:228-251 | a state on both chains lies in their common end, so comparing ends misses none |
| `HsmTheorems.CommonParts` | libs/hsm/hsm.c:238-244 | two chains stand on the same state at the levels of their common end and at no other, which is what comparing by level finds |
| `HsmTheorems.RunBrackets` | libs/hsm/hsm.c:302-410 | over start and any events the entry, exit and init calls are well bracketed with exactly the active state and its superstates open, in order; every call is made with the right state active; deinit closes all brackets, from where the machine may start again |
| `HsmTheorems.TransitBrackets` | libs/hsm/hsm.c:199-255 | a transition closes and opens brackets so that the target's chain is open |
| `HsmTheorems.OfferOrder` | libs/hsm/hsm.c:264-279 | an event goes to the active state and its superstates in order, each once, every one seeing the same active state, and goes on exactly when the answer is super |
| `HsmTheorems.OfferedAll` | libs/hsm/hsm.c:264-279 | those calls and no other are what the pass adds to the history |
| `HsmTheorems.AskedCount` | libs/hsm/hsm.c:267-279 | an ignored event is offered to the whole chain and the top state; otherwise the last one asked takes it |
| `HsmTheorems.DepthBoundTight` | libs/hsm/hsm.c:267-279 | an event nobody takes passes the depth counter exactly from a level of at most the limit less two |
| `HsmDispatch.PassEnds` | libs/hsm/hsm.c:257-300 | one pass, when the k-th state of the active chain is the first not to answer super: a transition or redispatch is taken as Goes says, any other answer changes nothing |
| `HsmDispatch.DispatchStays` | libs/hsm/hsm.c:281-290 | an event ignored, or answered without a transition, leaves the active state and calls nobody else |
| `HsmDispatch.DispatchTran` | libs/hsm/hsm.c:281-297 | a transition answer is followed by the exits of the states not shared with the target, innermost first, the entries down to it, outermost first, and its initial transitions; the active state is then the target or below it |
| `HsmDispatch.DispatchAgain` | libs/hsm/hsm.c:302-325 | a redispatch answer does that and then dispatches the event again where it led; the assertion holds exactly when that pass does not end in one more |
| `HsmDispatch.StartGoes` | libs/hsm/hsm.c:394-410 | a start enters all of the initial target's chain and follows initial transitions |
| `HsmEngine.Hsm.Invoke` | libs/hsm/hsm.h:189-327 | a handler's answer and the assignments that go with it; it acts for its function with the instance and the active state it finds in the descriptor |
| `HsmEngine.Hsm.Build` | libs/hsm/hsm.c:81-108 | the path from a state up to a superstate or a given state, the machine restored |
| `HsmEngine.Hsm.Enter` | libs/hsm/hsm.c:116-127 | enters the path from the outside in and raises the level by its length |
| `HsmEngine.Hsm.ExitState` | libs/hsm/hsm.c:134-143 | one exit call, then the superstate is active |
| `HsmEngine.Hsm.ExitUpTo` | libs/hsm/hsm.c:153-161 | exits exactly the states below the given one, innermost first; the depth counter does not run out |
| `HsmEngine.Hsm.EnterAndInit` | libs/hsm/hsm.c:176-190 | enters the path and follows initial transitions to where none is left; it terminates |
| `HsmEngine.Hsm.ExitToCommon` | libs/hsm/hsm.c:233-252 | stops at the least common ancestor, found by level, without exiting it |
| `HsmEngine.Hsm.Transition` | libs/hsm/hsm.c:199-255 | exits up to the least common ancestor, enters down to the target, then initial transitions; a self transition exits and enters the state |
| `HsmEngine.Hsm.Propagate` | libs/hsm/hsm.c:267-279 | for machines of any depth: every handler finds the active state and its own instance; the counter's assertion holds exactly when fewer handlers than the limit are asked, and then the first answer that is not super is found |
| `HsmEngine.Hsm.PassEvent` | libs/hsm/hsm.c:257-300 | an answer without transition restores the machine; no assertion fails at depth up to the limit less two |
| `HsmEngine.Hsm.DispatchEvent` | libs/hsm/hsm.c:302-325 | one pass, or two on a redispatch; the machine comes to rest with its level and brackets right |
| `HsmEngine.Hsm.StartWith` | libs/hsm/hsm.c:394-410 | calls the initial pseudo-state's handler once, enters the target of its transition from the top down and follows initial transitions |
| `HsmEngine.Hsm.DeinitAll` | libs/hsm/hsm.c:382-392 | exits every active state; no bracket stays open |
| `HsmEngine.Hsm.InitAgain` | libs/hsm/hsm.c:374-380 | a machine that was stopped is ready to start, whatever it did before |
| `DiningSafety.ServeIfWaitingOk` | apps/examples/dpp/table.c:157-168 | looking at a neighbour after DONE restores that hungry philosophers have an eating neighbour |
| `DiningSafety.DoneReceived` | apps/examples/dpp/table.c:152-156 | DONE comes only from a philosopher marked eating, and only its neighbours may then be served |
| `DiningSafety.HungryWaits` | apps/examples/dpp/table.c:138-151 | HUNGRY comes only from a philosopher not marked hungry, and marking it keeps the invariant |
| `DiningSafety.DoneServes` | apps/examples/dpp/table.c:152-172 | after DONE the left neighbour is served first, the right one if it still can be, no one else's mark changes |
| `DiningSafety.StepInv` | apps/examples/dpp/table.c:111-179 | every handler and timer step keeps the invariant |
| `DiningSafety.Safety` | apps/examples/dpp/table.c:87-179 | in every run no two neighbours eat, whoever the table marks hungry has a neighbour marked eating, no assertion fails |
| `DiningSafety.NoDeadlock` | apps/examples/dpp/philo.c:64-148 | in every run, when no message and no timer is left the table has closed and every philosopher stopped |
| `DiningSafety.QuietEater` | apps/examples/dpp/philo.c:78-148 | while the table serves, only a philosopher marked hungry can be without message and timer |
| `DiningSessions.MealsServed` | apps/examples/dpp/table.c:97-179 | in every run, by the EAT messages sent to anyone: nsessions is what is left of the sessions, the table serves exactly until they are over, and at most one meal more than asked for is served |
| `DiningSessions.OneMealMore` | apps/examples/dpp/table.c:152-178 | a run of four philosophers that reaches that bound |
| `DiningTable.Dpp.TableServe` | apps/examples/dpp/table.c:97-109 | puts EAT behind everyone's messages, marks the philosopher and counts one session down, not below zero |
| `DiningTable.Dpp.TableServingHandler` | apps/examples/dpp/table.c:133-179 | handles a message as the protocol says |
| `DiningTable.Dpp.RunTable` | apps/examples/dpp/table.c:111-179 | takes one message of the queue |
| `DiningTable.Dpp.Handle` | apps/examples/dpp/philo.c:64-148 | by state and message: a timeout makes a thinking philosopher report hungry and an eating one publish DONE, EAT moves only the philosopher it names and only a hungry one, STOP stops all three |
| `DiningTable.Dpp.RunPhilo` | apps/examples/dpp/philo.c:64-148 | takes one message of the philosopher's queue as the protocol says and keeps the invariant |
| `DiningTable.Dpp.Fire` | apps/examples/dpp/philo.c:78-148 | an expired timer becomes a message and the invariant is kept |
| `DiningTable.RunningIsServed` | apps/examples/dpp/philo.c:64-101 | while a philosopher runs so does the table, so what it posts is received |
| `SList.List.PushAfter` | libs/slist/slist.c:58-73 | inserts behind the item and keeps the ring and the back pointer |
| `SList.List.PopAfter` | libs/slist/slist.c:75-93 | removes the item behind, NULL at the end; the removed item still looks linked |
| `SList.List.PushBack` | libs/slist/slist.c:150-152 | appends an item |
| `SList.List.PopFront` | libs/slist/slist.c:146-148 | removes the first item |
| `SList.List.Owns` | libs/slist/slist.c:126-140 | true exactly for the items of the list |
| `SList.List.Find` | libs/slist/slist.c:103-114 | the first item accepted |
| `SList.List.Append` | libs/slist/slist.c:154-165 | concatenates and empties the other list |
| `SList.List.InRing` | libs/slist/slist.c:48-51 | every item of a list looks linked |
| `SList.Cursor.Next` | libs/slist/slist.c:178-186 | the next item in order, NULL after the last |
| `SList.Cursor.Pop` | libs/slist/slist.c:188-203 | removes the current item, clears its link and steps back |
| `SList.Cursor.Walk` | libs/slist/slist.c:167-203 | a walk that drops any choice of items visits every item once in order, and what remains is the items not dropped, in order |
| `TimerSpec.StepInv` | libs/timer/timer.c:62-185 | every call keeps the lists disjoint and duplicate free and an event in one of them exactly when owned |
| `TimerSpec.VisitSelf` | libs/timer/timer.c:155-178 | the visit of an event counts one tick and fires it exactly when that tick is due |
| `TimerSpec.VisitOther` | libs/timer/timer.c:149-180 | visiting or removing another event leaves an event's countdown alone |
| `TimerSpec.Firing` | libs/timer/timer.c:62-185 | armed with (n, k) at any moment, an event fires once on each of the ticks max(n, 1) + i k and on no other, whatever is done with other events |
| `TimerSpec.FiringBetweenTicks` | libs/timer/timer.c:62-86 | armed between ticks the countdown starts at the current tick and every tick so far is settled |
| `TimerSpec.RearmedFiresAtOnce` | libs/timer/timer.c:62-86 | a run in which an event armed again for one tick, while it waits for its visit, fires in the tick going on |
| `TimerSpec.Quiet` | libs/timer/timer.c:88-104 | a disarmed event never fires until it is armed again |
| `TimerSpec.DisarmedLeaves` | libs/timer/timer.c:88-163 | an event disarmed and not armed again is unlinked, without owner and mark, once the iterator has answered NULL, exactly if a tick has come since, it waited for its visit, or it was not armed |
| `TimerSpec.FiredOutLeaves` | libs/timer/timer.c:62-179 | an event armed once is let go of with its last firing and not before, a periodic one never |
| `TimerEngine.Timer.LinkedIsOwned` | libs/timer/timer.c:62-182 | linked, listed and owned are the same |
| `TimerEngine.Timer.Arm` | libs/timer/timer.c:62-86 | sets the event's fields and puts it behind the pending events if it is in no list; the counters stay the list lengths |
| `TimerEngine.Timer.Disarm` | libs/timer/timer.c:88-104 | marks the event and tells if it was armed |
| `TimerEngine.Timer.IsArmed` | libs/timer/timer.c:106-122 | listed and not marked for removal |
| `TimerEngine.Timer.TickIteratorInit` | libs/timer/timer.c:124-138 | moves the pending list behind the running one |
| `TimerEngine.Timer.Handle` | libs/timer/timer.c:155-179 | counts down, removes or rearms as TimerSpec says |
| `TimerEngine.Timer.TickIteratorNext` | libs/timer/timer.c:140-185 | walks to the next event that fires; neither counter assertion can fail |
| `PoolSpec.FreePlusLive` | libs/onesize/onesize.c:52-117 | free and live blocks add up to the pool |
| `PoolSpec.AllocateOk` | libs/onesize/onesize.c:52-82 | succeeds exactly above the margin, with a block that was not live; the bump assertion cannot fail |
| `PoolSpec.FreeOk` | libs/onesize/onesize.c:90-109 | frees that block only; its assertions cannot fail |
| `PoolSpec.FreeAllOk` | libs/onesize/onesize.c:111-117 | no block is live |
| `PoolSpec.FreeThenAllocate` | libs/onesize/onesize.c:52-109 | the block freed last is handed out next and the pool is as before |
| `PoolSpec.RunOk` | libs/onesize/onesize.c:52-117 | in every run the books balance and nfree_min is the least number of free blocks reached |
| `PoolSpec.LiveBelowCount` | libs/onesize/onesize.c:119-144 | the live blocks in order are as many as the books say |
| `Onesize.Allocator.Blocks` | libs/onesize/onesize.c:40-50 | blocks are valid, aligned addresses in the pool and do not overlap |
| `Onesize.Allocator.constructor` | libs/onesize/onesize.c:166-193 | rounds the block size up to the alignment and fits as many blocks as there is room for |
| `Onesize.Allocator.AllocateX` | libs/onesize/onesize.c:52-82 | the address of the block PoolSpec hands out |
| `Onesize.Allocator.Free` | libs/onesize/onesize.c:90-109 | gives the block back; every pointer assertion holds |
| `Onesize.Allocator.FreeAll` | libs/onesize/onesize.c:111-117 | gives all blocks back |
| `Onesize.Allocator.Iterate` | libs/onesize/onesize.c:119-144 | visits exactly the first live blocks, at most num of them, in address order |
| `EventSpec.StepInv` | libs/event/event_queue.c:163-261 | every allowed step keeps each counter equal to slots plus holds |
| `EventSpec.Conservation` | libs/event/event.c:62-139 | in every run: counters are slots plus holds, what is not live has neither, free plus live blocks are the pool |
| `EventSpec.FreedWithLastReference` | libs/event/event.c:115-139 | a block goes back to its own pool exactly when the last reference is dropped |
| `EventSpec.ReferencedIsSafe` | libs/event/event_queue.c:174-183 | what is queued or held is live and is not handed out again |
| `EventSpec.PostKeepsBooks` | libs/event/event_queue.c:187-200 | with a margin the source accepts, a post keeps the counters right exactly when it succeeds or its event has no reference yet |
| `EventSpec.PublishKeepsBooks` | libs/event/event_async.c:207-276 | with margins the source accepts, publishing keeps them right exactly when no push fails; the counter then rises by the number of subscribers and an event nobody took is freed |
| `EventSpec.PublishBreaksBooks` | libs/event/event_queue.c:187-192 | a reachable state and margin for which the published event is on the free list while its publisher holds it |
| `EventSpec.DeliveredAt` | libs/event/event_async.c:242-265 | each target queue gets the event once, no other queue changes |
| `EventSpec.FlushOk` | libs/event/event_queue.c:263-283 | flushing a queue frees only what it may and keeps the counters right |
| `EventAlloc.Alloc.AddPool` | libs/event/event_pool.c:43-65 | adds an empty pool, below the bound on pools, and keeps block sizes increasing |
| `EventAlloc.Alloc.FindPool` | libs/event/event.c:74-88 | the binary search finds the smallest pool whose blocks are big enough |
| `EventAlloc.Alloc.AllocateX` | libs/event/event.c:62-104 | an event of that pool with counter zero, or nothing |
| `EventAlloc.Alloc.FreeUnsafe` | libs/event/event.c:115-139 | drops a reference, the last one frees |
| `EventAlloc.Alloc.IncRefCnt` | libs/event/event.c:198-220 | adds a reference |
| `EventQueue.Queue.IsEmpty` | libs/event/event_queue.c:70-74 | rd equals wr and not full exactly when nothing is queued |
| `EventQueue.Queue.Put` | libs/event/event_queue.c:202-216 | the event is last of all, or first if lifo; wr, full and nfree agree; nfree_min is the running minimum |
| `EventQueue.Queue.PushUnsafe` | libs/event/event_queue.c:163-222 | refuses exactly when no more than the margin is free, else the event is last, or first if lifo; tells exactly when the queue was empty, moves references |
| `EventQueue.Queue.PopFrontUnsafe` | libs/event/event_queue.c:99-114 | takes the first event |
| `EventQueue.Queue.FlushUnsafe` | libs/event/event_queue.c:274-283 | empties the queue, drops a reference of each event, answers the old length |
| `EventAsync.Async.Subscribe` | libs/event/event_async.c:86-104 | adds one subscriber of one event |
| `EventAsync.Async.Unsubscribe` | libs/event/event_async.c:106-124 | removes it |
| `EventAsync.Async.UnsubscribeAll` | libs/event/event_async.c:126-142 | removes it from every event |
| `EventAsync.Async.Register` | libs/event/event_async.c:144-161 | a new handler is subscribed to nothing |
| `EventAsync.Async.Unregister` | libs/event/event_async.c:163-182 | removes the handler and its subscriptions |
| `EventAsync.Async.CallOrder` | libs/event/event_async.c:238-265 | every subscriber but the excluded one is called once, higher numbers first |
| `EventBus.Bus.Push` | libs/ao/ao.c:242-258 | the active objects' handler on a real queue and the allocator is the specification's post, and answers true whatever happens |
| `EventBus.Bus.Post` | libs/event/event_async.c:184-205 | posts to the queue of the handler named and to no other |
| `EventBus.Bus.Take` | libs/event/event_queue.c:224-232 | a popped event's queue slot becomes a hold of its handler |
| `EventBus.Bus.Publish` | libs/event/event_async.c:207-276 | over all queues and the allocator it is the specification's publish to the subscribers' queues, in the order of the calls; each of these with room has the event once more, at the end the policy says, and no other queue changes |
| `EventBus.RoomIsEnough` | libs/event/event_queue.c:163-200 | room in every target and a counter below the limit are enough for all the pushes to be possible |
| `EventBus.PublishedAt` | libs/event/event_async.c:242-265 | each target queue with room gets the event once, no other queue changes, whichever pushes fail |
| `EventBus.DeliveredToAll` | libs/ao/ao.h:210-214 | every target gets the event exactly when every target has room, although the answer is true always |
| `EventBus.LostUnnoticed` | libs/ao/ao.c:253-257 | a publish that delivers nothing and answers true |
| `EventOrder.FirstInFirstOut` | libs/event/event_queue.c:99-114 | over any run with posts to the back only, what was in a queue and what was posted to it and fitted comes out in that order, and the rest is in the queue |
| `EventOrder.PoppedInOrder` | libs/event/event_queue.c:202-208 | the events popped from a new queue are the first of those posted to it, in order |
| `EventOrder.FrontFirst` | libs/event/event_queue.c:202-205 | an event posted to the front is popped next and leaves the queue as it was |
| `EventOrder.PublishIsRun` | libs/event/event_async.c:207-276 | a publish with room everywhere is a run of a hold, the posts and a drop, so what holds over runs holds over publishing |
| `Bit.U8Msb` | libs/bit/bit.c:44-47 | the highest bit set |
| `Bit.Bits64.IsEmpty` | libs/bit/bit.c:40-42 | exactly when no number is in |
| `Bit.Bits64.Msb` | libs/bit/bit.c:49-52 | the largest number in |
| `Bit.Bits64.Set` | libs/bit/bit.c:54-66 | adds one number; the byte mask stays right |
| `Bit.Bits64.Clear` | libs/bit/bit.c:68-83 | removes one number; the byte mask stays right |
| `CoopSpec.StepInv` | libs/ao/cooperative/port.c:64-191 | every step keeps the ready bit of each active object that waits |
| `CoopSpec.PollChooses` | libs/ao/cooperative/port.c:74-99 | in every run a poll commits to the highest waiting active object, or clears a stale bit, or is idle and nobody waits |
| `CoopSpec.SelectHighest` | libs/ao/cooperative/port.c:72-111 | the loop ends under any finite interrupts, with the highest waiting one, or with none exactly when nobody waits |
| `CoopPort.Scheduler.HandleEvent` | libs/ao/ao.c:242-258 | puts the event last, or first if lifo, in that queue only, and sets the ready bit if the queue was empty |
| `CoopPort.Scheduler.Start` | libs/ao/cooperative/port.c:114-156 | an active object starts with an empty queue |
| `CoopPort.Scheduler.Stop` | libs/ao/cooperative/port.c:158-183 | it leaves with its queue and ready bit |
| `CoopPort.Scheduler.PollOnce` | libs/ao/cooperative/port.c:74-101 | one critical section of the loop |
| `CoopPort.Scheduler.Choose` | libs/ao/cooperative/port.c:72-111 | the loop on the bit array, with interrupts between its critical sections |
| `CoopPort.Scheduler.Pop` | libs/event/event_queue.c:224-232 | takes the first event of the one chosen, leaves the rest of its queue and all other queues |
| `CrcSpec.Chunks` | libs/crc/crc.h:44-62 | a message checked in two parts |
| `CrcSpec.CrcLinear` | libs/crc/crc.c:154-190 | remainders of differences are differences of remainders |
| `CrcSpec.Step8Kernel` | libs/crc/crc.c:158-161 | eight steps of the division lose nothing |
| `CrcSpec.WindowDetected` | libs/crc/crc.c:154-190 | damage inside a window no longer than the register changes the remainder, whatever the rest |
| `CrcTables.Table16` | libs/crc/crc.c:36-66 | every entry is eight division steps by 0x1021 |
| `CrcTables.Table24` | libs/crc/crc.c:68-106 | every entry is eight division steps by 0x864CFB |
| `CrcTables.Table32` | libs/crc/crc.c:108-152 | every entry is eight division steps by 0x04C11DB7 |
| `Crc.Turn16` | libs/crc/crc.c:158-161 | a turn of the loop is eight division steps of the next byte |
| `Crc.Turn24` | libs/crc/crc.c:170-173 | the same for crc24 |
| `Crc.Turn32` | libs/crc/crc.c:182-187 | the same for crc32 |
| `Crc.Crc16` | libs/crc/crc.c:154-164 | the loop computes the remainder |
| `Crc.Crc24` | libs/crc/crc.c:166-176 | the loop computes the remainder |
| `Crc.Crc32` | libs/crc/crc.c:178-190 | the loop computes the remainder |
| `Crc.Chunked16` | libs/crc/crc.h:44-62 | checking in chunks gives the check of the whole, for every seed |
| `Crc.Chunked24` | libs/crc/crc.c:166-176 | the same for crc24 |
| `Crc.Chunked32` | libs/crc/crc.c:178-190 | the same for crc32 |
| `Crc.Detects16` | libs/crc/crc.c:154-164 | messages that differ inside 2 bytes have different checks |
| `Crc.Detects24` | libs/crc/crc.c:166-176 | inside 3 bytes |
| `Crc.Detects32` | libs/crc/crc.c:178-190 | inside 4 bytes |
| `Crc.CheckValue24` | libs/crc/crc.h:78 | the documented check value |
| `Crc.CheckValue32` | libs/crc/crc.h:106 | the documented check value |
| `CobsSpec.FeedTaken` | libs/cobszpe/cobszpe.c:55-79 | after each byte the blocks written and the block being filled stand for the source read so far |
| `CobsSpec.RoundTrip` | libs/cobszpe/cobszpe.c:40-88 | what the output expands to, for every source |
| `CobsSpec.RoundTripIff` | libs/cobszpe/cobszpe.c:40-88 | it is the source, or the source and one zero, exactly when the last byte is not swallowed |
| `CobsSpec.SwallowedWhen` | libs/cobszpe/cobszpe.c:57-78 | that by the lengths of the source's last runs of zeros and nonzero bytes |
| `CobsSpec.NotSwallowed` | libs/cobszpe/cobszpe.c:80-85 | one byte, a last zero, or two last nonzero bytes are safe |
| `CobsSpec.OnlyZeroLast` | libs/cobszpe/cobszpe.c:80-85 | the last byte is the only zero, exactly then |
| `CobsSpec.ZeroFive` | libs/cobszpe/cobszpe.c:80-81 | {0, 5} is encoded as {1, 0, 5} |
| `CobsSpec.SizeBound` | libs/cobszpe/cobszpe.c:40-88 | n + ceil(n / 223) + 1 bytes are enough for every source of n bytes |
| `CobsSpec.NonzeroSize` | libs/cobszpe/cobszpe.c:61-65 | and nonzero sources need that many |
| `CobsSpec.PairBlock` | libs/cobszpe/cobszpe.c:68-78 | at the beginning of a block, at most 30 nonzero bytes and two zeros become one block with the pair in its code |
| `CobsSpec.ZeroBlock` | libs/cobszpe/cobszpe.c:70-73 | 31 to 222 nonzero bytes and a zero become a block with that zero |
| `CobsSpec.FullBlock` | libs/cobszpe/cobszpe.c:57-66 | 223 nonzero bytes become a block without a zero |
| `CobsSpec.ZerosHalve` | libs/cobszpe/cobszpe.c:68-78 | 2k zeros take k + 1 bytes |
| `CobsSpec.MacroEnough` | libs/cobszpe/cobszpe.h:39-41 | the macro's size is enough for all sources of n bytes exactly when rounding by 224 makes no difference |
| `CobsSpec.MacroTooSmall` | libs/cobszpe/cobszpe.h:39-41 | it is one short for 224 nonzero bytes |
| `Cobs.Encode` | libs/cobszpe/cobszpe.c:40-88 | the loop on the two buffers writes what CobsSpec says and nothing behind it; room for exactly that is enough |

## Left out

- HsmEngine.Hsm.DispatchEvent: assumes a second redispatch of one event does not occur, which the source asserts.
- EventSpec.Conservation: assumes what users owe, at most 127 references and that a post that fails is of an event without references; without the last it does not hold.
- EventAsync.Async.CallOrder: gives the order of the handler calls; their effect is EventBus.Bus.Publish.
- EventBus.Bus.Publish: nothing else happens between its pushes, which the source allows since each is a critical section of its own; EventSpec.StepInv covers such interleavings while no push fails. Handlers are those of active objects, each with a queue of its own; waking the task is in CoopPort.
- EventBus.Bus.Take: the handler called between the pop and the final free is whatever steps come in between.
- EventAlloc.Alloc.FreeUnsafe: events are pool and block numbers; the id checks on freed memory are replaced by the proof that only live events are used.
- CoopPort.Scheduler.HandleEvent: queues are sequences here; the circular queue is proved on its own in EventQueue. A task without an identity, which the source does not notify, is not modelled.
- CoopPort.Scheduler.Start: registration of the handler is EventAsync.Async.Register; the call of the init handler is left out.
- CoopPort.Scheduler.Stop: the flush and its references are EventQueue.Queue.FlushUnsafe and EventSpec.FlushOk, the subscriptions EventAsync.Async.Unregister.
- CoopPort.Scheduler.Choose: interrupts are a finite list, since an endless one can keep the loop busy.
- TimerEngine.Timer.Arm: ticks and intervals are unbounded, the interval below the bound the source asserts, so that its mask changes nothing.
- RingBuffer.Ring.GetDataSize: exact for the two processes only; a third observer is not modelled.
- CobsSpec.RoundTrip: the library's decoder is a stub, so the expansion follows the published block format.
- Cobs.Encode: asks for exactly the room it writes; the size its header computes is at times one byte less (CobsSpec.MacroEnough).
- am_hsm_is_in, which follows the parent map only when a chain shares one instance.
- State machines without hierarchy, coroutines, throttling, doubly linked lists, string helpers: smaller relatives of what is here.
- The preemptive port, tickers, threads, crash dumps and logging: operating system and input or output.
- Capacity of queues and pools in the dining philosophers example, which arbitrary scheduling can exhaust.
- Unbounded liveness: that a philosopher eventually eats depends on the scheduler.
