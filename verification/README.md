# Verified model of the ESP32 event-driven framework

This Dafny project models the state-keeping core of the firmware and proves what
it is for. Each component appears twice where it helps: as functions on values,
about which the properties are proved, and as a class that works in place on
arrays and fields as the C code does, whose methods are proved to compute those
functions. Concurrent behaviour is a state machine whose steps are the critical
sections, queue operations and atomic index accesses of the code, in any order.

`dafny verify dfyconfig.toml` checks everything.

## Parts

- `LeasePool`, `LeaseRuns`, `LeaseObject`: the pool of reference-counted slots
  with generations, its guards, and `lp_check`.
- `EventBus`, `BusObject`: subscriptions, fan-out, schema guard, counters.
- `LeaseLedger`, `LeaseMachine`, `LeaseSafety`, `LeaseTheorems`, `LeaseLeak`:
  posters and receivers of leases in every interleaving. A ledger lists who holds
  which reference; every step moves it exactly as it moves the reference counts.
  `LeaseSolo` ties these steps to the calls in place; `LeaseFifo`: the order of
  messages in the queues.
- `SpscRing`, `SpscMachine`, `LogStream`, `StreamMachine`, `LogBus`, `LogDrain`,
  `LogPipeline`, `PipelineMachine`: the lock-free byte ring, the all-or-nothing
  writer on it, the line framer, and the consumer that splits the bytes again, up
  to an end-to-end statement over every interleaving of framer and consumer.
- `LogHistory`: the overwrite-oldest log ring.
- `DeadlineTimer`, `TimerObject`, `TimerMachine`: the timer service.
- `Lcd`, `LcdObject`: the display driver and a model of the display memory.
- `Ds18`, `Ds18Object`: the tick machine of the temperature service.
- `Crc8`: the 1-Wire CRC.
- `Words`, `Wrappers`, `Runs`: machine words, options, runs of machines.

## Assumptions

- Receivers release each dequeued lease exactly once, through the handle in the
  message (leasepool.h:21-23). A task that ignores foreign lease messages is
  outside the model.
- A lease is written and committed only between its allocation and its post, by
  the task that allocated it.
- No addref is made on a reference count of 0xFFFF (`LeaseTheorems.NoOverflow`).
  With subscriptions of depth 2 and more this is not assumed but proved
  (`NothingLost`), from 2 * tasks + total depth < 0xFFFF.
- Depth 1 is allowed in the ownership theorems: they count the leases that were
  overwritten as lost. `DeepConserved` is the statement without depth 1.
- A queue is not deleted, so an unsubscribed queue can still be drained.
- Critical sections, mutexes and queue operations are atomic steps; an index of
  the ring may be seen late but never runs backwards, and the bytes before a seen
  index are visible.
- The clock is monotone and 64-bit microsecond sums do not overflow. Starts of
  the hardware timer succeed where a theorem says so.
- While a callback of the hardware timer runs, no other one is dispatched.
- One call of the display driver's step function is not interrupted by another,
  although the driver's task and, through a flush request, the application call it
  without a lock (lcd1602rgb_dfr_async.c:437-468, 521-533).
- Only the two callbacks post the tick of the temperature service.

## Findings

Where the code does not meet what one would expect of it, the project proves
exactly when it does.

- `ev_post_lease` takes a packed handle of 0 for invalid (core_ev.c:430), but the
  invalid handle packs to 0xFFFF and (0, 0) is a legitimate one, reached after
  65535 frees of slot 0: `LeaseRuns.ZeroHandleIsReachable`, `LeaseLeak.GuardStopsLease`.
- A REPLACE_LAST post to a subscriber of depth 1 throws away a queued lease and
  with it a reference that is never released: `LeaseTheorems.OverwriteLeaks`,
  `LeaseTheorems.LostForever`, `LeaseLeak.DepthOneLosesASlot`.
- A failed start of the hardware timer leaves active deadlines without a wake-up
  although the arm call returns a valid token: `TimerMachine.FailedStart`,
  `TimerMachine.FirstStartFails`, until the next call that rearms it:
  `TimerMachine.WakeupsUnderFailure`.
- An event can be posted after its timer was cancelled, namely when it had been
  collected and not yet posted: `TimerMachine.NothingAfterCancel`,
  `TimerMachine.PostAfterCancel`.
- A tick of the temperature service that meets a full queue stops the service for
  good: `Ds18.NoDropIff`, `Ds18.DropIsForever`, `Ds18.DropIsPossible`.
- Text drawn during a flush into cells already sent stays invisible, and the frame
  is marked clean: `Lcd.DrawDuringFlush`, `Lcd.DrawCanBeLost`.
- A second start of the display while it initialises continues the command
  sequence in the middle: `Lcd.StartSends`, `Lcd.RestartSkips`.

## Model

| member | source | states |
|---|---|---|
| LeaseTheorems.OwnershipConserved | firmware/components/core__ev/core_ev.c:298-320 | after every run of posters and receivers, interleaved anywhere, each slot's refcnt is the posters' own references plus those added and not yet sent plus the queued messages naming it plus the receivers holding it plus the leases overwritten in depth-1 queues |
| LeaseTheorems.DeepConserved | firmware/components/core__ev/core_ev.c:298-320 | with depth 2 and more the four kinds of references are all there is, no count overflows, and at rest every slot is free |
| LeaseTheorems.NothingLost | firmware/components/core__ev/core_ev.c:286-287 | with depth 2 and more no lease is ever overwritten and no reference count passes 0xFFFF |
| LeaseTheorems.LostForever | firmware/components/core__ev/core_ev.c:286-287 | a slot whose lease was overwritten stays in use in every later state: it is never freed |
| LeaseTheorems.NamedIsLive | firmware/components/core__leasepool/leasepool.c:302-353 | no slot is freed or allocated again while a queue or a task names it, with or without depth-1 queues |
| LeaseTheorems.ReceiversGetThePost | firmware/components/core__leasepool/leasepool.c:208-230 | every receiver's acquire succeeds with the committed length and the posted bytes, and no pool guard ever aborts |
| LeaseTheorems.ReadingIsStable | firmware/components/core__leasepool/include/core/leasepool.h:15-23 | what a receiver reads through its view stays what was posted until it releases |
| LeaseTheorems.QuiescentReclaimed | firmware/components/core__ev/core_ev.c:438-439 | once all tasks are idle and all queues empty, the free list names every slot exactly once iff no lease was overwritten |
| LeaseTheorems.PostsAccounted | firmware/components/core__ev/core_ev.c:441-456 | under concurrent posters and resets: global counters are the sums of the per-event ones mod 2^32, each post counts once in ok or drop, globally and under its own event, and delivered + enq_fail is the number of live queues in its snapshot |
| LeaseTheorems.PostsFinish | firmware/components/core__ev/core_ev.c:309-318 | whatever other tasks do in between, a post is over once its task has taken three steps per subscriber of its snapshot and two more |
| LeaseTheorems.PostMoves | firmware/components/core__ev/core_ev.c:309-318 | a post never blocks: wherever it stands its next step is enabled and leaves it less to do |
| LeaseTheorems.IdleMoves | firmware/components/core__ev/core_ev.c:382-459 | an idle task can always allocate and post, and take a message iff there is one |
| LeaseTheorems.FillerMoves | firmware/components/core__ev/core_ev.c:419-430 | the owner of an unposted lease can always post it or give it up |
| LeaseTheorems.ReceiverMoves | firmware/components/core__leasepool/include/core/leasepool.h:21-23 | a received lease always opens, and can be dropped at any time |
| LeaseTheorems.RunKeeps | firmware/components/core__ev/core_ev.c:298-459 | the ownership invariant holds after every run |
| LeaseTheorems.StepKeeps | firmware/components/core__ev/core_ev.c:298-459 | each step of a task or of the bus keeps the ownership invariant |
| LeaseTheorems.OverwriteLeaks | firmware/components/core__ev/core_ev.c:286-287 | a REPLACE_LAST post to a depth-1 queue leaves every counted reference with a holder iff the message it overwrites is not a lease |
| LeaseLeak.DepthOneLosesASlot | firmware/components/core__ev/core_ev.c:286-287 | a concrete run with a depth-1 subscriber ends idle and empty with a lease whose slot no continuation ever frees |
| LeaseLeak.GuardStopsLease | firmware/components/core__ev/core_ev.c:424-430 | the schema guard stops a lease post iff the event is not a DROP_NEW lease event or the handle is (0, 0) |
| LeaseSafety.FanAdd | firmware/components/core__ev/core_ev.c:310-311 | taking the subscriber's reference moves the ledger by exactly one |
| LeaseSafety.Undo | firmware/components/core__ev/core_ev.c:316-317 | the reference of a failed send is taken back and the failure counted |
| LeaseSafety.FanEnd | firmware/components/core__ev/core_ev.c:438-439 | the poster's own reference is dropped after the fan-out and everything else stays intact |
| LeaseSafety.SentKeeps | firmware/components/core__ev/core_ev.c:312-314 | a successful send hands the added reference to the queue |
| LeaseSafety.DequeueKeeps | firmware/components/core__leasepool/include/core/leasepool.h:21-23 | dequeuing hands the queue's reference to the receiver |
| LeaseSafety.Allocated | firmware/components/core__leasepool/leasepool.c:162-206 | a fresh allocation never yields a handle anyone still holds |
| LeaseLedger.ReleaseOk | firmware/components/core__leasepool/leasepool.c:302-353 | release removes one reference and leaves every other holder's slot as it was, also when the slot is freed and its generation advances |
| LeaseLedger.AddRefOk | firmware/components/core__leasepool/leasepool.c:268-300 | addref adds one reference and changes nothing another holder sees |
| LeaseLedger.AllocOk | firmware/components/core__leasepool/leasepool.c:162-206 | a new slot belongs to nobody else, and a failed allocation changes no slot |
| LeaseLedger.CommitOk | firmware/components/core__leasepool/leasepool.c:233-266 | commit changes the length of this slot only |
| LeasePool.InitInv | firmware/components/core__leasepool/leasepool.c:123-145 | lp_init establishes the pool invariant from any contents of slots and free list |
| LeasePool.InitMeans | firmware/components/core__leasepool/leasepool.c:123-145 | after init every slot is free, at generation 1, with its guard marks set, and nothing is counted |
| LeasePool.AllocMeans | firmware/components/core__leasepool/leasepool.c:162-206 | an allocation succeeds iff the request fits a slot and a slot is free; it yields a free slot with one reference and no contents and counts one success, and a fitting request that finds none counts one failure |
| LeasePool.AcquireMeans | firmware/components/core__leasepool/leasepool.c:208-230 | a view of the slot is granted iff the handle is live |
| LeasePool.CommitMeans | firmware/components/core__leasepool/leasepool.c:233-266 | a commit sets the length of a live slot and nothing else; an oversized one is refused with guards and cut without |
| LeasePool.AddRefMeans | firmware/components/core__leasepool/leasepool.c:268-300 | n references are added to a live slot; past 0xFFFF it is refused with guards and saturates without |
| LeasePool.ReleaseMeans | firmware/components/core__leasepool/leasepool.c:302-353 | one reference of a live slot is dropped; the last one frees the slot for the next generation, and it is the next to be allocated |
| LeasePool.WriteMeans | firmware/components/core__leasepool/include/core/leasepool.h:15-23 | a store through a view changes one byte of the slot |
| LeasePool.ResetMeans | firmware/components/core__leasepool/leasepool.c:384-396 | counters cleared, the peak is the number of slots in use |
| LeasePool.DamageStops | firmware/components/core__leasepool/leasepool.c:63-104 | with guards, every call through a live handle stops the program if a mark of its slot was damaged, and an allocation if a mark or a byte of the slot it takes was |
| LeasePool.AllocInv | firmware/components/core__leasepool/leasepool.c:162-206 | allocation keeps the free-list invariant and trips no guard |
| LeasePool.ReleaseInv | firmware/components/core__leasepool/leasepool.c:302-353 | release keeps the free-list invariant |
| LeasePool.RoomOnFreeList | firmware/components/core__leasepool/leasepool.c:338-348 | releasing a live slot always finds room: the overflow branch is dead, by pigeonhole |
| LeasePool.AllReclaimed | firmware/components/core__leasepool/leasepool.c:302-353 | with all references dropped the free list is a permutation of all slots |
| LeaseRuns.RunInv | firmware/components/core__leasepool/leasepool.c:162-353 | the pool invariant holds after every sequence of calls |
| LeaseRuns.AbortsExactly | firmware/components/core__leasepool/leasepool.c:63-104 | with the guards built in, a call aborts iff it breaks the client contract, and each abort is counted |
| LeaseRuns.GenCountsFrees | firmware/components/core__leasepool/leasepool.c:334-337 | a slot's generation is its old one advanced once per free |
| LeaseRuns.PeakIsMost | firmware/components/core__leasepool/leasepool.c:197-203 | between resets the peak counter is the most slots in use at once, if that is more than it was |
| LeasePool.FreeCounted | firmware/components/core__leasepool/leasepool.c:355-363 | the free-list height is the number of slots nobody refers to, the rest the number in use |
| LeaseRuns.StaleHandle | firmware/components/core__leasepool/leasepool.c:208-230 | an old handle is honoured iff its slot is in use and was freed a multiple of 65536 times since; the first 65535 frees leave it rejected by every call |
| LeaseRuns.PackRoundTrip | firmware/components/core__leasepool/include/core/leasepool.h:80-88 | index in the low and generation in the high half; packing and unpacking are inverse both ways, and only handle (0, 0) packs to 0 |
| LeaseRuns.ZeroHandleIsReachable | firmware/components/core__ev/core_ev.c:430 | the handle that the schema guard calls invalid is reached by a disciplined run on every pool |
| LeaseObject.SlotPool.constructor | firmware/components/core__leasepool/leasepool.c:123-145 | a new pool satisfies the invariant with every slot free at generation 1 |
| LeaseObject.SlotPool.Init | firmware/components/core__leasepool/leasepool.c:123-145 | the loop over the arrays computes the initial pool |
| LeaseObject.SlotPool.AllocTry | firmware/components/core__leasepool/leasepool.c:162-206 | in place: pops the free list, stamps and poisons the slot, counts; the failure cases as in the code |
| LeaseObject.SlotPool.Acquire | firmware/components/core__leasepool/leasepool.c:208-230 | in place: a view iff the handle is live |
| LeaseObject.SlotPool.Commit | firmware/components/core__leasepool/leasepool.c:233-266 | in place: length set, or guard failure |
| LeaseObject.SlotPool.AddRef | firmware/components/core__leasepool/leasepool.c:268-300 | in place, with the saturating branch of unguarded builds |
| LeaseObject.SlotPool.Release | firmware/components/core__leasepool/leasepool.c:302-353 | in place: decrement, or free with a new generation |
| LeaseObject.SlotPool.GetStats | firmware/components/core__leasepool/leasepool.c:365-382 | in every state of the invariant: the number of slots nobody refers to, the number in use, and the counters |
| LeaseObject.SlotPool.ResetStats | firmware/components/core__leasepool/leasepool.c:384-396 | counters cleared, peak set to the slots in use |
| LeaseObject.SlotPool.Check | firmware/components/core__leasepool/leasepool.c:475-593 | the two loops count exactly the broken rules of any memory contents |
| LeaseObject.CheckIsExact | firmware/components/core__leasepool/leasepool.c:475-593 | lp_check returns 0 iff the checked invariant holds, on reachable and corrupted states alike |
| LeaseObject.CheckedInvariant | firmware/components/core__leasepool/leasepool.c:475-593 | the pool invariant is what lp_check establishes plus buffer sizes and free-slot poison, so it returns 0 in every reachable state |
| BusObject.CastMeans | firmware/components/core__ev/core_ev.c:271-296 | a fan-out gives each live subscriber the message once or leaves its full queue alone, touches no other queue, and tallies both kinds |
| BusObject.CastLeaseMeans | firmware/components/core__ev/core_ev.c:298-320 | on a live lease the fan-out fills the same queues and adds one reference per delivered copy |
| BusObject.CastLeaseStale | firmware/components/core__ev/core_ev.c:309-318 | with a dead handle the pool's guards stop the program at the first live subscriber before anything is sent; without guards the dead handle is sent to all |
| BusObject.PostLeaseRefs | firmware/components/core__ev/core_ev.c:438-439 | after a lease post the refcnt is the old one plus the deliveries minus one, and the slot is freed iff nobody holds it |
| BusObject.Bus.constructor | firmware/components/core__ev/core_ev.c:324-338 | an empty bus over the pool |
| BusObject.Bus.Init | firmware/components/core__ev/core_ev.c:324-343 | table emptied and every counter cleared |
| BusObject.Bus.Subscribe | firmware/components/core__ev/core_ev.c:345-364 | appends a live entry with a new queue, depth 0 meaning 8, unless the table is full |
| BusObject.Bus.Unsubscribe | firmware/components/core__ev/core_ev.c:366-380 | clears the first entry of that queue, and finds it iff there is one |
| BusObject.Bus.Broadcast | firmware/components/core__ev/core_ev.c:271-296 | the loop computes the plain fan-out |
| BusObject.Bus.BroadcastLease | firmware/components/core__ev/core_ev.c:298-320 | the loop computes the lease fan-out for any handle, up to an abort of a pool guard |
| BusObject.Bus.Offer | firmware/components/core__ev/core_ev.c:311-317 | one turn of that loop |
| BusObject.Bus.CastAndRelease | firmware/components/core__ev/core_ev.c:438-439 | fan-out and release of the poster's own reference |
| BusObject.Bus.Post | firmware/components/core__ev/core_ev.c:382-417 | schema guard, fan-out and counters of a plain post |
| BusObject.Bus.PostLease | firmware/components/core__ev/core_ev.c:419-459 | for any handle: schema guard, lease fan-out, release of the poster's reference, counters, ending at the first abort |
| BusObject.Bus.RequireLease | firmware/components/core__ev/core_ev.c:424-430 | what the schema guard of a lease post accepts |
| BusObject.Bus.Tell | firmware/components/core__ev/core_ev.c:441-456 | the counting critical section |
| BusObject.Bus.ResetStats | firmware/components/core__ev/core_ev.c:534-546 | all counters zero |
| BusObject.Bus.Active | firmware/components/core__ev/core_ev.c:521-522 | the number of live subscribers |
| EventBus.MetaFind | firmware/components/core__ev/core_ev.c:101-109 | the first schema entry with this source and code, or none |
| EventBus.SubscribeMeans | firmware/components/core__ev/core_ev.c:345-364 | a subscriber is added iff the table has room: a live last entry with a new empty queue of the depth asked for, 0 meaning 8, every earlier entry and queue unchanged |
| EventBus.DepthTaken | firmware/components/core__ev/core_ev.c:345-364 | a new subscriber that reads nothing takes exactly as many messages as it asked for, the first ones |
| EventBus.TakesInOrder | firmware/components/core__ev/core_ev.c:283-292 | a queue takes messages in order up to its capacity and refuses the rest |
| LeaseFifo.QueueIsFifo | firmware/components/core__ev/core_ev.c:271-320 | in every interleaving messages leave a queue in the order they were put in, each once |
| LeaseFifo.GuardStopsPlain | firmware/components/core__ev/core_ev.c:386-396 | the schema guard stops a plain post iff the event is unknown, a lease event, or one without arguments that was given some; otherwise the message carries event, kind and both arguments |
| LeaseFifo.LeaseCarries | firmware/components/core__ev/core_ev.c:419-437 | a lease post carries its event, the packed handle and the length told, and what it posts is what the slot holds |
| EventBus.UnsubscribeMeans | firmware/components/core__ev/core_ev.c:366-380 | exactly the first entry of the queue is cleared, the live count drops by one iff there was one, and a queue subscribed once is named no more |
| LeaseSolo.SoloLeasePost | firmware/components/core__ev/core_ev.c:419-459 | uninterrupted, the interleaved steps of a lease post end with the pool, queues and counters of the call in place, and overwrite nothing |
| LeaseSolo.SoloPost | firmware/components/core__ev/core_ev.c:382-417 | the same for a post without a lease; the references that leave the queues are exactly those recorded as lost |
| EventBus.CountBalanced | firmware/components/core__ev/core_ev.c:399-414 | counting a post keeps the global counters equal to the sums of the per-event ones mod 2^32 |
| EventBus.TallyCountsPosts | firmware/components/core__ev/core_ev.c:404-413 | ok and drop count the posts delivered to somebody and to nobody |
| EventBus.TallyCountsCopies | firmware/components/core__ev/core_ev.c:404-409 | the per-event delivered counter adds up the queue copies |
| EventBus.TallyBooks | firmware/components/core__ev/core_ev.c:399-414 | per event: posts that reached somebody, posts that reached nobody, refused and delivered copies, each booked under its own event |
| SpscMachine.RingIsSafe | firmware/components/core__spsc_ring/spsc_ring.c:46-155 | in every interleaving with stale index views: consumed bytes are a prefix of committed bytes, at most cap are unread, and the reserved region never meets the unread one, for every power-of-two cap and across the 32-bit wrap |
| SpscMachine.NoFalseRefusal | firmware/components/core__spsc_ring/spsc_ring.c:69-143 | with a current view the producer is refused only when the ring is full and the consumer only when it is empty |
| SpscMachine.StepKeeps | firmware/components/core__spsc_ring/spsc_ring.c:69-155 | each producer or consumer step keeps the ring invariant |
| SpscRing.ReserveMeans | firmware/components/core__spsc_ring/spsc_ring.c:69-102 | reserve grants the least of the request, the free space and the run to the end |
| SpscRing.PeekMeans | firmware/components/core__spsc_ring/spsc_ring.c:116-143 | peek shows the unread bytes up to the end of the buffer |
| SpscRing.CommitKeeps | firmware/components/core__spsc_ring/spsc_ring.c:104-114 | committing extends the stream by exactly the bytes in the granted cells |
| SpscRing.ReadMeans | firmware/components/core__spsc_ring/spsc_ring.c:133-142 | the cells at the read offset are the oldest unread bytes |
| SpscRing.Ring.constructor | firmware/components/core__spsc_ring/spsc_ring.c:36-43 | an empty ring over the storage |
| SpscRing.Ring.Used | firmware/components/core__spsc_ring/spsc_ring.c:46-55 | the number of unread bytes across the index wrap |
| SpscRing.Ring.Free | firmware/components/core__spsc_ring/spsc_ring.c:57-67 | the remaining capacity |
| SpscRing.Ring.Reserve | firmware/components/core__spsc_ring/spsc_ring.c:69-102 | offset and length of the region the producer may write |
| SpscRing.Ring.Commit | firmware/components/core__spsc_ring/spsc_ring.c:104-114 | the written bytes join the stream |
| SpscRing.Ring.Peek | firmware/components/core__spsc_ring/spsc_ring.c:116-143 | offset and length of the next unread bytes |
| SpscRing.Ring.Consume | firmware/components/core__spsc_ring/spsc_ring.c:145-155 | the bytes read join what was consumed |
| SpscRing.Accepts | firmware/components/core__spsc_ring/spsc_ring.c:3-6 | the bit test accepts the powers of two from 2 on |
| Words.Pow2Test | firmware/components/core__spsc_ring/spsc_ring.c:3-6 | x & (x - 1) is 0 exactly for powers of two |
| StreamMachine.AllOrNothing | firmware/components/infrastructure__logging/infra_log_stream.c:34-73 | with consumer steps between any two index loads, byte copies and index stores and with late views: a refused call leaves the stream, an accepted one never fails in its loop and after one or two rounds has added exactly the data |
| StreamMachine.WriterMoves | firmware/components/infrastructure__logging/infra_log_stream.c:34-73 | the writer never waits for the consumer: its next step is always possible |
| StreamMachine.CallReturns | firmware/components/infrastructure__logging/infra_log_stream.c:34-73 | whatever the consumer does, a call has returned after three steps per byte and three more, with all of the data written or none |
| StreamMachine.CheckExact | firmware/components/infrastructure__logging/infra_log_stream.c:46-50 | the check lets a call through iff it has data and the room seen holds it |
| LogStream.PutAll | firmware/components/infrastructure__logging/infra_log_stream.c:52-72 | entered with enough space the write loop cannot fail, takes at most two rounds and appends exactly the data, whatever the consumer does |
| LogStream.PutChunk | firmware/components/infrastructure__logging/infra_log_stream.c:57-69 | one round writes a non-empty prefix of the rest |
| LogStream.Stream.WriteAll | firmware/components/infrastructure__logging/infra_log_stream.c:34-73 | all-or-nothing: the stream grows by the data iff it is non-empty and fits, and is unchanged otherwise |
| LogStream.Stream.Init | firmware/components/infrastructure__logging/infra_log_stream.c:24-32 | initialises once |
| LogStream.Stream.Peek | firmware/components/infrastructure__logging/infra_log_stream.c:75-87 | shows the next unread bytes |
| LogStream.Stream.Consume | firmware/components/infrastructure__logging/infra_log_stream.c:89-97 | marks bytes as read |
| LogStream.Stream.Used | firmware/components/infrastructure__logging/infra_log_stream.c:104-112 | unread bytes, 0 before initialisation |
| LogBus.LinesAreLines | firmware/components/app__log_bus/app_log_bus.c:23-67 | every published line is non-empty text without newline of at most 512 bytes |
| LogBus.LinesOfSegments | firmware/components/app__log_bus/app_log_bus.c:49-67 | each line is the last 512 bytes of the text between newlines, minus one trailing CR |
| LogBus.CleanMeans | firmware/components/app__log_bus/app_log_bus.c:23-36 | the last 512 bytes of a segment but for a carriage return at its very end |
| LogBus.Framer.Append | firmware/components/app__log_bus/app_log_bus.c:49-67 | lines published earlier stay, and the effect of chunks depends only on the concatenated text |
| LogBus.Framer.FlushLine | firmware/components/app__log_bus/app_log_bus.c:23-47 | the stream is the old one plus the accumulated line and its newline, or unchanged, and the accumulator starts afresh |
| LogBus.Framer.AppendByte | firmware/components/app__log_bus/app_log_bus.c:53-65 | one byte: at most the line it completes is added to those published |
| LogBus.PublishLine | firmware/components/app__log_bus/app_log_bus.c:35-45 | line and newline are written together or not at all |
| LogPipeline.LinesArrive | firmware/components/app__demo_lcd/app_demo_lcd.c:77-111 | framer and drain in any interleaving, also with lines seen in pieces: the rows drawn are those of the published lines in order, all of them once the drain has caught up |
| PipelineMachine.LinesArriveOnRing | firmware/components/app__log_bus/app_log_bus.c:34-45 | the same with the consumer between any two index accesses and with late views: once the room check has passed neither the write of the line nor that of its newline fails, and between lines the stream holds whole published lines |
| PipelineMachine.MoveRefines | firmware/components/app__log_bus/app_log_bus.c:34-45 | each single step on the ring is a step of the pipeline of whole writes |
| PipelineMachine.NeverStuck | firmware/components/app__log_bus/app_log_bus.c:34-45 | in every reachable state the framer, its writer and the drain each have a step to take |
| StreamMachine.WriterSteps | firmware/components/infrastructure__logging/infra_log_stream.c:34-73 | with room seen for what is left of a call and for more, a step of the writer is never refused and keeps that room |
| LogDrain.EndToEnd | firmware/components/app__demo_lcd/app_demo_lcd.c:77-111 | for any text logged in any chunks, the rows drawn from any prefix of the stream are those of the published lines, in order |
| LogDrain.RowsOfLines | firmware/components/app__demo_lcd/app_demo_lcd.c:88-99 | a stream of whole lines draws one row per line |
| LogDrain.RowMeans | firmware/components/app__demo_lcd/app_demo_lcd.c:56-99 | a row shows the last sixteen characters, spaces behind a shorter line, carriage returns left out |
| LogDrain.Drain.PushTail | firmware/components/app__demo_lcd/app_demo_lcd.c:66-75 | keeps the last 16 characters |
| LogDrain.Drain.ProcessShown | firmware/components/app__demo_lcd/app_demo_lcd.c:82-108 | the draws depend on the bytes and not on where the ring wraps |
| LogDrain.Drain.DrainAll | firmware/components/app__demo_lcd/app_demo_lcd.c:77-111 | undisturbed, the loop drains the stream, the unfinished tail carrying over |
| LogDrain.PadRow | firmware/components/app__demo_lcd/app_demo_lcd.c:56-64 | sixteen characters, padded with spaces |
| LogHistory.LogRing.WriteByte | firmware/components/infrastructure__logging/logging_idf.c:86-94 | the ring refines an append-only history: it holds its newest bytes, and overflow is set iff more than the capacity was written |
| LogHistory.LogRing.PushLine | firmware/components/infrastructure__logging/logging_idf.c:105-129 | appends header, message and newline |
| LogHistory.LogRing.Snapshot | firmware/components/infrastructure__logging/logging_idf.c:161-175 | the oldest bytes held, at most max |
| LogHistory.LogRing.Tail | firmware/components/infrastructure__logging/logging_idf.c:177-192 | the newest bytes, at most tail_bytes and max |
| LogHistory.LogRing.CopyFromStart | firmware/components/infrastructure__logging/logging_idf.c:152-159 | the two-part copy is one contiguous stretch of history |
| LogHistory.LogRing.Clear | firmware/components/infrastructure__logging/logging_idf.c:144-149 | empties the history |
| LogHistory.LogRing.Stat | firmware/components/infrastructure__logging/logging_idf.c:133-142 | capacity, bytes held, overflow |
| TimerMachine.NoLostWakeup | firmware/components/services__timer/services_timer.c:91-203 | in every reachable state a slot is active iff the service is armed, then for the minimum due, with the hardware timer running or its callback on the way |
| TimerMachine.FailedStart | firmware/components/services__timer/services_timer.c:137-145 | if the hardware timer fails to start, the wake-up survives iff no slot is active, the alarm already stood right, or the callback was on its way |
| TimerMachine.CollectedOnTime | firmware/components/services__timer/services_timer.c:169-192 | everything collected is a deadline on the grid of its arm call, with its event, and not early |
| TimerMachine.CollectedOnce | firmware/components/services__timer/services_timer.c:184-191 | a one-shot is collected at most once; successive collections of a periodic arm fall in strictly increasing grid windows |
| TimerMachine.FirstStartFails | firmware/components/services__timer/services_timer.c:137-145 | after the very first arm call a failed start leaves an active deadline that nothing looks at until the next arm or cancel call |
| TimerMachine.WakeupsUnderFailure | firmware/components/services__timer/services_timer.c:112-149 | in every reachable state, whatever starts failed: the wake-up is as it should be iff the service is armed or no slot is active; the next rearming with a successful start repairs it, one with a failing start leaves a wake-up exactly as FailedStart says |
| TimerMachine.StepReady | firmware/components/services__timer/services_timer.c:112-149 | every step, its start failing or not, keeps the service armed only for the earliest deadline and with a wake-up on the way |
| TimerMachine.PostAfterCancel | firmware/components/services__timer/services_timer.c:196-202 | a concrete run posts the event of a timer that was cancelled with success |
| TimerMachine.CallbackCollects | firmware/components/services__timer/services_timer.c:169-194 | the callback collects each due slot once, in slot order; one-shots end, periodic ones move on by whole periods to the first later deadline, and no other slot changes |
| TimerMachine.ArmMeans | firmware/components/services__timer/services_timer.c:292-330 | an arm call takes the first free slot iff there is one, sets its deadline after the delay, changes no other slot, and its token is accepted |
| TimerMachine.ArmOnceMeans | firmware/components/services__timer/services_timer.c:281-331 | a one-shot is due after its delay, at least 1 us after the clock of the call; other arms stay alive |
| TimerMachine.ArmPeriodicMeans | firmware/components/services__timer/services_timer.c:333-383 | a periodic arm is due after one period, 0 being refused; other arms stay alive |
| TimerMachine.DeadlineIsServed | firmware/components/services__timer/services_timer.c:112-203 | no active deadline is stuck: from every reachable state time, the hardware timer and the callback are enough to have it collected |
| TimerMachine.CancelMeans | firmware/components/services__timer/services_timer.c:385-412 | a cancel whose token stands for an active slot clears this slot and no other, and every other arm stays alive; any other token changes nothing |
| DeadlineTimer.RearmMeans | firmware/components/services__timer/services_timer.c:112-149 | rearming stops the hardware timer once no deadline is left, leaves it if it stands right, and else starts it for the time left, at least 1 us |
| DeadlineTimer.FireEventsMeans | firmware/components/services__timer/services_timer.c:169-182 | the posted events are those of the collected slots, in the same order |
| TimerMachine.NoDrift | firmware/components/services__timer/services_timer.c:184-191 | periodic deadlines stay on the grid of the first one |
| TimerMachine.NothingAfterCancel | firmware/components/services__timer/services_timer.c:385-412 | after a cancel the arm is never collected again, and its event is posted iff it was collected before and still waiting |
| TimerMachine.CancelKills | firmware/components/services__timer/services_timer.c:399-411 | a successful cancel ends the arm its token stands for |
| TimerMachine.TokenLife | firmware/components/services__timer/services_timer.c:311-330 | a token is accepted iff its slot is active and was re-armed a multiple of 65535 times since |
| TimerMachine.DeadlinesPunctual | firmware/components/services__timer/services_timer.c:130-148 | with bounded lag between clock read and mutex, the hardware timer is never set before the earliest deadline, nor later than that lag after it or 1 us from now |
| TimerMachine.StepHistory | firmware/components/services__timer/services_timer.c:151-412 | each API call and callback keeps the history invariant |
| TimerMachine.StepAwake | firmware/components/services__timer/services_timer.c:112-149 | each step whose timer starts succeed keeps the wake-up invariant |
| DeadlineTimer.NextDueOnGrid | firmware/components/services__timer/services_timer.c:76-89 | the catch-up formula yields the one grid point in (now, now + period] |
| DeadlineTimer.EarliestMeans | firmware/components/services__timer/services_timer.c:91-110 | the search finds the minimum due over the active slots iff there is one |
| DeadlineTimer.FiresMeans | firmware/components/services__timer/services_timer.c:169-182 | exactly the due slots fire, once each, in slot order |
| DeadlineTimer.TokenRoundTrip | firmware/components/services__timer/services_timer.c:56-74 | tokens are never 0 and stand for exactly one slot and generation |
| DeadlineTimer.GenReturns | firmware/components/services__timer/services_timer.c:311-314 | a generation returns iff the slot was armed a multiple of 65535 times, as 0 is skipped |
| TimerObject.Service.FindEarliest | firmware/components/services__timer/services_timer.c:91-110 | the loop computes the earliest deadline |
| TimerObject.Service.ArmEarliest | firmware/components/services__timer/services_timer.c:112-149 | cancel, start and bookkeeping, with the failing start |
| TimerObject.Service.ArmOnce | firmware/components/services__timer/services_timer.c:281-331 | arms the first free slot for now + max(delay, 1), or returns 0 |
| TimerObject.Service.ArmPeriodic | firmware/components/services__timer/services_timer.c:333-383 | arms the first free slot on a period, 0 being refused |
| TimerObject.Service.Cancel | firmware/components/services__timer/services_timer.c:385-412 | deactivates the slot iff the token is accepted |
| TimerObject.Service.IsActive | firmware/components/services__timer/services_timer.c:414-429 | whether the token is accepted |
| TimerObject.Service.Callback | firmware/components/services__timer/services_timer.c:151-203 | the loop collects the due slots, advances or retires them, and rearms |
| Crc8.OneWireCrc8 | firmware/components/infrastructure__gpio_onewire/gpio_onewire.c:204-217 | the byte loop computes the polynomial register over the wire bits |
| Crc8.CrcByte | firmware/components/infrastructure__gpio_onewire/gpio_onewire.c:209-214 | the inner loop feeds eight bits, least significant first |
| Crc8.ZeroCheck | firmware/components/infrastructure__gpio_onewire/gpio_onewire.c:204-217 | the zero check passes iff the last byte is the CRC of the rest, for messages of any length |
| Crc8.CheckValue | firmware/components/infrastructure__gpio_onewire/gpio_onewire.c:204-217 | over the digits 1 to 9 the CRC is 0xA1 |
| Crc8.CrcLinear | firmware/components/infrastructure__gpio_onewire/gpio_onewire.c:204-217 | XOR-linearity on messages of equal length |
| Crc8.CrcParity | firmware/components/infrastructure__gpio_onewire/gpio_onewire.c:204-217 | the parity of the CRC is the parity of the message bits |
| Crc8.ErrorsDetected | firmware/components/services__ds18b20_ev/services_ds18b20_ev.c:100-107 | at any length the zero check detects every odd number of flips and every burst of at most 8 bits, and two flips iff their distance is not a multiple of 127 bits |
| Crc8.ScratchpadFlips | firmware/components/services__ds18b20_ev/services_ds18b20_ev.c:100-107 | in a nine-byte scratchpad no two flips escape |
| Crc8.ByteErrorDetected | firmware/components/services__ds18b20_ev/services_ds18b20_ev.c:100-107 | an error confined to one byte is detected |
| Lcd.RunFollowsPlan | firmware/components/drivers__lcd1602rgb_dfr_async/lcd1602rgb_dfr_async.c:368-427 | for every burst size and pattern of refused submits and extra steps, accepted transactions are a prefix of one fixed sequence and the flush ends exactly when all of it was accepted |
| Lcd.FlushShowsFrame | firmware/components/drivers__lcd1602rgb_dfr_async/lcd1602rgb_dfr_async.c:368-427 | on completion the display memory equals the frame |
| Lcd.RunWrites | firmware/components/drivers__lcd1602rgb_dfr_async/lcd1602rgb_dfr_async.c:383-427 | at each point exactly the cells the flush passed show the frame, the others are untouched |
| Lcd.PlanLength | firmware/components/drivers__lcd1602rgb_dfr_async/lcd1602rgb_dfr_async.c:387-390 | a flush is two addresses and ceil(16 / burst) chunks a row |
| Lcd.StepPlan | firmware/components/drivers__lcd1602rgb_dfr_async/lcd1602rgb_dfr_async.c:368-427 | an accepted submit is the head of what remains; a refused one leaves it |
| Lcd.DrawMeans | firmware/components/drivers__lcd1602rgb_dfr_async/lcd1602rgb_dfr_async.c:503-519 | drawing changes the cells from the column on up to the row's end, a NUL or a newline, no others, and marks the frame for flushing; outside the frame it does nothing |
| Lcd.DrawnIsShown | firmware/components/drivers__lcd1602rgb_dfr_async/lcd1602rgb_dfr_async.c:503-533 | from rest, a drawing and a flush request show the whole frame on the display once as many submits were accepted as a flush has |
| Lcd.NotesMean | firmware/components/drivers__lcd1602rgb_dfr_async/lcd1602rgb_dfr_async.c:352-399 | a step tells READY when initialisation ends, UPDATED when a flush ends, and nothing else |
| Lcd.WaitsMean | firmware/components/drivers__lcd1602rgb_dfr_async/lcd1602rgb_dfr_async.c:236-316 | the wait after each initialisation command and between two chunks |
| Lcd.DrawDuringFlush | firmware/components/drivers__lcd1602rgb_dfr_async/lcd1602rgb_dfr_async.c:395-399 | drawing during a flush shows up iff it changed no cell already sent, and is marked clean either way |
| Lcd.FlushServed | firmware/components/drivers__lcd1602rgb_dfr_async/lcd1602rgb_dfr_async.c:521-533 | a flush request is served iff the frame is dirty and the driver idle or ready |
| Lcd.InitSends | firmware/components/drivers__lcd1602rgb_dfr_async/lcd1602rgb_dfr_async.c:232-317 | the accepted initialisation commands are the rest of the fixed sequence from the current index |
| Lcd.DrawCanBeLost | firmware/components/drivers__lcd1602rgb_dfr_async/lcd1602rgb_dfr_async.c:395-399 | from any frame a flush can be run so that a new character stays invisible and flushing again does nothing |
| Lcd.StartUp | firmware/components/drivers__lcd1602rgb_dfr_async/lcd1602rgb_dfr_async.c:329-362 | a ready display got exactly the commands from the index on, once each and in order, whatever was refused |
| Lcd.StartSends | firmware/components/drivers__lcd1602rgb_dfr_async/lcd1602rgb_dfr_async.c:446-451 | after a start event in any state the display gets all eleven commands iff the index stood at 0 |
| Lcd.PanelReady | firmware/components/drivers__lcd1602rgb_dfr_async/lcd1602rgb_dfr_async.c:232-317 | whatever state it was in, the eleven commands leave the controller with two rows, the configured contrast, booster and follower, the display on without cursor, and the memory blank |
| Lcd.RgbStep | firmware/components/drivers__lcd1602rgb_dfr_async/lcd1602rgb_dfr_async.c:196-206 | the RGB chip's registers are written in order up to the first refusal, and the driver goes on only if there was none |
| Lcd.RgbReady | firmware/components/drivers__lcd1602rgb_dfr_async/lcd1602rgb_dfr_async.c:196-206 | the RGB chip has its registers set before the display gets its first command |
| Lcd.RestartSkips | firmware/components/drivers__lcd1602rgb_dfr_async/lcd1602rgb_dfr_async.c:446-451 | a second start after one command makes the driver ready without the first command |
| LcdObject.Driver.Step | firmware/components/drivers__lcd1602rgb_dfr_async/lcd1602rgb_dfr_async.c:322-432 | the state machine in place |
| LcdObject.Driver.OnStart | firmware/components/drivers__lcd1602rgb_dfr_async/lcd1602rgb_dfr_async.c:446-451 | the start event in place |
| LcdObject.Driver.SendData | firmware/components/drivers__lcd1602rgb_dfr_async/lcd1602rgb_dfr_async.c:383-427 | the data state in place |
| LcdObject.Driver.InitNextStep | firmware/components/drivers__lcd1602rgb_dfr_async/lcd1602rgb_dfr_async.c:232-317 | one initialisation command, its delay, and the end of the sequence |
| LcdObject.Driver.RgbInitSequence | firmware/components/drivers__lcd1602rgb_dfr_async/lcd1602rgb_dfr_async.c:196-206 | up to three writes, stopping at the first refusal |
| LcdObject.Driver.DrawText | firmware/components/drivers__lcd1602rgb_dfr_async/lcd1602rgb_dfr_async.c:503-519 | the drawing loop on the frame |
| LcdObject.Driver.RequestFlush | firmware/components/drivers__lcd1602rgb_dfr_async/lcd1602rgb_dfr_async.c:521-533 | flush request in place |
| Ds18.OneWakeup | firmware/components/services__ds18b20_ev/services_ds18b20_ev.c:58-84 | in every interleaving at most one wake-up is on its way, none in IDLE, and outside IDLE exactly one iff no tick was dropped; the queue never holds more than 8 |
| Ds18.TicksHaveWork | firmware/components/services__ds18b20_ev/services_ds18b20_ev.c:200-205 | the tick-in-IDLE branch is unreachable |
| Ds18.ReadsAreRipe | firmware/components/services__ds18b20_ev/services_ds18b20_ev.c:138-163 | the scratchpad is read only after that conversion's one-shot went off, hence after the conversion time and 20 ms |
| Ds18.ConversionTime | firmware/components/services__ds18b20_ev/services_ds18b20_ev.c:39-47 | the table is the least whole number of milliseconds not below 750 ms halved for each bit less than 12 |
| Ds18.OneShotTime | firmware/components/services__ds18b20_ev/services_ds18b20_ev.c:126 | the one-shot is set to exactly that time and 20 ms |
| Ds18.CycleReads | firmware/components/services__ds18b20_ev/services_ds18b20_ev.c:58-163 | a service at rest completes a measurement: one conversion made and read, back in IDLE |
| Ds18.CycleFails | firmware/components/services__ds18b20_ev/services_ds18b20_ev.c:119-134 | when the sensor does not answer there is no conversion, an error goes to the bus and the service is at rest again |
| Ds18.EachReadOnce | firmware/components/services__ds18b20_ev/services_ds18b20_ev.c:138-163 | no conversion is read twice |
| Ds18.DropIsForever | firmware/components/services__ds18b20_ev/services_ds18b20_ev.c:58-72 | after a dropped tick the service stays in its state for good |
| Ds18.NoDropIff | firmware/components/services__ds18b20_ev/services_ds18b20_ev.c:58-72 | a run drops no tick iff each post of a tick by either callback found room in the queue |
| Ds18.DropIsPossible | firmware/components/services__ds18b20_ev/services_ds18b20_ev.c:231 | a drop happens when other messages fill the queue of 8 |
| Ds18.StepInv | firmware/components/services__ds18b20_ev/services_ds18b20_ev.c:115-206 | each callback or task step keeps the wake-up invariant |
| Ds18Object.Service.PeriodCallback | firmware/components/services__ds18b20_ev/services_ds18b20_ev.c:64-72 | the periodic callback, uninterrupted, is these steps of the machine |
| Ds18Object.Service.OnceCallback | firmware/components/services__ds18b20_ev/services_ds18b20_ev.c:58-62 | the one-shot callback, uninterrupted, is these steps of the machine |
| Ds18Object.Service.ProcessSm | firmware/components/services__ds18b20_ev/services_ds18b20_ev.c:115-170 | convert and start the one-shot, or report an error; read, report the result if the pool has a slot for it, and return to IDLE |
| Ds18Object.Service.HandleMessage | firmware/components/services__ds18b20_ev/services_ds18b20_ev.c:184-207 | the reaction to a message, uninterrupted, is these steps of the machine |

## Left out

- LogStream.PutAll: as a method the consumer runs between ring calls only; StreamMachine.AllOrNothing covers every point and late views.
- LogDrain.Drain.DrainAll: nothing is written while it runs; LogPipeline.LinesArrive and PipelineMachine.LinesArriveOnRing cover the interleaving.
- DeadlineTimer.NextDueOnGrid: does not model 64-bit overflow of deadlines.
- BusObject.Bus.Post: the build without the schema guard is not modelled, nor is the time stamp in the message.
- BusObject.Bus.BroadcastLease: runs without interruption; LeaseMachine interleaves its steps.
- Ds18Object.Service.HandleMessage: runs without interruption; Ds18 interleaves its steps.
- `ev_post_from_isr`: the same fan-out and counting as `ev_post`.
- Deleting a queue, `ev_get_event_stats`, the start-up self-test of the schema, and the bus interface table: no state of their own.
- Starting and stopping services, task creation, watchdogs, and out-of-memory paths.
- Arguments that are NULL: the model has no null pointers.
- Printing: `lp_dump`, the messages of `lp_check` and of the guards, the log formatting and its length arithmetic.
- GPIO, I2C, RMT and RTC drivers, bus timing, and the sensor's temperature arithmetic.
- The I2C service beyond "an accepted transaction reaches the device in order"; RGB colour after start-up.
- Weak memory beyond late but monotone index reads.
- Deadlines of the one-shot that delays the display driver: any pattern of step calls is covered instead.
