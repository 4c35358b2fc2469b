# Verified model of the DuckDB extension's protocols and conversions

The PHP extension for DuckDB has little arithmetic and several real protocols. This project
models its six hardest parts in Dafny and proves what they promise, for every input, every
interleaving and every run. Run `dafny verify dfyconfig.toml` in this directory.

**Arrow slices.** `ArrowData` gives an Arrow array two meanings: the specification's, where a
struct's offset shifts its children, and DuckDB's importer's, which ignores it. `ArrowNormalize`
specifies the slice normaliser and proves that the importer reads from the normalised view
exactly what the specification reads from the source, through any nesting of structs, lists,
fixed-size lists and dictionaries. `ArrowFacade` is the normaliser itself, which builds a tree of
objects and fills bitmaps (`Bitmaps`) in place. `ArrowValidation` shows that what validation
accepts never makes the normaliser fail, and `ArrowAcceptance` what that is. `ArrowMetadata`
treats schema metadata: its walk, its encoding and the two extension keys.

**Number texts.** `Bignum` and `BignumText` decode BIGNUM cells: base 2^32 to base 10^9 in a
reserved array, then digits filled backwards. `Decimal128` renders 128-bit integers and DECIMALs.
`Limbs` and `DecimalText` say what limbs and decimal texts denote; `Integers` holds the widths.

**Callback sessions and leases.** `CopySession` holds the objects and their lock regions,
`LeaseProtocol` interleaves them (one request thread with nested leases, any number of sessions,
DuckDB threads and a clock), `LeaseInvariant` proves what each step keeps and `LeaseSafety` the
protocol's promises, `LeaseProgress` how soon the request thread keeps them and `LeaseOrder` that
requests start in order. `ConnHelper` is the helper thread's own protocol, and `LeaseHelper` runs both
together: a lease's `done` flag against the work that it posted.

**Async tasks.** `AsyncTask` holds a task's flags and the worker registry, `AsyncProtocol`
interleaves any number of tasks, cancellation workers and other threads on any number of
connections, `AsyncSafety` proves cancellation, registry and result safety and `AsyncCancel` what
one cancellation or execution achieves.

**Ownership of native handles.** `ConnCleanup` covers prepared statements and cleanup that a
connection postpones, from the lock region that decides to the native call that follows it;
`StatementSafety` runs it together with the async workers and asks whether destroying a statement
can meet a running query; `OpenResults` covers the registry of open results
and every way one ends, `OpenResultEnds` how long one holds its connection and what each end leaves.

**Results, log, bindings, queries.** `ResultFetch` and `ResultRuns`: forward-only fetching and
what any mix of fetches delivers. `LogStorage`: the bounded log buffer. `Bindings`,
`BindingNames` and `BindingRuns`: what a key reaches, and two binding tables against one
last-write-wins map. `PumpQuery`: a multi-statement query.

The shared shape: a class holds the fields the source changes, its methods prove that they do
what a function on values says, and the theorems are about runs of those functions.

## What the proofs brought out

- `fetchAll()` that throws after it has decoded rows loses them: `ResultRuns.FetchAllLosesRows`
  is an instance, `ResultRuns.GivenUnlessFetchAllThrows` the exact condition.
- An execution whose native bind is refused part of the way leaves the parameters before it bound
  to the new values, although it throws: `BindingRuns.RefusalMayLeaveAValueBehind` and, for the exact
  condition, `BindingRuns.RefusedExecution`.
- A log push that fails has already evicted: `LogStorage.FailedPushKeepsTheFit`. The counts still
  add up.
- Releasing a prepared statement is documented never to wait for a running query's context lock
  (php_duckdb.h:324-328). The worker count is tested under a lock and the statement destroyed after
  it. What the request thread destroys meets no statement, nor what a worker destroys at its end;
  what a worker destroys as it drops the last reference to its task meets whatever runs by then:
  `StatementSafety.DestroysMeetNoQuery`, with the runs `StatementSafety.ADestroyCanMeetTheRequestThread`
  and `StatementSafety.ADestroyCanMeetANewerWorker`.
- As a fact of the helper's protocol, work posted after the helper has exited never runs and keeps
  it busy: `ConnHelper.PostedWorkRunsOnce`, `ConnHelper.NothingRunsAfterExit`. Only the connection's
  destructor and module shutdown stop a helper, and no caller is shown to post afterwards.
- The comment at src/copy_session.h:31-33 says that a DuckDB call of the request thread's own also
  marks it away. The code marks it away in leases only; the model follows the code.

## Model

| member | source | states |
|---|---|---|
| ArrowNormalize.NormalizingKeepsMeaning | src/data_chunk.cpp:83-178 | at every depth, both readers read from row r of the view what the Arrow specification reads from row inherited + r of the source |
| ArrowNormalize.WholeColumnKept | src/data_chunk.cpp:157-176 | the same for a whole column: the children of lists and fixed-size lists, dictionaries, and the root |
| ArrowNormalize.SucceedsExactlyWhenSliceFits | src/data_chunk.cpp:96-105 | normalising succeeds if and only if each slice lies inside its array and no offset overflows, at every level |
| ArrowNormalize.SliceErrors | src/data_chunk.cpp:96-105 | which of the two errors a slice gets, in terms of the array it leaves and the sums that overflow |
| ArrowNormalize.ViewIsAllocated | src/data_chunk.cpp:107-155 | the view is again an array whose bitmaps cover its rows, of the requested length |
| ArrowNormalize.ViewSuitsTheImporter | src/data_chunk.cpp:117-119 | no struct of the view has an offset, and for every window inside the array the importer's ceil(n/8)+1 bitmap bytes from first/8 exist |
| ArrowNormalize.StructHeadKeepsValidity | src/data_chunk.cpp:113-136 | a struct's rebased bitmap and null count mark the same rows null for both readers |
| ArrowNormalize.PlainHeadKeepsValidity | src/data_chunk.cpp:137-155 | the padded bitmap of any other layout marks the same rows null |
| ArrowFacade.Normalize | src/data_chunk.cpp:89-178 | the object tree that the recursion builds denotes the specified view, or reports the first error met |
| ArrowFacade.NormalizeChildren | src/data_chunk.cpp:159-168 | the child loop keeps order and stops at the first error |
| Bitmaps.RebaseBitmap | src/data_chunk.cpp:119-130 | the OR loop yields the shifted bitmap with a spare byte, and the number of nulls |
| Bitmaps.RebasedBits | src/data_chunk.cpp:122-127 | row r of the rebased bitmap is set if and only if r is in the slice and row from + r was set |
| Bitmaps.RowsAreLeastSignificantFirst | src/data_chunk.cpp:122-127 | row r is the bit at place r % 8, counted from the least significant, of byte r / 8 |
| Bitmaps.NoNullsMeansAllSet | src/data_chunk.cpp:121-130 | the counted nulls are 0 if and only if every row of the slice is set, so a reader may skip the bitmap |
| Bitmaps.NullsAreTheClearRows | src/data_chunk.cpp:121-130 | the null count is the number of clear rows in the slice |
| Bitmaps.PadBitmap | src/data_chunk.cpp:144-151 | the padded copy of a producer's bitmap |
| Bitmaps.WindowFitsPadding | src/data_chunk.cpp:117-119 | one spare byte suffices for every alignment of a window |
| ArrowValidation.ValidatedArraysImportFaithfully | src/arrow.cpp:183-241 | an array that both validations accept normalises without error and is then read as the specification defines |
| ArrowValidation.ValidateSchema | src/arrow.cpp:183-203 | an accepted schema has a format and as many children as it says, at every level |
| ArrowAcceptance.SchemaAcceptance | src/arrow.cpp:183-203 | a schema is accepted if and only if the structure on every path of pointers is unreleased, has a format, at most 65536 children, all there, and readable metadata, at most 128 pointers deep |
| ArrowAcceptance.ArrayAcceptance | src/arrow.cpp:205-241 | an array is accepted if and only if the structure on every path is unreleased, has lengths, offsets, counts and pointers in range and as its schema says, a null count from -1 up to its length, a struct's one validity slot and children that contain its slice, at most 128 pointers deep |
| ArrowValidation.ValidSliceFits | src/arrow.cpp:227-240 | an accepted array contains every slice that its ancestors hand down |
| ArrowValidation.ValidArrayIsAllocated | src/arrow.cpp:206-226 | an accepted array has the pointers and counts that the normaliser follows |
| ArrowValidation.ImporterAloneMisreadsSlices | src/data_chunk.cpp:83-88 | a validated sliced struct that the importer alone reads wrongly, so the normaliser is needed |
| ArrowMetadata.MetadataLength | src/arrow.cpp:151-181 | the loop computes the extent of the walk or its first error |
| ArrowMetadata.EncodingIsAccepted | src/arrow.cpp:156-179 | an encoding of pairs is accepted with exactly its own length and read back, if and only if it has at most 65536 pairs and 64 MiB |
| ArrowMetadata.AcceptedBytesAreAnEncoding | src/arrow.cpp:281-285 | the accepted bytes encode the pairs read, so a copy of exactly these bytes parses to the same pairs |
| ArrowMetadata.MetadataEntries | src/arrow.cpp:321-337 | the cursor walk of the PHP export lists exactly these pairs and never leaves the buffer |
| ArrowMetadata.ExtensionMetadata | src/arrow.cpp:358-391 | the cursor walk finds the last value of each extension key and never leaves the buffer |
| ArrowMetadata.LastDuplicateWins | src/arrow.cpp:383-387 | of pairs with one key the last gives the value |
| ArrowMetadata.AbsentKeyKeepsStart | src/arrow.cpp:360-361 | a key that does not occur leaves the value empty |
| BignumText.DecodeBignum | src/bignum_decode.cpp:59-188 | each rejection in order; otherwise the canonical decimal of the cell's signed value, or an error when PHP cannot hold it |
| Bignum.ConvertMagnitude | src/bignum_decode.cpp:111-149 | limbs in range whose value is the big-endian magnitude, never more than reserved, the top limb nonzero |
| Bignum.MultiplyAdd | src/bignum_decode.cpp:134-139 | one in-place sweep multiplies by 2^32 and adds the word, without overflow of 32 or 64 bits, and returns the carry |
| Bignum.PushHigh | src/bignum_decode.cpp:141-144 | the carry becomes at most the limbs that fit the reserved capacity |
| Bignum.LimbFits | src/bignum_decode.cpp:106-111 | a number below 256^payload that needs another limb finds it inside (8*payload+28)/29 |
| Bignum.ReadWord | src/bignum_decode.cpp:122-132 | the word read is that of the magnitude with leading padding |
| BignumText.PrintLimbs | src/bignum_decode.cpp:151-181 | the text of the limbs' value, or none exactly when it is longer than PHP allows |
| BignumText.FillText | src/bignum_decode.cpp:160-181 | the backwards fill ends exactly at position 0 |
| BignumText.AcceptedSign | src/bignum_decode.cpp:100-103 | no accepted cell is a negative zero |
| BignumText.AcceptedExactly | src/bignum_decode.cpp:83-103 | a cell with a payload is accepted if and only if its header declares the payload's length, it has no leading zero byte and is no negative zero; none is too long |
| BignumText.EncodedIsAccepted | src/bignum_decode.cpp:83-103 | every integer whose magnitude fits the header has an accepted cell that denotes it |
| BignumText.SameTextSameCell | src/bignum_decode.cpp:92-103 | accepted cells that print the same text are byte-identical |
| DecimalText.SignedDecimalParses | src/bignum_decode.cpp:166-181 | the printed text is canonical and parses back to the value |
| DecimalText.CanonicalIsSignedDecimal | src/bignum_decode.cpp:166-181 | every canonical text is the printed form of the value it parses to |
| Limbs.LimbsPrint | src/bignum_decode.cpp:166-178 | the top limb unpadded, then nine digits for each lower limb, is the decimal of the whole |
| Decimal128.U128ToString | src/result.cpp:52-79 | the canonical decimal of any 128-bit value |
| Decimal128.DivideInPlace | src/result.cpp:63-69 | one sweep divides the four words by 10^9 in place and leaves the remainder |
| Decimal128.FiveGroups | src/result.cpp:56-61 | five groups of nine digits always suffice |
| Decimal128.HugeintToString | src/result.cpp:81-88 | the canonical signed decimal, also of the smallest hugeint |
| Decimal128.UhugeintToString | src/result.cpp:90-92 | the canonical decimal of an unsigned 128-bit value |
| Decimal128.DecimalRender | src/result.cpp:95-141 | sign, whole part, point and fraction for each of the four storage widths |
| Decimal128.RenderedReadsBack | src/result.cpp:133-140 | the rendered text has exactly `scale` fractional digits, at least one integer digit without leading zeros, and reads back to value / 10^scale |
| CopySession.Session.Take | src/copy_session.cpp:241-249 | takes and marks the front request, exactly when the session is open and its queue is not empty |
| CopySession.Session.Close | src/copy_session.cpp:270-281 | closes once, keeping the first reason, and empties the queue |
| CopySession.Session.Enter | src/copy_session.cpp:283-291 | queues the request at the end with its time, or refuses it with the closing reason |
| CopySession.Session.Look | src/copy_session.cpp:293-313 | the submitter's decision from what it sees, and the closing of an abandoned session |
| CopySession.CopyDriver.Unserviced | src/copy_session.cpp:85-92 | how long a session's request has gone unserviced |
| CopySession.CopyDriver.Enter | src/copy_session.cpp:106-112 | entering a lease saves the outer driver state |
| CopySession.CopyDriver.Leave | src/copy_session.cpp:114-118 | leaving it restores that state |
| LeaseSafety.SubmitContract | src/copy_session.cpp:283-315 | in every interleaving true means run once and finished, false means never begun; work is queued or on the stack only while its submitter waits |
| LeaseSafety.AnswersAreFinal | src/copy_session.cpp:298-311 | after `submit` returned nothing about its request changes in any continuation, also across close and abandonment |
| LeaseSafety.UnwindingStartsNothing | src/copy_session.cpp:442-462 | from the moment exit() or a fatal error is recorded until the outermost method re-raises it, no request of any session on any lease is started |
| LeaseSafety.LeaseReturns | src/copy_session.cpp:464-484 | a lease ends if and only if, at its locked test, its `done` flag is set and nothing can be serviced (or it is stuck); the driver state is then that of the outer lease, with its begin time |
| LeaseHelper.DoneMeansReturned | src/copy_session.cpp:423-431 | with the helpers in the run, a lease's `done` flag is set exactly when the work it posted has returned on its helper; until then that work is the next to return |
| LeaseHelper.LeaseEndsAfterItsWork | src/copy_session.cpp:410-487 | a lease that ends has had its own work begun and returned |
| LeaseSafety.BeginTimesStay | src/copy_session.cpp:106-118 | a lease's begin time is the clock at its begin and never changes while it lasts |
| LeaseSafety.SleepersHaveNothingToDo | src/copy_session.cpp:464-480 | no wakeup is lost: a lease that waits unnotified has undone work and nothing to service |
| LeaseSafety.WaitingRequestWakesItsLease | src/copy_session.cpp:289-291 | a waiting, unstarted request of an open session is queued, and its lease is not asleep |
| LeaseSafety.ClosedQueuesAreEmpty | src/copy_session.cpp:270-281 | a closed session's queue stays empty |
| LeaseSafety.AbandonedOnlyWhileAway | src/copy_session.cpp:303-310 | a request is abandoned if and only if it is unstarted on an open session, the innermost lease does not serve that session, and the limit has passed since the begin of that lease and since the request |
| LeaseSafety.LooksAreAnswered | src/copy_session.cpp:293-313 | a submitter gets true exactly when its work finished, and false exactly when it is unstarted and the session closed or the driver away too long |
| LeaseSafety.ServingTakesTheOldest | src/copy_session.cpp:239-252 | a serving lease runs the oldest request, and leaves its loop exactly when there is none or the session is closed |
| LeaseProgress.NeverStuck | src/copy_session.cpp:452-484 | outside PHP work the request thread always has a next step |
| LeaseProgress.OldestRunsNext | src/copy_session.cpp:239-258 | an undisturbed serving lease is in the oldest request's work, begun once, after exactly the turns its point is away from it: one from `service`, two from the first check, up to four |
| LeaseProgress.OldestStartsInTime | src/copy_session.cpp:452-484 | whatever other threads do, after that many own turns the oldest request has begun, or its session was closed |
| LeaseProgress.NewLeaseServesAtOnce | src/copy_session.cpp:452-457 | a lease that begins on a session with requests, nested or not, is in the oldest one's work after two turns |
| LeaseProgress.DoneLeaseReturnsInTime | src/copy_session.cpp:452-484 | whatever other threads do, a lease whose work is done ends after at most five own turns if it is stuck, its session is closed, or nothing is submitted to it meanwhile |
| LeaseProgress.UnwindingCloses | src/copy_session.cpp:442-462 | during an unwinding the session of the innermost lease is closed where it takes requests, decides or waits; the next check closes it with the unwinding's reason, and returning work comes to a check |
| LeaseProgress.UnwindingIsRecorded | src/copy.cpp:1434-1475 | the unwinding flag is set exactly by an unwinding end of PHP code or of a request's work, and cleared only by the outermost method |
| LeaseProgress.WorkIsAnswered | src/copy_session.cpp:251-258 | when work returns, one turn later its request is finished and its submitter's look returns true |
| LeaseProgress.StuckServicesNothing | src/copy_session.cpp:455-457 | a lease that may not service is never in a request's work |
| LeaseOrder.SubmitQueuesLast | src/copy_session.cpp:283-291 | a submitted request comes last in its session's queue and wakes that session's sleeping lease, or is refused; nothing else changes |
| LeaseOrder.NewSessionTakesRequests | src/copy_session.h:49-56 | a session is open and empty at first, and its first request heads its queue |
| LeaseOrder.QueueSteps | src/copy_session.cpp:239-291 | one step appends a submitted request, takes the first for service, empties a closed queue, or leaves the queue as it is |
| LeaseOrder.FirstInFirstStarted | src/copy_session.cpp:246-249 | of two queued requests of a session the later never starts before the earlier, in any run |
| LeaseOrder.FirstCloseWins | src/copy_session.cpp:270-281 | the close of an open session sets its reason and drops its queue; a second close changes nothing |
| LeaseOrder.ClosedForGood | src/copy_session.cpp:270-281 | over any run a closed session keeps its first reason and stays empty |
| LeaseInvariant.RunKeeps | src/copy_session.cpp:239-487 | every step of every run keeps the invariants of stack, queues, requests, work, unwinding, waiting and driver state |
| ConnHelper.PostedWorkRunsOnce | src/copy_session.cpp:188-196 | posted work begins once, in its turn, exactly unless the helper had exited before the post; a racing stop changes nothing |
| ConnHelper.ExitLeavesNothing | src/copy_session.cpp:150-156 | when the helper exits, everything posted before has ended |
| ConnHelper.NothingRunsAfterExit | src/copy_session.cpp:154-156 | after its exit nothing runs, and a work posted then keeps the helper busy for good |
| ConnHelper.StoppedHelperExits | src/copy_session.cpp:198-216 | a stopped helper exits after at most three own steps with everything posted ended, so the join returns |
| ConnHelper.Helper.Wake | src/copy_session.cpp:149-159 | takes pending work even when stopped, and exits only without any |
| ConnHelper.Helper.Post | src/copy_session.cpp:188-196 | hands over work only when the previous one has ended |
| AsyncTask.Task.Claim | src/pending.cpp:163-169 | the worker runs exactly when no cancellation was requested |
| AsyncTask.Task.Cancel | src/pending.cpp:580-609 | nothing on a done or already cancelled task; otherwise the request, and an interrupt exactly while the worker runs |
| AsyncTask.Task.Record | src/pending.cpp:173-199 | an error is kept and its native result destroyed at once; a success keeps the result |
| AsyncTask.Task.Destruct | php_duckdb.h:457-479 | the destructor destroys the result exactly when nobody consumed it |
| AsyncTask.Task.Pulse | src/pending.cpp:591-598 | a turn of the cancellation worker interrupts only a running, unpublished task |
| AsyncTask.Registry.Start | src/pending.cpp:241-281 | finished workers are joined and dropped; a new one is registered, counted and counted on its connection or, when its thread cannot start, none of these |
| AsyncTask.Registry.Complete | src/pending.cpp:266-272 | finishing marks one entry and lowers the counter by one |
| AsyncTask.Registry.JoinAll | src/pending.cpp:150-154 | at counter 0 every entry is finished and is joined |
| AsyncSafety.InterruptsHitTheirTask | src/pending.cpp:161-210 | every interrupt ever sent for a task was sent while its own worker held the connection mutex, and no other statement ran there |
| AsyncSafety.RunningStatementsAreInterrupted | src/pending.cpp:587-609 | cancelling a running statement interrupts it at once and then on every turn of its cancellation worker |
| AsyncSafety.OneHolderPerConnection | src/pending.cpp:163-210 | one worker at a time is between locking and unlocking a connection |
| AsyncSafety.CancellingDoneChangesNothing | src/pending.cpp:551-556 | cancelling a published task changes nothing and interrupts nothing |
| AsyncSafety.PublishedIsFinal | src/pending.cpp:203-209 | after publication the outcome is final in every continuation and no interrupt is ever sent for the task |
| AsyncSafety.CancelledBeforeItStarts | src/pending.cpp:166-176 | cancelled before its worker's check, a task never executes and reports the interruption |
| AsyncCancel.CancelIsRecorded | src/pending.cpp:581-612 | a cancellation is recorded and its worker lives afterwards, exactly unless the outcome is published, one was recorded before, or that worker cannot start; whether the statement runs decides only if it interrupts at once |
| AsyncCancel.CancelBeforeTheCheckWins | src/pending.cpp:581-612 | over any run after a cancellation made before the worker's check the task never executes and ends in error |
| AsyncCancel.CancelAfterTheCheckIsTooLate | src/pending.cpp:163-185 | a worker that finds no cancellation at its check executes its statement exactly once, whatever is requested later |
| AsyncCancel.PulseRepeatsTheInterrupt | src/pending.cpp:593-602 | each turn of the cancellation worker interrupts while the claimed statement is unpublished, and leaves once it is published |
| AsyncCancel.ExecutionOutcome | src/pending.cpp:176-201 | a task fails exactly when its statement did; a failure's native result is destroyed at once, a success keeps it |
| AsyncCancel.GetResultSays | src/pending.cpp:474-499 | a finished task's `getResult()` throws its error exactly when it failed or was cancelled unrun, gives the result exactly while the task has it, and otherwise says that it was consumed |
| AsyncCancel.WorkersGoOn | src/pending.cpp:160-224 | each step of a worker leads to the next place of its way, and it waits only for the connection's mutex and for its cancellation worker |
| AsyncSafety.PublishedOutcome | src/pending.cpp:173-199 | a task executes at most once; a published one executed unless it was cancelled, a failed one has destroyed its native result, and one that succeeded holds it until it is consumed |
| AsyncSafety.ResultsAreDestroyedOnce | php_duckdb.h:457-479 | over every run a task's native result is destroyed at most once, by the worker, the Result that took it or the task's destructor, and when these are gone it has been |
| AsyncSafety.ResultIsTakenOnce | src/pending.cpp:474-499 | `getResult()` gives the native result to one Result at most, and to none when the task failed |
| AsyncSafety.CancellationEndsBeforeTheTask | src/pending.cpp:212-215 | no cancellation worker is alive once both references to a task are gone, and none starts then |
| AsyncSafety.JoinGoesThrough | src/pending.cpp:212-215 | the join of the cancellation worker waits for one turn of it at most |
| AsyncSafety.ActiveCountsTheUnfinished | src/pending.cpp:113-121 | the active counter is the number of registered unfinished workers, and every unfinished worker is registered |
| AsyncSafety.ShutdownLeavesNothingRunning | src/pending.cpp:123-155 | when shutdown sees no active worker, no worker holds a connection and no cancellation worker is alive |
| ConnCleanup.Connection.WorkerEnd | duckdb.cpp:374-387 | the last worker destroys every statement left to the workers, in order |
| ConnCleanup.Connection.ReleasePrepare | duckdb.cpp:389-412 | a statement goes to the workers, is deferred past a handler, or is destroyed now |
| ConnCleanup.Connection.Cleanup | duckdb.cpp:426-437 | cleanup is deferred exactly inside a handler of the connection |
| ConnCleanup.Connection.Destroy | php_duckdb.h:277-289 | all deferred cleanup is performed, in order, and after it the disconnect |
| ConnCleanup.DrainAll | duckdb.cpp:455-473 | each noted connection outside its handlers is drained once however often it was noted; the busy ones stay noted |
| ConnCleanup.NothingLostOrDoneTwice | duckdb.cpp:369-437 | over every run what was handed over is done, in a thread's hand, deferred or left to the workers, in one place only; without workers nothing is left to them |
| ConnCleanup.DisconnectLeavesNothing | php_duckdb.h:277-289 | a connection that is gone has performed everything handed over exactly once, and its disconnect last |
| ConnCleanup.OutermostMethodDrains | src/copy.cpp:1446-1450 | the outermost method leaves nothing deferred on any connection: it has it all in hand |
| ConnCleanup.TakenWhileWorkersRemain | duckdb.cpp:389-453 | while workers remain counted, a lock region takes a statement in hand for destruction if and only if it drains or hands over cleanup that carries it; both lock the connection next (duckdb.cpp:435, 449) |
| ConnCleanup.InHandIsPerformed | duckdb.cpp:376-411 | what a thread has taken in hand it can perform next, which takes it from its hand once |
| ConnCleanup.DeferredRunsInOrder | duckdb.cpp:426-453 | deferred cleanup is performed in the order of its handing over, and before the disconnect |
| ConnCleanup.LeftStatementsGoInOrder | duckdb.cpp:374-396 | statements left to the workers are destroyed in the order of their release |
| StatementSafety.DestroysMeetNoQuery | php_duckdb.h:324-328 | in every interleaving with the async workers, what the request thread destroys, and what any thread destroys under the connection mutex, meets no running statement; only what a worker decided to destroy as it drops the last reference can meet one, never its own |
| StatementSafety.ReleasesDecidedWhenIdle | duckdb.cpp:389-411 | a release is taken in hand exactly when no task on the connection is unended and it is outside the connection's handlers; no worker's query runs then, and for the request thread none at all |
| StatementSafety.ADestroyCanMeetTheRequestThread | duckdb.cpp:389-411 | a run in which the request thread's next statement is running when the worker destroys |
| StatementSafety.ADestroyCanMeetANewerWorker | duckdb.cpp:389-411 | a run in which a newer task's query is running then |
| StatementSafety.WorkersAreUnendedTasks | duckdb.cpp:369-382 | a connection's worker count is the number of its tasks between start and `duckdb_conn_worker_end` |
| ConnCleanup.LastWorkerTakesAll | duckdb.cpp:374-387 | the last worker takes in hand every statement left to the workers, and no other worker takes any |
| OpenResults.Registry.Destroy | duckdb.cpp:278-331 | closes the record's session with the reason, only then destroys the pending and the stream handle that are left, and unregisters the record |
| OpenResults.Registry.FinishPending | src/pending.cpp:320-337 | destroys the pending handle, unregisters the record as drained, and keeps the result, or releases it and records the error |
| OpenResults.Registry.CancelPolled | src/pending.cpp:551-579 | nothing on a done query; otherwise its session is closed, its record and handles are released, and it ends in error |
| OpenResults.Registry.CheckNoOpenResult | duckdb.cpp:333-367 | refuses exactly when an open record holds the connection and DuckDB says so; an accepted probe releases all records from holding it |
| OpenResults.RegisteredWhileOpen | duckdb.cpp:293-331 | over every run a record is registered, once, exactly while it is open or errored |
| OpenResults.WhenARecordStopsHolding | duckdb.cpp:333-367 | a record holds the connection until it is released or, exactly then, DuckDB accepts a probe while it is registered |
| OpenResults.AcceptedProbeLasts | duckdb.cpp:333-367 | after an accepted probe nothing is refused in any run until a stream or pending query is opened |
| OpenResultEnds.RefusedWhileHeld | duckdb.cpp:333-367 | an operation is refused if and only if DuckDB refuses the probe and some unfinished polled query, or stream neither drained nor failed, still holds the connection |
| OpenResultEnds.OpeningHolds | duckdb.cpp:301-320 | every new stream or pending query holds the connection |
| OpenResults.HandlesFreedOnce | php_duckdb.h:204-222 | no native handle is destroyed twice, and one that is not destroyed has exactly one owner |
| OpenResults.NothingLeaks | php_duckdb.h:443-569 | when all owners are released and their cleanup ran, every native handle was destroyed exactly once and the registry is empty |
| OpenResults.StreamEnds | src/result.cpp:745-817 | a stream that drains leaves the registry, one that fails stays; both keep their handle for the owner |
| OpenResults.PollEnds | src/pending.cpp:320-337 | a finished query has destroyed its pending handle, is done, and keeps its result exactly when it succeeded and is in error exactly when it failed |
| OpenResults.CancelIsIdempotent | src/pending.cpp:550-579 | cancelling leaves no native handle, and does nothing exactly when the query is done |
| OpenResultEnds.EndsDestroyEverything | src/pending.cpp:383-394 | a failed lease, a cancellation and the cleanup of a released owner each destroy every native handle that it had exactly once and unregister its record; the first two end in error |
| OpenResultEnds.ReleasedOwnersEnd | php_duckdb.h:443-569 | a released owner is gone with all its handles destroyed, or its cleanup can run and ends it |
| OpenResults.ResultIsTakenOnce | src/pending.cpp:474-499 | a finished query's result goes to one Result at most, exactly when it is not consumed |
| ResultFetch.ResultData.Fetch | src/result.cpp:832-867 | uses up the current chunk before asking for another; an end or an empty chunk exhausts the result |
| ResultFetch.ResultData.FetchStreamChunk | src/result.cpp:760-828 | a busy connection, a kept error, a failed lease, an error, the end and a chunk, told apart |
| ResultFetch.ResultData.FetchRowInto | src/result.cpp:872-907 | a row is consumed exactly when every cell decodes, and delivers the value of each column at its place |
| ResultFetch.DecodesByColumn | src/result.cpp:881-901 | a row decodes to the values v if and only if each column i holds v[i]; otherwise the error is that of the first column that fails |
| ResultFetch.ResultData.FetchArrowChunk | src/result.cpp:1022-1055 | a whole chunk is consumed exactly when its export succeeds, and never after some of its rows |
| ResultFetch.ResultData.FetchAllRows | src/result.cpp:1275-1302 | the loop collects rows until none is left, or throws |
| ResultFetch.ResultIterator.Rewind | src/result.cpp:1407-1427 | allowed once, before any row was consumed; then the first fetched row is current |
| ResultFetch.ResultIterator.Next | src/result.cpp:1386-1405 | moves to the next fetched row and counts it, or has none |
| ResultRuns.ConsumedIsAPrefix | src/result.cpp:832-907 | any mix of row, column, list, iterator and Arrow fetches consumes a prefix of the native rows, each once and in order, and `row_index` is its length |
| ResultRuns.NullMeansAllConsumed | src/result.cpp:872-876 | null is returned only when every native row was consumed |
| ResultRuns.RowFetch | src/result.cpp:872-907 | a row fetch returns the first row ahead, column by column, or leaves all rows ahead with the error of its first bad column; null exactly when none is ahead and the end comes cleanly |
| ResultRuns.ArrowFetch | src/result.cpp:1022-1055 | an Arrow fetch takes all rows of the next chunk if it was not read in part, the connection is idle and the export succeeds; otherwise it leaves all rows ahead, and the error says which |
| ResultRuns.AllFetch | src/result.cpp:1275-1302 | `fetchAll` consumes the longest run of rows that decode; it returns them exactly when they are all and the end comes cleanly |
| ResultRuns.GivenUnlessFetchAllThrows | src/result.cpp:1289-1301 | a call delivers less than it consumes if and only if it is a `fetchAll` whose first row decodes and that something stops later |
| ResultRuns.FetchAllLosesRows | src/result.cpp:1289-1301 | an instance: a decoded row that no later call delivers |
| ResultRuns.FailedDecodeRepeats | src/result.cpp:883-889 | a row that does not decode stays, and fails again in the same way |
| ResultRuns.FailedArrowTakesNothing | src/result.cpp:1043-1050 | after a failed Arrow export the next row fetch gives what it would have given |
| ResultRuns.FailedStreamKeepsItsError | src/result.cpp:762-774 | a failed stream throws its error on every later fetch of any kind, after any others, except that a busy connection gives the busy error; nothing changes |
| ResultRuns.ExhaustedStaysExhausted | src/result.cpp:874-876 | an exhausted result gives null, or an empty list, on every later fetch |
| ResultRuns.RewindStartsAtTheFirstRow | src/result.cpp:1407-1427 | an iterator that may rewind starts at the first native row |
| LogStorage.Storage.Log | src/logging.cpp:111-148 | the new buffer and drop counter for each outcome of size, lock and allocation; the byte counter stays the sum of the entry sizes |
| LogStorage.Storage.Evict | src/logging.cpp:138-142 | eviction terminates, pops only what is there, and leaves the longest suffix with room for the entry |
| LogStorage.StringLength | src/logging.cpp:96-109 | a bounded scan that accepts exactly the texts that fit and never reads past the NUL |
| LogStorage.StoredAsWritten | src/logging.cpp:111-148 | a write is stored if and only if 104 bytes and its three texts fit 8 MiB, the lock is free and nothing fails; its entry comes last with the write's own time, level, type and message |
| LogStorage.KeptIsLongest | src/logging.cpp:138-144 | what is kept is the longest suffix that fits capacity and bytes |
| LogStorage.BufferIsTheLongestFit | src/logging.cpp:111-190 | over any run without a failed push the buffer is the longest fitting suffix of the entries accepted since the last drain |
| LogStorage.BufferIsAFittingSuffix | src/logging.cpp:111-190 | over any run at all it is a fitting suffix of them |
| LogStorage.WhenTheFitIsRegained | src/logging.cpp:138-144 | a later write makes it the longest one again exactly when that reaches no further back than what the buffer still held |
| LogStorage.WritesAreAccountedFor | src/logging.cpp:42-47 | writes = drained + buffered + dropped, up to the counter's saturation, whatever allocation does |
| LogStorage.FailedPushKeepsTheFit | src/logging.cpp:138-147 | after a failed push the buffer is still the longest fit exactly when nothing had to be evicted |
| Bindings.Statement.CollectParams | src/statement.cpp:76-106 | the index of each parameter by position or name, or the first error |
| Bindings.Statement.BindExecution | src/statement.cpp:161-213 | both binding tables and the error for every outcome of collecting, converting and binding |
| Bindings.Statement.BindValue | src/statement.cpp:216-284 | a typed value is deferred, a plain one bound and its deferred value dropped; an error changes nothing |
| BindingNames.KeysReachTheirParameter | src/statement.cpp:35-70 | a key resolves to index i if and only if it is the position i from 1 to the count, or a name that DuckDB knows at i, written bare or after `$` or `:`; otherwise the error says why |
| BindingNames.CollectedByKey | src/statement.cpp:76-106 | a list binds each value at its place if it has no more values than the statement parameters; any other array binds each value where its key reaches |
| BindingNames.CollectionError | src/statement.cpp:76-106 | a collection that fails is a list that is too long, or throws the error of the first key that reaches nothing |
| BindingNames.BindReachesOneParameter | src/statement.cpp:216-284 | a bind changes the parameter that its key reaches and no other: the native binding of a plain value, the deferred table for a typed one |
| BindingNames.UnreachedBindsNothing | src/statement.cpp:249-251 | a key that reaches nothing throws its error and changes neither table |
| BindingRuns.ExecutionUsesLastWrites | src/statement.cpp:161-213 | the native bindings of an execution are the conversion, now, of the last value written for each parameter, also when names repeat an index |
| BindingRuns.LastEntryWins | src/statement.cpp:97-103 | of several values for one index the last supplied counts |
| BindingRuns.WhenExecutionSucceeds | src/statement.cpp:161-194 | an execution binds if and only if its parameters are collected and every value supplied, or kept and not overridden, converts and is accepted |
| BindingRuns.BindingsStayRight | src/statement.cpp:161-334 | over any run without a refused execution the two tables stand for the last-write-wins map |
| BindingRuns.ThrowingChangesNothing | src/statement.cpp:165-194 | a failed collection or conversion changes neither table |
| BindingRuns.RefusedExecution | src/statement.cpp:109-120 | after a refusal the tables stand for the map exactly when what was bound before it was bound so already or is a typed value |
| BindingRuns.RefusalMayLeaveAValueBehind | src/statement.cpp:109-120 | an instance: if DuckDB refuses the second value, the execution throws and leaves the first bound |
| PumpQuery.Connection.Query | src/copy_session.cpp:630-686 | the statements executed, the result and type returned, the error, and the handles destroyed, in order |
| PumpQuery.Connection.Pump | src/copy_session.cpp:598-628 | text without statements runs as one native query |
| PumpQuery.StartedIsThePrefix | src/copy_session.cpp:635-673 | exactly the statements up to the first error are executed, and all but the last of them succeed |
| PumpQuery.HeldReturns | src/copy_session.cpp:630-682 | the result returned is that of the first statement with rows, else of the last |
| PumpQuery.QueryReturnsTheOne | src/copy_session.cpp:630-682 | there is exactly one such statement, and a query without an error returns its result and no other |
| PumpQuery.QueryFreesTheRest | src/copy_session.cpp:633-686 | on success and on every error each native handle made is destroyed exactly once, except the result returned |

## Left out

- PHP and Zend: zvals, arrays keyed by column name, exception chaining and causes, fibers and bailouts; the flags "in a handler" and "unwinding" stand for them. `fetchColumn` is a row fetch and a pick.
- DuckDB itself: chunks, outcomes, errors, the names of a statement's parameters, conversions of typed values and refusals are inputs. That `duckdb_bind_value` can refuse an index that was resolved is such an assumed answer: the code has a branch for it, and nothing here shows that DuckDB takes it.
- Sockets, notification descriptors, framework adapters (src/suspend_*.cpp) and date rendering.
- Real time: the clock is any nondecreasing number. The linger and forced-pump switches and the abort of a helper that does not park after unwinding are not modelled.
- The interrupts of `duckdb_async_shutdown` and of an unwinding lease: they are aimed at a connection, not at a task, and are not in the interrupt log.
- AsyncProtocol and LeaseProtocol: each lock region is one step, and memory ordering is not modelled. A session has one request thread.
- StatementSafety: a connection has one request thread, and what it takes in hand it performs before it does anything else there; draining is one step per connection there, and one step over the noted connections in ConnCleanup.
- ConnCleanup: cleanup that locks the connection is one step with its lock and unlock.
- OpenResults: the finish hook of a session, and the temporary result that discarding a pending query makes and destroys at once.
- Arrow unions and run-end encoding: their offsets belong to the importer; the normaliser treats them as any layout with an offset. A view's null count for a layout other than struct is the source's, as in the code.
- ArrowNormalize.NormalizingKeepsMeaning: assumes honest null counts, as the code does; offsets outside a list's child give an opaque value to both readers.
- ArrowValidation.ValidatedArraysImportFaithfully: takes from the producer that pointers address what their counts say, which no check can establish.
- ArrowMetadata.MetadataLength: `Overrun` marks an allocation shorter than its own lengths, where the code would read on; the host is little-endian. The tree copy of `copy_schema` itself, names and flags are not modelled.
- Bignum.ReadWord: adds the bytes of a word where the code ORs them; the bits are disjoint.
- BignumText.DecodeBignum: the size checks before the reservation cannot fail for a payload of at most 8388607 bytes, and allocation failure is not modelled; nor is the NUL after the text. PHP's longest string is a parameter of at least 11.
- LogStorage.Storage.Log: the size of an entry beside its text is 104 bytes, as on 64-bit libstdc++.
- PumpQuery.Connection.Query: what `duckdb_pump_execute` does inside one statement is its outcome only.
- GeoArrow and JSON checks, appender, selections, vectors, COPY and scalar registration, the database cache: mostly native calls.
