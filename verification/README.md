# Lazy resolution and captured providers: a Dafny model of ESPressio System

ESPressio System lets objects come into being before the platform that serves them. Two parts of it rest on arguments that no
single function shows, and this project states and proves them.

**Synchronization** (`src/ESPressio_Synchronization.hpp`). `Mutex`, `RecursiveMutex` and `ReadWriteLock` choose their real
primitive on first use, by double-checked locking, while other threads may install or remove the process-wide provider at any
moment; `lock` and `unlock` resolve separately. `DeferredBinarySignal` puts a second lazy resolution, with another policy, on
top of such a `Mutex`.

**Memory** (`src/ESPressio_Memory.hpp`, `src/ESPressio_PolymorphicMemory.hpp`). Allocators bind to a provider at their first
allocation, owners capture theirs when they are made, and the provider slot changes in between; every block must still go back
to the provider that gave it, exactly as it was allocated.

## How the model is built

*Transition systems.* `LazyWrapper` is `Resolve` and the operations around it, one atomic action of one thread per step, for
unboundedly many threads; `Next` is a function of the state and of an event, and the event carries what the environment chooses
(who moves, what is installed, how a factory call ends, what a blocking primitive answers). It is generic in the primitive: the
three wrappers are this machine with the three atomic objects of `Locks`. `DeferredSignal` contains that machine, step by step,
as its inner mutex. A theorem about "every run" quantifies over every sequence of events.

*Linearizability* is stated on traces of calls, effects and returns (`AtomicObjects`): every operation takes effect once, between
its call and its return, and the effects in their order are a run of the atomic object. What an object answers is also
stated without its step function, from the counts of acquisitions and releases (`WrapperLocks`) or from the history of gives and
waits (`DeferredSignalAnswers`). The statements about owners, depth and readers count what a client can see: from the return of
an acquisition to the call of its release.

*Memory orders.* `WeakMemory` runs the same protocol again under views and messages: a thread may read any store that is not older
than what it has seen, and a store may be placed anywhere after that in the modification order. Each of the six synchronizing
orders is a parameter, so that the result says which of them are needed: all six, while the re-check under the guard may be
relaxed. A store that takes effect before an earlier load of the same thread is not modelled: as written, each such pair is
ordered by an acquire load or by a release store. `WeakMemoryRuns` shows that every sequentially consistent run is among these
executions, so that nothing holds there for want of executions.

*Objects.* `Wrappers.Wrapper`, `Signals.DeferredBinarySignal` and the classes of `MemoryObjects` hold the fields of the source's
classes. Their methods perform the actions in the order of the source, and each contract equates the new state with the step of
the transition system, or with the function of `Accounts`, `MemoryModel` or `SlotExchange`, about which the theorems are proved.
`Resolve` and `Operate` interleave the steps of other threads, given as schedules, with their own; when nobody interferes, their
contracts say outright what they leave and answer.

*Ledgers.* A provider is seen through its live blocks: address, byte count, alignment and policy. `Containers` runs
allocator-aware containers by the rules of the propagation traits, `Owners` runs unique owners of mixed classes, `Pairing` runs
allocators that are copied, rebound and compared. Misuse of a provider (a block returned twice, or not as it was allocated, or to
another provider; an object destroyed twice or as another class) is recorded for ever, and the theorems say that it never happens.
`ContainerCommands` and `OwnerCommands` say what each single command leaves, in the objects it names and in everything else.

## Where code and prose differ

README.md:59, CHANGELOG.md:19 and wiki/Memory-Policies.md:46 say that an allocator captures its provider when it is constructed.
The code binds a default-constructed allocator at its first allocation (src/ESPressio_Memory.hpp:128-133, 151-155, 170-173), and
the model follows the code: `Containers.CapturedAtFirstAllocation`. What holds of copies made before that is stated exactly, with
runs in which the block goes to the wrong provider: `Pairing.CopyPairsInEveryRun`, `Pairing.PairsExactlyWhenBound`,
`Pairing.UnboundCopyMispairs`, `Pairing.FirstAllocationsDecide`.

## Model

| member | source | states |
|---|---|---|
| WrapperRefinement.Linearizable | src/ESPressio_Synchronization.hpp:158-254 | in every run of a lazily resolved wrapper, with the slot changing at any step, every operation takes effect once between call and return and the effects are a run of one primitive that existed from the start |
| WrapperRefinement.Simulates | src/ESPressio_Synchronization.hpp:164-186 | forward simulation: a step is one operation of that single primitive, or nothing |
| WrapperRefinement.CompletesAsAtomic | src/ESPressio_Synchronization.hpp:184-186 | a call on the resolved primitive can complete with a result exactly when it could on the single primitive |
| WrapperRefinement.NextAgrees | src/ESPressio_Synchronization.hpp:164-186 | trace and atomic run stay in agreement over every step |
| WrapperLocks.MutexExcludes | src/ESPressio_Synchronization.hpp:158-187 | at most one thread is between a successful acquisition and its release, although lock and unlock resolve separately |
| WrapperLocks.RecursiveDepth | src/ESPressio_Synchronization.hpp:190-219 | a thread's depth on the one chosen primitive is its acquisitions less its releases through the wrapper; two threads are never inside together |
| WrapperLocks.RecursiveAcquiresAlone | src/ESPressio_Synchronization.hpp:216-217 | a thread acquires only at an instant when every other thread's depth is zero |
| WrapperLocks.ReadersAndWriters | src/ESPressio_Synchronization.hpp:222-254 | never a writer together with another holder; the reader count is shared acquisitions less shared releases |
| WrapperLocks.MutexGrants | src/ESPressio_Synchronization.hpp:117-123 | in every run a thread that resolved the Mutex can acquire it exactly when nobody holds it, and release it exactly when it holds it itself |
| WrapperLocks.RecursiveGrants | src/ESPressio_Synchronization.hpp:125-131 | a thread can acquire the RecursiveMutex exactly when every other thread's depth is zero, whatever its own, and release it exactly when its own is not |
| WrapperLocks.SharedGrants | src/ESPressio_Synchronization.hpp:133-142 | shared acquisition is granted exactly when nobody holds exclusively, exclusive acquisition exactly when nobody holds at all, and a release exactly of what is held |
| Locks.MutexBalance | src/ESPressio_Synchronization.hpp:117-123 | the holder of the atomic mutex is the thread with one acquisition more than releases |
| Locks.RecursiveBalance | src/ESPressio_Synchronization.hpp:125-131 | the depth of the atomic recursive mutex is acquisitions less releases |
| Locks.AcquiresAlone | src/ESPressio_Synchronization.hpp:125-131 | nobody acquires while another thread has depth |
| Locks.MutexAnswers | src/ESPressio_Synchronization.hpp:117-123 | which answers the atomic mutex can give, told from the counts of acquisitions and releases |
| Locks.RecursiveAnswers | src/ESPressio_Synchronization.hpp:125-131 | the same for the recursive mutex: its owner can always acquire again |
| Locks.SharedAnswers | src/ESPressio_Synchronization.hpp:133-142 | the same for the readers-writer lock: readers share |
| Locks.SharedBalance | src/ESPressio_Synchronization.hpp:133-142 | writer and readers of the atomic readers-writer lock are what the counts say, and a writer has no readers beside it |
| AtomicObjects.InsideIsHeld | src/ESPressio_Synchronization.hpp:184-186 | the count that a client can make is what it holds at that instant, less the unit just taken or about to be given back |
| LazyWrapper.RunInv | src/ESPressio_Synchronization.hpp:145-178 | one thread at most is inside the guard, at most one primitive is created, only the fallback or what _owned holds is published, and untouched primitives are in their initial state |
| LazyWrapper.SharedStays | src/ESPressio_Synchronization.hpp:167-175 | only the owner of the guard writes _owned and _resolved, and nobody does after the publication |
| WrapperStability.PublishedIsOwned | src/ESPressio_Synchronization.hpp:174-177 | no pointer dangles: whatever is published or carried by a thread is the fallback or the live primitive in _owned |
| WrapperStability.ResolvedForever | src/ESPressio_Synchronization.hpp:164-178 | after the publication every continuation keeps pointer and owner and calls no factory, so a fallback is permanent |
| WrapperStability.OneSnapshot | src/ESPressio_Synchronization.hpp:169-176 | the choice rests on one read of the slot inside one critical section; fallback if and only if the slot was empty or the factory gave null or threw |
| WrapperStability.SlotIsLastInstalled | src/ESPressio_Synchronization.hpp:100-113 | in every run the slot holds the provider of the last SetProvider or ResetProvider, or the initial one |
| WrapperStability.NextDecisions | src/ESPressio_Synchronization.hpp:169-176 | what is known of that read and of the factory call is kept by every step of every thread |
| Progress.StepsDecrease | src/ESPressio_Synchronization.hpp:145-178 | every step but a spin, a call or an installation strictly lowers the sum of the threads' ranks |
| Progress.BoundedWork | src/ESPressio_Synchronization.hpp:164-186 | a run takes at most nine such steps per operation called |
| Progress.SpinnerHasMovingOwner | src/ESPressio_Synchronization.hpp:148-151 | a spinning thread waits for a distinct guard owner that has an enabled step, however its factory call ends |
| Progress.ResolutionDrains | src/ESPressio_Synchronization.hpp:145-178 | from every reachable state some bounded run without calls leaves nobody inside Resolve |
| Progress.SlowPathDrains | src/ESPressio_Synchronization.hpp:165-167 | after the publication no thread enters the slow path any more |
| WeakMemory.OrdersAreExact | src/ESPressio_Synchronization.hpp:95-178 | no data race, no second primitive and no second publication in any execution if and only if all six orders are as written |
| WeakMemory.RecheckIsFresh | src/ESPressio_Synchronization.hpp:168 | the relaxed load under the guard reads the published pointer whenever one was published |
| WeakMemory.FastPathSeesInitialisation | src/ESPressio_Synchronization.hpp:165-166 | a non-null pointer from the fast path is the published one and the primitive's initialisation is in view |
| WeakMemory.ExecuteSound | src/ESPressio_Synchronization.hpp:145-178 | the invariant of the orders as written: the right to enter is in one place and carries a complete view |
| WeakMemory.ProviderUnseen | src/ESPressio_Synchronization.hpp:101-113 | without acquire in Provider or release in SetProvider a provider is called before its construction is seen |
| WeakMemory.PublishedTooEarly | src/ESPressio_Synchronization.hpp:165-175 | without acquire on the fast path or release at the store a primitive is used before its initialisation is seen |
| WeakMemory.CreatedTwice | src/ESPressio_Synchronization.hpp:149-151 | without acquire or release in the guard the re-check is stale and a second primitive is created |
| WeakMemoryRuns.EveryRunExecutes | src/ESPressio_Synchronization.hpp:145-178 | every sequentially consistent run is an execution of the weak memory model, with the same points, slot, guard, owner, published pointer and number of creations |
| WeakMemoryRuns.NextFollows | src/ESPressio_Synchronization.hpp:145-178 | each step of the wrapper is matched there by the action that reads the latest stores and stores last |
| DeferredSignalTheorems.Linearizable | src/ESPressio_Synchronization.hpp:258-320 | before the release store every operation answers Unavailable and leaves no trace; after it every operation answers as a binary signal started from _initiallySet |
| DeferredSignalAnswers.AnswersAreRight | tests/platform_abstractions_test.cpp:54-85 | in every run: Unavailable before the store; after it a Wait succeeds if and only if the last operation since the store that was not a timeout gave the signal, or there is none and it is initially set, and else it times out; all other operations succeed |
| DeferredSignalAnswers.RightAnswersExactly | tests/platform_abstractions_test.cpp:54-85 | a history is one of a binary signal if and only if every operation in it is answered so |
| DeferredSignalTheorems.CreationExcludes | src/ESPressio_Synchronization.hpp:269-281 | at most one thread is in the create-and-publish section, and it owns the primitive that the inner mutex settled on |
| DeferredSignalTheorems.ResolvedForever | src/ESPressio_Synchronization.hpp:265-282 | a published signal is the only one ever created; every continuation keeps it published, owned and alive, and creates no other |
| DeferredSignalSnapshot.OneSnapshot | src/ESPressio_Synchronization.hpp:273-281 | the reads of the slot and the factory calls of a run form whole attempts; the published signal came from the last one, in which one thread read a provider and got the signal from it, and every earlier attempt read an empty slot or got null |
| DeferredSignalSnapshot.PublishedFromOneRead | src/ESPressio_Synchronization.hpp:269-279 | names the read and the store: the same thread makes both, owns the inner mutex at every instant in between, and asks the provider that it read; nothing is published meanwhile |
| DeferredSignalSnapshot.NextSettled | src/ESPressio_Synchronization.hpp:273-281 | every step of every thread keeps what the attempts so far say about slot reads, creations and publication |
| DeferredSignalSnapshot.UnavailableExactly | src/ESPressio_Synchronization.hpp:290-319 | an operation that may resolve ends in Unavailable if and only if its own attempt, since its call, read an empty slot or got null |
| DeferredSignalTheorems.FailuresLeaveItDeferred | src/ESPressio_Synchronization.hpp:273-281 | any number of failed attempts publishes nothing and leaves _signal null |
| DeferredSignalTheorems.SlotIsLastInstalled | src/ESPressio_Synchronization.hpp:100-113 | in every run an attempt finds the provider of the last installation, or the initial one |
| DeferredSignalTheorems.InterruptNeverResolves | src/ESPressio_Synchronization.hpp:298-303 | no step of GiveFromInterrupt creates, publishes or touches the inner mutex |
| DeferredSignalWork.StepsDecrease | src/ESPressio_Synchronization.hpp:265-319 | every step of an operation, in the signal or in its inner mutex, lowers one measure summed over all threads and both layers |
| DeferredSignalWork.BoundedWork | src/ESPressio_Synchronization.hpp:265-319 | a run takes at most 36 steps per operation called, turns of the inner spin loop aside |
| DeferredSignalWork.WaitsForAnother | src/ESPressio_Synchronization.hpp:269 | a thread that spins at the inner guard or waits for the inner primitive waits for a distinct thread inside Resolve that does not wait |
| DeferredSignalWork.SomeoneMoves | src/ESPressio_Synchronization.hpp:265-282 | no deadlock over both layers: while a thread is inside Resolve some thread inside has an enabled step that lowers the measure, however the inner factory ends and whether or not the outer one delivers |
| DeferredSignalWork.ResolutionDrains | src/ESPressio_Synchronization.hpp:265-282 | from every reachable state some bounded run without calls leaves nobody inside Resolve |
| DeferredSignalProgress.RetrySucceeds | tests/platform_abstractions_test.cpp:133-147 | whatever failed before, a thread that is alone with a delivering provider gets a real answer and the signal is resolved |
| DeferredSignalProgress.RetryAfterInstalling | tests/platform_abstractions_test.cpp:133-147 | late binding: from any quiescent state, once any provider p that delivers is installed, the next operation gets a real answer, and if the signal was unresolved, p created it |
| DeferredSignalProgress.CompletesAlone | src/ESPressio_Synchronization.hpp:265-319 | from any point inside an operation that can still succeed, a lone thread completes it with one effect and one return |
| DeferredSignalAlone.FindsWhatIsOffered | src/ESPressio_Synchronization.hpp:265-319 | an operation of which no other thread interrupts a step finds the published signal, or the one that the installed provider makes, or none, and is answered accordingly |
| DeferredSignal.NextHolder | src/ESPressio_Synchronization.hpp:269 | who owns the inner mutex, derived from the refinement of the lazy Mutex |
| DeferredSignal.NextInv | src/ESPressio_Synchronization.hpp:258-320 | every step keeps the invariant that ties outer and inner program counters, mutex ownership, _signal and _resolved |
| DeferredSignal.SharedStays | src/ESPressio_Synchronization.hpp:269-280 | only the owner of the inner mutex writes _signal and _resolved, and nobody does after the publication |
| Wrappers.Wrapper.constructor | src/ESPressio_Synchronization.hpp:158-181 | a new wrapper is the initial state of the system |
| Wrappers.Wrapper.SetProvider | src/ESPressio_Synchronization.hpp:105-113 | changes the slot and nothing else |
| Wrappers.Wrapper.LoadResolved | src/ESPressio_Synchronization.hpp:165-166 | the fast-path load is its step of the system |
| Wrappers.Wrapper.TestAndSet | src/ESPressio_Synchronization.hpp:149 | answers the old flag, leaves it set, and is its step of the system |
| Wrappers.Wrapper.Recheck | src/ESPressio_Synchronization.hpp:168-169 | the re-check is its step of the system |
| Wrappers.Wrapper.ReadSlot | src/ESPressio_Synchronization.hpp:171-172 | the one read of the slot is its step of the system |
| Wrappers.Wrapper.CallFactory | src/ESPressio_Synchronization.hpp:170-173 | fresh, null or throw, and what each leaves in _owned |
| Wrappers.Wrapper.Choose | src/ESPressio_Synchronization.hpp:171-175 | uninterrupted, it settles on what the installed provider makes, or else on the fallback |
| Wrappers.Wrapper.Publish | src/ESPressio_Synchronization.hpp:174-175 | _owned if there is one, else the fallback, becomes visible |
| Wrappers.Wrapper.Clear | src/ESPressio_Synchronization.hpp:151 | the guard is down and the thread goes on to the published primitive |
| Wrappers.Wrapper.Invoke | src/ESPressio_Synchronization.hpp:184-186 | the primitive's own operation takes effect exactly when it can |
| Wrappers.Wrapper.EnterGuard | src/ESPressio_Synchronization.hpp:148-150 | the spin loop is a run of the system; it enters at once when the flag is down and nobody interferes, and gives up only with the schedule and the flag up |
| Wrappers.Wrapper.ResolveGuarded | src/ESPressio_Synchronization.hpp:167-177 | the guarded section, interleaved with any steps of others, is a run of the system |
| Wrappers.Wrapper.Resolve | src/ESPressio_Synchronization.hpp:164-178 | is a run of the system, and the pointer that it yields is the published one |
| Wrappers.Wrapper.Await | src/ESPressio_Synchronization.hpp:184-186 | the call on the resolved primitive, while it blocks, is a run of the system; undisturbed it completes when the primitive can answer so |
| Wrappers.Wrapper.Operate | src/ESPressio_Synchronization.hpp:184-186 | a whole operation is a run of the system on the published primitive; undisturbed it completes exactly when the one primitive that callers believe to use can answer so, and leaves that primitive in the state that follows |
| Signals.DeferredBinarySignal.constructor | src/ESPressio_Synchronization.hpp:286-287 | a new signal is the initial state of the system |
| Signals.DeferredBinarySignal.LoadForInterrupt | src/ESPressio_Synchronization.hpp:299-302 | one load decides between the published signal and Unavailable |
| Signals.DeferredBinarySignal.LoadResolved | src/ESPressio_Synchronization.hpp:266-269 | the fast path, or the call of lock |
| Signals.DeferredBinarySignal.Recheck | src/ESPressio_Synchronization.hpp:270-271 | the re-check is its step of the system |
| Signals.DeferredBinarySignal.ReadSlot | src/ESPressio_Synchronization.hpp:273-274 | without a provider the attempt ends with null |
| Signals.DeferredBinarySignal.CreateSignal | src/ESPressio_Synchronization.hpp:276-278 | a null result publishes nothing; a throw ends the program |
| Signals.DeferredBinarySignal.Publish | src/ESPressio_Synchronization.hpp:279 | the store is its step of the system |
| Signals.DeferredBinarySignal.StepMutex | src/ESPressio_Synchronization.hpp:269 | a step inside the inner lock or unlock, and where the thread goes when that call returns |
| Signals.DeferredBinarySignal.Use | src/ESPressio_Synchronization.hpp:290-319 | the resolved signal answers Timeout exactly to a Wait while it is unset and Succeeded otherwise; giving sets it, a successful Wait and Reset unset it |
| Signals.DeferredBinarySignal.FinishCall | src/ESPressio_Synchronization.hpp:269 | a whole inner lock or unlock, interleaved with others, is a run of the system; a thread that is alone finishes it within nine steps |
| Signals.DeferredBinarySignal.Attempt | src/ESPressio_Synchronization.hpp:270-281 | the section under the lock is a run of the system and ends in unlock |
| Signals.DeferredBinarySignal.Create | src/ESPressio_Synchronization.hpp:276-280 | factory call and publication are a run of the system |
| Signals.DeferredBinarySignal.ResolveLocked | src/ESPressio_Synchronization.hpp:269-282 | lock, attempt and unlock, interleaved with others, are a run of the system that ends at the signal or at Unavailable |
| Signals.DeferredBinarySignal.Resolve | src/ESPressio_Synchronization.hpp:265-282 | is a run of the system; what it finds is the published, live signal, and it finds none if and only if its own attempt failed, never when one was published before |
| Signals.DeferredBinarySignal.Answer | src/ESPressio_Synchronization.hpp:291-294 | without a signal the answer is Unavailable; otherwise it is the result asked for exactly when the signal, as it is then, owes that result |
| Signals.DeferredBinarySignal.Operate | src/ESPressio_Synchronization.hpp:290-319 | a whole Give, Wait or Reset is a run of the system; it answers Unavailable if and only if its own attempt failed; any other answer is its last step, on the published signal, as that owes it; uninterrupted, the answer is told from the state at the call |
| Signals.DeferredBinarySignal.GiveFromInterruptContext | src/ESPressio_Synchronization.hpp:298-303 | sets the published signal, or answers Unavailable and changes nothing; never the inner mutex |
| Signals.CreateBinarySignal | src/ESPressio_Synchronization.hpp:323-331 | never null: the provider's signal, a fresh deferred one, or the provider's exception |
| MemoryModel.GuardIsExact | src/ESPressio_Memory.hpp:152-154 | the guard of allocate refuses exactly the counts whose byte count would wrap |
| Containers.HeapLedger | src/ESPressio_Memory.hpp:134-177 | over every sequence of container operations and installations, each block goes back to its provider with the same pointer, byte count, alignment and policy, and the live blocks are those that containers hold, each once |
| Containers.NothingLeaks | tests/memory_policy_test.cpp:130-142 | when all containers are gone no provider has a live block |
| Containers.CapturedAtFirstAllocation | tests/memory_policy_test.cpp:61-75 | a default-constructed container binds to the provider installed at its first allocation, whatever came before |
| Containers.SlotIsLastInstalled | src/ESPressio_Memory.hpp:97-111 | in every run a first allocation finds the provider of the last installation |
| ContainerCommands.GrowLeaves | src/ESPressio_Memory.hpp:151-155 | too large a count leaves all as it is; otherwise the container binds to its effective provider, which records the unwrapped byte count |
| ContainerCommands.ShrinkLeaves | src/ESPressio_Memory.hpp:157-161 | the block leaves the container and the ledger that it came from |
| ContainerCommands.CopyConstructLeaves | src/ESPressio_Memory.hpp:148 | the copy has the source's binding and no storage |
| ContainerCommands.MoveConstructLeaves | src/ESPressio_Memory.hpp:148 | binding and storage pass to the new container; the source has no storage left |
| ContainerCommands.CopyAssignFails | src/ESPressio_Memory.hpp:151-155 | copy assignment without new storage keeps the old one |
| ContainerCommands.CopyAssignLeaves | src/ESPressio_Memory.hpp:137-141 | the destination keeps its own binding, holds only the new block, and its old blocks are gone from their ledger |
| ContainerCommands.MoveAssignLeaves | src/ESPressio_Memory.hpp:139 | the destination takes binding and storage over, its old blocks are gone from their ledger, and the source has no storage left |
| ContainerCommands.SwapLeaves | src/ESPressio_Memory.hpp:140 | binding and storage change places together |
| ContainerCommands.DestroyLeaves | src/ESPressio_Memory.hpp:157-161 | exactly what the container held is gone from the ledgers |
| ContainerCommands.ConstructLeaves | src/ESPressio_Memory.hpp:144-146 | a new container has the binding it was given, or none, and no storage |
| ContainerCommands.InstallLeaves | src/ESPressio_Memory.hpp:105-108 | an installation changes the slot and nothing else |
| ContainerCommands.EnabledExactly | src/ESPressio_Memory.hpp:134-177 | which commands are possible in which state |
| Containers.AllocatedHolds | src/ESPressio_Memory.hpp:151-155 | allocate adds one block to the container and to the provider that the allocator is then bound to |
| Containers.DeallocatedHolds | src/ESPressio_Memory.hpp:157-161 | deallocate removes the blocks from the provider that they came from, and nothing else |
| Containers.HandedOver | src/ESPressio_Memory.hpp:139-140 | storage that changes hands together with its allocator keeps every pairing |
| Pairing.PairsExactlyWhenBound | src/ESPressio_Memory.hpp:148-173 | a block returns to its provider through an allocator in every continuation if and only if that allocator carries the provider's binding |
| Pairing.CopyPairsInEveryRun | src/ESPressio_Memory.hpp:148-173 | in every run after a copy, a block that source or copy allocated is freed rightly through the other if and only if the source was bound when copied, or the slot at the first allocation through the one equals the slot at the first allocation through the other, or at the free while the other has made none |
| Pairing.UnboundPairs | src/ESPressio_Memory.hpp:151-173 | the same condition for any two allocators that are unbound in some state, however they came to be copied |
| Pairing.BoundAtFirstAllocation | src/ESPressio_Memory.hpp:170-173 | in every run an allocator that starts unbound is bound to the provider installed at its first allocation |
| Pairing.SlotIsLastInstalled | src/ESPressio_Memory.hpp:97-111 | an unbound allocator finds the provider of the last installation |
| Pairing.ConstructionBinds | src/ESPressio_Memory.hpp:144-148 | a default-constructed allocator is unbound, one for an explicit provider is bound to it, and a copy has the source's binding |
| Pairing.AllocationBinds | src/ESPressio_Memory.hpp:151-155 | every allocator can allocate, from its own provider, or from the installed one, to which it is bound from then on |
| Pairing.CopyPairs | src/ESPressio_Memory.hpp:148-173 | with installations alone around the source's first allocation: the free through the copy is right if and only if the source was bound when copied, or the slot at the free equals the slot at that allocation |
| Pairing.UnboundCopyMispairs | src/ESPressio_Memory.hpp:144-161 | a concrete run in which the unbound copy frees to the wrong provider |
| Pairing.FirstAllocationsDecide | src/ESPressio_Memory.hpp:151-173 | two concrete runs: equal slots at the block's allocation and at its free are neither sufficient nor necessary once source or copy allocated before |
| Pairing.MakeSharedPairs | src/ESPressio_Memory.hpp:248-251 | MakeShared's unbound allocator: pairing is permanent if and only if the control block keeps a copy of the allocator that allocated, and otherwise holds exactly while the slot is what it was |
| Pairing.ProviderIsFixedExactlyWhenBound | src/ESPressio_Memory.hpp:163-165 | the effective provider is the same in every continuation if and only if IsProviderBound holds |
| Pairing.SameIsEquivalence | src/ESPressio_Memory.hpp:167 | in each fixed slot state == is reflexive, symmetric and transitive |
| Pairing.EqualFreesRight | src/ESPressio_Memory.hpp:157-168 | at any later moment, b frees a's block to its provider if and only if a == b |
| Pairing.EqualitySurvives | src/ESPressio_Memory.hpp:163-168 | the answer of == survives every installation if and only if both are bound or neither is |
| Pairing.TornComparison | src/ESPressio_Memory.hpp:163-167 | a slot change between the two reads of a comparison matters only when both sides are unbound |
| Pairing.BindingsLast | src/ESPressio_Memory.hpp:170-173 | a binding once made never changes |
| SlotExchange.ExchangesConserve | src/ESPressio_Memory.hpp:105-108 | over any interleaving of SetProvider calls, initial and installed providers are as a multiset the returned ones and the current one |
| SlotExchange.ScopesRestore | src/ESPressio_Memory.hpp:105-108 | any tree of well-nested save and restore leaves the slot as it found it |
| SlotExchange.InnerScopesSeeTheirOwn | src/ESPressio_Memory.hpp:97-108 | after any number of inner scopes a scope finds its own provider again |
| Accounts.MakeKeeps | src/ESPressio_Memory.hpp:227-238 | a construction is kept under its class; one that throws leaves the ledger as it was |
| Accounts.DestroyKeeps | src/ESPressio_PolymorphicMemory.hpp:52-66 | the account stays well kept if and only if the object is destroyed where it is and as what it is |
| Accounts.MadeThenDestroyed | tests/memory_policy_test.cpp:103-128 | making an object and destroying it leaves its provider as it was, but for one call of each kind |
| Owners.Conservation | src/ESPressio_PolymorphicMemory.hpp:14-120 | over every run of makes (which may throw), moves, swaps, resets and installations, for mixed classes: live blocks are exactly those that owners hold, each once; every object is destroyed once, as its class, at its own address, and its block returns to the captured provider |
| Owners.NothingLeaks | tests/memory_policy_test.cpp:119-142 | when no owner holds anything, allocations equal deallocations for each provider and nothing is live |
| Owners.CapturedWhenMade | src/ESPressio_Memory.hpp:229-233 | whatever an owner holds, through any moves, it holds with the provider that was installed when that object was made, its destroy function and its base pointer |
| Owners.SlotIsLastInstalled | src/ESPressio_Memory.hpp:97-111 | in every run a construction captures the provider of the last installation |
| OwnerCommands.HeldAsAllocated | src/ESPressio_PolymorphicMemory.hpp:60-65 | in every run a held object lies at its derived address in a block of its class's own size, alignment and policy |
| OwnerCommands.MakeLeaves | src/ESPressio_PolymorphicMemory.hpp:92-119 | what a construction takes and yields when it succeeds, when the constructor throws and when the provider does |
| OwnerCommands.ResetLeaves | src/ESPressio_PolymorphicMemory.hpp:29-34 | the object and its block are gone, the owner is null, the deleter stays |
| OwnerCommands.DropLeaves | src/ESPressio_PolymorphicMemory.hpp:29-34 | the same at the owner's end |
| OwnerCommands.MoveAssignLeaves | src/ESPressio_PolymorphicMemory.hpp:47-48 | the old object goes, in its own account; pointer, provider and class are taken over; the source is null |
| OwnerCommands.HandOversLeave | src/ESPressio_PolymorphicMemory.hpp:47-48 | move construction and swap pass pointer, provider and class on and touch no account |
| OwnerCommands.EmptyLeaves | src/ESPressio_PolymorphicMemory.hpp:20 | a null owner takes nothing from any provider |
| OwnerCommands.EnabledExactly | src/ESPressio_PolymorphicMemory.hpp:14-120 | which commands are possible in which state |
| Owners.ClearedAccount | src/ESPressio_PolymorphicMemory.hpp:29-34 | resetting an owner destroys its one object in the account it came from and touches no other account |
| Owners.MadeHolds | src/ESPressio_PolymorphicMemory.hpp:92-119 | a construction that succeeds adds one owner, one object and one block; one that throws adds none |
| Owners.HandedOver | src/ESPressio_PolymorphicMemory.hpp:47-48 | owners that change hands take pointer, provider and destroy function along together |
| MemoryObjects.Provider.Allocate | src/ESPressio_Memory.hpp:154 | one new live block as requested, or an exception and no change |
| MemoryObjects.Provider.Deallocate | src/ESPressio_Memory.hpp:160 | removes the block, and records misuse unless it is live exactly as presented |
| MemoryObjects.Slot.SetProvider | src/ESPressio_Memory.hpp:105-108 | returns what was installed; null installs the default |
| MemoryObjects.Slot.ResetProvider | src/ESPressio_Memory.hpp:111 | the default is installed |
| MemoryObjects.Allocator.Default | src/ESPressio_Memory.hpp:144 | a default-constructed allocator is unbound |
| MemoryObjects.Allocator.Bound | src/ESPressio_Memory.hpp:146 | an allocator for an explicit provider is bound to it |
| MemoryObjects.Allocator.Copy | src/ESPressio_Memory.hpp:148 | a copy or rebind takes the binding as it is and does not bind |
| MemoryObjects.Allocator.BindProvider | src/ESPressio_Memory.hpp:170-173 | binds an unbound allocator to the installed provider and leaves a bound one alone |
| MemoryObjects.Allocator.Equals | src/ESPressio_Memory.hpp:167 | holds exactly when both have the same effective provider, so that a block of a bound one is freed rightly through the other |
| MemoryObjects.Allocator.Allocate | src/ESPressio_Memory.hpp:151-155 | refuses exactly the wrapping counts, without binding; otherwise binds, and takes the block with the unwrapped byte count from that provider |
| MemoryObjects.Allocator.Deallocate | src/ESPressio_Memory.hpp:157-161 | nothing for null; otherwise the block goes to the effective provider, and the allocator does not bind |
| MemoryObjects.Owner.Delete | src/ESPressio_PolymorphicMemory.hpp:29-34 | nothing for null or without provider or destroy function; otherwise the object is destroyed at its derived address |
| MemoryObjects.Owner.Reset | src/ESPressio_PolymorphicMemory.hpp:47-48 | the object is destroyed without misuse, the owner is null, the deleter stays |
| MemoryObjects.Owner.MoveFrom | src/ESPressio_PolymorphicMemory.hpp:47-48 | the old object goes through the old deleter, then pointer and deleter are taken over together; self-move keeps all |
| MemoryObjects.Owner.SwapWith | src/ESPressio_PolymorphicMemory.hpp:47-48 | the two owners change places, deleters included, and nothing is destroyed |
| MemoryObjects.DestroyPolymorphicObject | src/ESPressio_PolymorphicMemory.hpp:52-66 | undoes the base adjustment and destroys; it is no misuse if and only if the object is of the derived class, in a block of exactly that class's size, alignment and policy |
| MemoryObjects.MakePolymorphicUnique | src/ESPressio_PolymorphicMemory.hpp:82-120 | captures the installed provider, which records a block of the class's size, alignment and policy; a throwing constructor leaves its ledger as it was; a success is a valid owner of the object |

## Left out

- Wrappers.Wrapper.EnterGuard: the source's loop has no bound; here it ends with the schedule of the other threads when the flag never goes down, and `Progress` says why it goes down.
- Wrappers.Wrapper.Operate: a blocking call waits as long as the schedule says; that the primitive is released at all is up to its users.
- Signals.DeferredBinarySignal.Operate: as for the wrapper, it is unfinished when its schedule ends first; timeouts of `Wait` are a choice between success and `Timeout`, without real time.
- Containers.HeapLedger: containers whose operations allocate through temporary rebound allocators (the bucket arrays of hashed containers) are not containers of this machine; for those `Pairing.PairsExactlyWhenBound`, `Pairing.UnboundPairs` and `Pairing.CopyPairsInEveryRun` give the condition.
- MemoryObjects.Allocator.Copy: value semantics of the allocator inside a container are in `Containers` and `Pairing`; the class and those machines share the functions of `MemoryModel`, and no container class is built over it.
- WeakMemory.OrdersAreExact: no store takes effect before an earlier load of its thread, also where an order is weakened; `DeferredBinarySignal` is modelled under sequential consistency only.
- How standard and platform primitives exclude, and how a vector or a shared pointer lays out its storage, is taken from their specifications (`Locks`, `Containers`, `Pairing.MakeSharedPairs`); a copy assignment that reuses storage changes no ledger and is no command.
- Misuse has no step: unlocking without holding, destroying an object in use, raw `release` and `reset(pointer)` of owners, a provider that dies before its captors, an `Allocate` that answers null, self-move of containers.
- A factory that never returns or that re-enters the wrapper it is called for.
- `try_lock` may be refused at any time, as the standard allows; which refusals an implementation gives is not modelled.
- The other provider slots (execution, clock, GPIO, entropy, queue), `IMessageQueue`, byte streams, `ProcessorAffinity` and the native codes of `PlatformResult`: interfaces and single loads or stores.
- `ConfigureAutomaticExternalPreference` and the other hints of `IMemoryProvider`: forwarding calls.
