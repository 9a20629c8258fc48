# The lock protocols of nova::sync

nova::sync builds mutexes, spinlocks, events and a semaphore from one or two atomic words each, and
from a kernel object that lets a thread sleep: an eventfd, a futex or a kqueue user event. This project
models those protocols instruction by instruction, for any finite set of threads and any interleaving,
and proves what the words, the sleepers and the history keep in every run.

## How it is modelled

Each primitive has a machine, an object, and a module about its callers.

- A machine (`EventfdMutex`, `ParkingMutex`, `NativeEvent`, `TicketMutex`, `SharedSpinlock`, `ParkingEvent`,
  `ParkingSemaphore`, `RecursiveSpinlock`): the state as a value, the program counters and locals of all
  threads, a total `Step`, the invariant, and the theorems about every run (`Runs.Run`). One event executes
  one atomic instruction of one thread: a load, a compare-exchange, a fetch-and-modify, one kernel call.
  Locals such as `expected`, `s` and `my_slot` are copies that may be out of date. The loops of the code are
  cycles of program counters, because other threads run between any two of their instructions.
- An object (`FastEventfdMutexes`, `ParkingMutexObject`, and so on): a class with the atomic word and the
  kernel object as fields. Each source function is a method that executes its next instruction on those
  fields through the indivisible operations of `Atomics`, and is proved to do what the machine's
  instruction function says. A futex has no object beside its word: its sleepers are the threads whose
  program counter says that they are parked. `Schedule` is a loop over an arbitrary interleaving and keeps
  the invariant.

What callers get is stated beside each machine (`EventfdMutexCalls`, `ParkingMutexCalls`, and so on) with the
observer of `Calls`: a ledger of the calls begun, the calls that returned with or without what they asked for,
and the reasons to fail that each call met. The observer looks only at where the threads are. `CallsReturn` is the
law over all runs; the lemmas below it say what each operation does when it is left alone.

`Futex` has the waiting functions of the Linux futex layer as loops, and `FutexParkingMutex` puts them under
the parking mutex and proves that the single parking step of `ParkingMutex` is what they amount to.

Counts over threads (`ThreadMaps.Count`) state the accounting: how many are registered, hold, sleep or
have yet to write a wake-up. Lock words are handled as their parts (waiters and lock bit; readers, pending
and locked); the `BitsAgree` lemmas say that each operation on the parts is the code's arithmetic on the
32-bit word. Counters that wrap in the code wrap here. Fields called history in a comment record the past;
no branch depends on them, except that a thread calls `unlock` only when it holds the lock.

What is assumed:

- Atomic operations are sequentially consistent; the `memory_order` arguments are dropped.
- A weak compare-exchange may fail for no reason. A spin phase ends, and a timeout fires, at any time.
- The eventfd is a counter that a read lowers by one, and `poll` returns when it is not zero, on a timeout,
  or for no reason. A futex wait puts the caller to sleep exactly if the word still has the expected value;
  a sleeper may also return for no reason. The user event with EV_CLEAR is one bit, and one blocked thread
  receives it. Each `async_wait` completes once.
- The number of threads is bounded as the code's words need it: below 2^31 for the eventfd and parking
  mutexes and the semaphore, below 2^31 - 1 for the parking event, below 2^32 for the ticket mutex and the
  native event, below 2^30 for the shared spinlock.
- The native event and the semaphore do not pass the largest `int32` (`NoOverflow`), and fewer than 2^32
  tickets are issued between the load and the compare-exchange of one `try_lock` (`NoAlias`).
- A thread unlocks what it holds, and a timed wait of no time at all is the matching try operation.

## Where the code and its documentation differ

Each of these promises fails in a run given below, and a theorem says exactly when it holds.

- `async_acquire` registers after its failed `try_lock` and ignores the word `add_async_waiter` returns
  (include/nova/sync/mutex/support/boost_asio_support.hpp:367-382), although the comment there says that
  `unlock` will trigger the event. If the lock was released in between, nothing will
  (`EventfdMutex.AsyncWaiterCanBeStranded`). Every registered waiter has a wake-up due whenever the lock is
  free, throughout a run, exactly if each operation of the run registers while the lock is held or while a
  wake-up is due anyway (`EventfdMutex.EveryoneServedExactly`); the next time the lock is held makes good an
  operation that came too late.
- `parking_auto_reset_event` promises one token per signal. A timed wait that expires can let another waiter
  through without any signal (`ParkingEvent.TimeoutCanOverDeliver`), and can leave a waiter asleep that was
  signalled (`ParkingEvent.TimeoutCanStrandSleeper`). A timeout never leads to more completed waits than
  tokens exactly if, at every level above the word and up to its own slot, more threads wait in slots from
  that level on than the level is below zero (`ParkingEvent.UndoSafeExactly`). As long as the
  word does not wrap around, sleepers are notified throughout exactly if each timeout finds a notify coming or
  no sleeper in the slot at the word (`ParkingEvent.SleepersNotifiedExactly`).
- `parking_semaphore::acquire` promises to block until a token is available. A released token can stay
  unused for ever, when it does not suffice for all blocked acquirers (`ParkingSemaphore.ReleasedTokenCanBeStuck`)
  and even when it does (`ParkingSemaphore.LastSleeperCanBeStuck`). With no other call under way a blocked
  acquirer can get through exactly if the tokens suffice for all blocked acquirers and it is awake or a notify
  is coming (`ParkingSemaphore.GetsThroughExactly`); and the notifies reach every sleeper throughout a run
  exactly if no release takes the word up from -1 while more threads sleep than the notifies, its own
  included, will wake (`ParkingSemaphore.SleepersCoveredExactly`).
- The ticket mutex is first come, first served, and exclusive, throughout a run exactly if the serving word is
  unchanged between the load and each successful compare-exchange of `try_lock` (`TicketMutex.OrderKeptExactly`); a run in which it goes
  once around 2^32 puts two threads inside (`TicketMutex.StaleTryLockBreaksExclusion`).
- The native event's header says that at most one NOTE_TRIGGER is in flight at any time
  (include/nova/sync/event/native_auto_reset_event.hpp:107). Two signals around one `try_wait` put two in
  flight (`NativeEvent.TwoTriggersInFlight`). There is at most one throughout a run exactly if no signal finds
  the counter at zero, and no chain check finds other waiters, while one is in flight
  (`NativeEvent.OneInFlightExactly`). The other theorems do not use it.

## Model

| member | source | states |
|---|---|---|
| EventfdMutex.NeverLosesWakeUp | source/nova/sync/mutex/eventfd_mutex.cpp:79-162 | in every run, if the lock bit is clear and a waiter is registered, a token is in the eventfd, or an unlocker is about to write one, or a registered waiter is about to reload the word or to try an unlocked value; pollers and acquirers that consume tokens, barging and timeouts included. For an asynchronous waiter that registered on a free word it holds if since the lock was last held none registered too late |
| EventfdMutex.FreeLockGetsTaken | source/nova/sync/mutex/eventfd_mutex.cpp:95-134 | from every reachable state with the lock free and a thread blocked in poll, at most six instructions of waiters and one pending unlocker give the lock to a waiter |
| EventfdMutex.MutualExclusion | include/nova/sync/mutex/eventfd_mutex.hpp:124-227 | the 32-bit word is twice the live registrations plus one if held, and at most one thread holds |
| EventfdMutex.StepKeepsInv | source/nova/sync/mutex/eventfd_mutex.cpp:79-162 | every instruction of every thread keeps accounting, wake-ups, locals and handler bookkeeping together |
| EventfdMutex.HandlersRunOnce | include/nova/sync/mutex/support/boost_asio_support.hpp:58-109 | each asynchronous operation runs its handler exactly once when its last wait completes, and with the lock exactly as often as it took the lock |
| EventfdMutex.CancelledNeverTakesLock | include/nova/sync/mutex/support/boost_asio_support.hpp:73-94 | an operation cancelled while it waits takes the lock in no run before its handler has run |
| EventfdMutex.StepServesExactly | include/nova/sync/mutex/support/boost_asio_support.hpp:367-382 | while every registered waiter is served, an instruction leaves them so if and only if it is not the registration of an operation on a free word with no wake-up due |
| EventfdMutex.EveryoneServedExactly | include/nova/sync/mutex/support/boost_asio_support.hpp:367-382 | from any reachable state in which the lock is held or everyone is served, every registered waiter has a wake-up due whenever the lock is free, throughout a run, if and only if no operation of the run registers that way |
| EventfdMutex.AsyncWaiterCanBeStranded | include/nova/sync/mutex/support/boost_asio_support.hpp:367-382 | a run after which the lock is free, an operation is registered, and no ordinary instruction changes anything |
| EventfdMutexCalls.CallsReturn | include/nova/sync/mutex/eventfd_mutex.hpp:124-210 | in every run, per thread and operation, each call begun has returned once or is under way at a place of its own; lock never returned without the lock, try_lock only after it read a locked word, a timed lock only after a timeout, and an asynchronous operation only after a cancel or a failed wait; no other way leads into the critical section |
| EventfdMutexCalls.CallOnFreeMutexTakesIt | include/nova/sync/mutex/eventfd_mutex.hpp:124-210 | every operation called on a free mutex and left alone returns with the lock by at most four instructions, other registrations unchanged |
| EventfdMutexCalls.ReadyOperationTakesLock | include/nova/sync/mutex/support/boost_asio_support.hpp:79-101 | an operation whose wait completed, neither failed nor cancelled, takes a free lock and hands it to its handler by at most six instructions |
| EventfdMutexCalls.TokenLetsOperationIn | include/nova/sync/mutex/support/boost_asio_support.hpp:79-101 | a token completes the wait of an operation, which then does so |
| EventfdMutexCalls.ToldOperationReturns | include/nova/sync/mutex/support/boost_asio_support.hpp:82-94 | an operation whose wait failed, or that was cancelled, takes its registration back and runs its handler without the lock |
| EventfdMutexCalls.TimeoutReturns | include/nova/sync/mutex/eventfd_mutex.hpp:199-202 | a timed lock whose poll timed out on a held mutex takes its registration back and returns without the lock |
| EventfdMutexCalls.UnlockFrees | source/nova/sync/mutex/eventfd_mutex.cpp:79-87 | unlock frees the lock, keeps the registrations and writes one token if and only if there are any |
| EventfdMutexCalls.TokensAccounted | source/nova/sync/mutex/eventfd_mutex.cpp:79-161 | over every run the tokens there, those drained and those about to be written are as many as the unlocks that found a waiter, and every drain takes one if it can |
| EventfdMutexCalls.SpinsBeforeRegistering | source/nova/sync/mutex/eventfd_mutex.cpp:97-110 | a call that spins registers only when its spin phase is over |
| EventfdMutexCalls.SpinEndsInPoll | source/nova/sync/mutex/eventfd_mutex.cpp:97-129 | and then does, and polls, while the mutex is held |
| EventfdMutexCalls.PollWaitsWhileEmpty | source/nova/sync/mutex/eventfd_mutex.cpp:124-129 | a poll waits if and only if the eventfd is empty |
| FastEventfdMutexes.FastEventfdMutex.WaitLoop | source/nova/sync/mutex/eventfd_mutex.cpp:110-161 | the registered wait loop on the word and the eventfd does what the machine's instruction says and touches nothing else |
| FastEventfdMutexes.FastEventfdMutex.TryLockOrUnlock | include/nova/sync/mutex/eventfd_mutex.hpp:134-145 | the same for the try_lock loop and the two instructions of unlock |
| FastEventfdMutexes.FastEventfdMutex.AsyncOperation | include/nova/sync/mutex/support/async_waiter_guard.hpp:54-121 | the same for the guard and the asynchronous operation |
| FastEventfdMutexes.FastEventfdMutex.Schedule | source/nova/sync/mutex/eventfd_mutex.cpp:79-162 | any interleaving executed on the object is the machine's run and keeps the invariant |
| LockWords.BitsAgree | source/nova/sync/mutex/parking_mutex.cpp:20-40 | adding and removing a waiter, taking and freeing the lock bit and the tests of the code are the same on the parts as on the 32-bit word |
| ParkingMutex.NeverStrandsSleepers | include/nova/sync/mutex/parking_mutex.hpp:115-178 | in every run of all four variants, if the lock is free while a thread is registered, some registered thread is awake or a notify is coming; spurious wakes, barging and timeouts included |
| ParkingMutex.FreeLockGetsTaken | source/nova/sync/mutex/parking_mutex.cpp:16-40 | from every such reachable state with a sleeper, at most four instructions of one notifier and one waiter give it the lock and take its registration back |
| ParkingMutex.RefinesAbstractLock | source/nova/sync/mutex/parking_mutex.cpp:16-137 | every run is a run of a lock with an optional owner, acquired when free and released by its owner; the word is twice the registered plus one if held |
| ParkingMutex.ActionsFlipTheLockBit | source/nova/sync/mutex/parking_mutex.cpp:16-137 | the steps that acquire or release are exactly those that flip the lock bit; all others are stutters |
| ParkingMutexCalls.CallsReturn | include/nova/sync/mutex/parking_mutex.hpp:32-178 | in every run of all four variants each call begun has returned once or is under way at a place of its own; lock never returned without the lock, try_lock only where the word was not zero, a timed lock only after a timeout; the acquisitions of the abstract lock are as many as the calls that returned with it |
| ParkingMutexCalls.AcquiresAsItReturns | include/nova/sync/mutex/parking_mutex.hpp:32-178 | the abstract lock is acquired by the very step in which a call returns with the lock, and by no other |
| ParkingMutexCalls.CallOnFreeMutexTakesIt | include/nova/sync/mutex/parking_mutex.hpp:32-178 | lock and the timed operation called on a free mutex and left alone return with the lock by at most four instructions, whoever is registered, and try_lock does if nobody is |
| ParkingMutexCalls.TryLockNeedsZero | include/nova/sync/mutex/parking_mutex.hpp:40-44 | try_lock takes the lock if and only if the whole word is zero, so it fails on a free mutex with registered waiters |
| ParkingMutexCalls.LockOnHeldMutexSleeps | source/nova/sync/mutex/parking_mutex.cpp:16-40 | a lock on a held mutex, done spinning or not made to spin, registers and sleeps |
| ParkingMutexCalls.TimeoutReturns | include/nova/sync/mutex/parking_mutex.hpp:159-175 | a timed lock that timed out on a held mutex takes its registration back and returns without the lock |
| ParkingMutexCalls.GivesUpForGood | include/nova/sync/mutex/parking_mutex.hpp:162-175 | one that gives up does not wait again, and takes the lock if it finds it free |
| ParkingMutexCalls.UnlockFrees | include/nova/sync/mutex/parking_mutex.hpp:47-56 | unlock frees the lock, keeps the registrations and goes on to wake one sleeper if and only if there are any |
| ParkingMutexCalls.SleepsWhileUnchanged | source/nova/sync/mutex/parking_mutex.cpp:24-39 | a waiter that found the lock held sleeps if and only if the word is still what it loaded |
| ParkingMutexCalls.SpinsBeforeRegistering | source/nova/sync/mutex/parking_mutex.cpp:48-66 | a class with a spin phase registers an untimed lock only when that is over |
| ParkingMutexObject.Mutex.WaitLoop | include/nova/sync/mutex/parking_mutex.hpp:144-178 | the wait loop on the word, with its timeout path, does what the machine's instruction says |
| ParkingMutexObject.Mutex.Schedule | include/nova/sync/mutex/parking_mutex.hpp:32-178 | any interleaving executed on the object is the machine's run and keeps the invariant |
| Futex.AtomicWait | source/nova/sync/futex/atomic_wait.cpp:124-169 | the spin, yield and system-call loops, for any words and kernel results they meet, do exactly the loads and calls of the specification |
| Futex.AtomicWaitUntil | source/nova/sync/futex/atomic_wait.cpp:203-262 | the same for both deadline overloads |
| Futex.AtomicWaitFor | source/nova/sync/futex/atomic_wait.cpp:171-201 | the same for a duration, and one load for none |
| Futex.WaitReturnsAfterChange | source/nova/sync/futex/atomic_wait.cpp:124-169 | the untimed wait returns from a load that differs, and saw none before, if and only if the kernel gave no result but 0, EAGAIN and EINTR |
| Futex.TimedWaitTellsTheTruth | source/nova/sync/futex/atomic_wait.cpp:171-262 | a timed wait returns true if and only if its last load differs, and false only after a last load that does not, following a timeout or an error |
| Futex.ReturnsOnceChanged | source/nova/sync/futex/atomic_wait.cpp:151-168 | once the word differs, a wait that the kernel lets go returns within two instructions |
| FutexParkingMutex.WaitsRefineParking | source/nova/sync/futex/atomic_wait.cpp:124-262 | every run of the mutex over these loops is, step by step, a run in which waiting is one parking step, with the same words, parked exactly while asleep in the kernel |
| FutexParkingMutex.NeverStrandsSleepers | source/nova/sync/futex/atomic_wait.cpp:264-267 | so with the real waits, too, a free lock with a registered waiter has one that is not asleep or a wake that is coming |
| FutexParkingMutex.MutualExclusion | source/nova/sync/mutex/parking_mutex.cpp:16-137 | with the real waits at most one thread holds, and the word counts the registered |
| FutexParkingMutex.WaitIsFutexStep | source/nova/sync/futex/atomic_wait.cpp:124-262 | each instruction inside a wait that does not fall asleep is the next one of the loops of Futex on the word as an int32 |
| FutexParkingMutex.FreeLockGetsTaken | source/nova/sync/futex/atomic_wait.cpp:124-262 | from every reachable state with the lock free and a thread asleep in the kernel, at most four instructions of one notifier and one waiter, its wait included, give it the lock and take its registration back |
| FutexParkingMutexCalls.CallsReturn | source/nova/sync/mutex/parking_mutex.cpp:16-137 | over the real waits, too, each call begun has returned once or is under way at a place of its own; lock never returned without the lock, and other calls only after a word that is not zero or a timeout |
| NativeEvent.NeverLosesWakeUp | source/nova/sync/event/native_auto_reset_event.cpp:112-255 | in every run, if tokens remain while a thread is blocked in kevent, the trigger bit is set, or a thread is about to set it, or an awake counted waiter has yet to do its try_wait or chain check |
| NativeEvent.TokenGetsTaken | source/nova/sync/event/native_auto_reset_event.cpp:175-205 | from every such reachable state at most six instructions, without a further signal, give a token to a counted waiter |
| NativeEvent.TokensConserved | source/nova/sync/event/native_auto_reset_event.cpp:112-205 | the token counter is the initial token plus created minus consumed, and the waiter counter is the number of threads between its two updates |
| NativeEvent.OneInFlightExactly | include/nova/sync/event/native_auto_reset_event.hpp:107 | at most one trigger is set or about to be set throughout a run if and only if no signal that finds no token, and no chain check that finds other waiters, runs while one is |
| NativeEvent.TwoTriggersInFlight | source/nova/sync/event/native_auto_reset_event.cpp:112-130 | a run after which two signallers are about to set the trigger |
| NativeEventCalls.CallsReturn | source/nova/sync/event/native_auto_reset_event.cpp:112-255 | in every run each call begun has returned once or is under way at a place of its own; wait never returned without a token, a signal that added none found no waiter, a try_wait that took none found none, a timed wait that took none timed out or found none when woken; tokens created and consumed are those of the calls that returned with one and of those about to |
| NativeEventCalls.SignalCountsForWaiter | source/nova/sync/event/native_auto_reset_event.cpp:112-123 | a signal that found a counted waiter adds a token by its next instruction, whatever the counter then is |
| NativeEventCalls.UnaddedSignalFoundToken | source/nova/sync/event/native_auto_reset_event.cpp:113-118 | a signal that adds nothing found a token |
| NativeEventCalls.SignalAlone | source/nova/sync/event/native_auto_reset_event.cpp:111-133 | alone, a signal adds one unless it finds a token and no waiter, and triggers if and only if the counter was zero |
| NativeEventCalls.WaitWithToken | source/nova/sync/event/native_auto_reset_event.cpp:147-178 | any wait alone with a token there takes it by two instructions |
| NativeEventCalls.WaitWithoutToken | source/nova/sync/event/native_auto_reset_event.cpp:175-190 | without one try_wait returns at once, and the others count themselves and block |
| NativeEventCalls.KeventTakesTrigger | source/nova/sync/event/native_auto_reset_event.cpp:188-194 | a blocked wait is let go by the trigger, which it clears, by a timeout, or untimed for no reason |
| NativeEventCalls.TookReturns | source/nova/sync/event/native_auto_reset_event.cpp:197-205 | a wait that has its token returns, takes itself off the count, and triggers if and only if tokens remain while others are counted |
| NativeEventCalls.WokenTooLateReturns | source/nova/sync/event/native_auto_reset_event.cpp:239-255 | a timed wait that was woken and finds no token returns without one |
| NativeEventCalls.WokenTooLateBlocks | source/nova/sync/event/native_auto_reset_event.cpp:182-195 | an untimed one blocks again |
| NativeEventCalls.TimeoutReturns | source/nova/sync/event/native_auto_reset_event.cpp:239-255 | a timed wait whose time is up takes itself off the count and returns without a token |
| NativeEventObject.AutoResetEvent.Waiting | source/nova/sync/event/native_auto_reset_event.cpp:147-255 | wait, try_wait and try_wait_for on the counters and the user event do what the machine's instruction says |
| NativeEventObject.AutoResetEvent.Schedule | source/nova/sync/event/native_auto_reset_event.cpp:97-255 | any interleaving without overflow executed on the object is the machine's run and keeps the invariant |
| TicketMutex.StrictlyFifo | include/nova/sync/mutex/ticket_mutex.hpp:49-77 | over any run the critical section is entered by tickets 0, 1, 2 and so on without gap or repeat, successful try_lock included, one thread at a time, across the wrap of both words |
| TicketMutex.EntersInTurn | include/nova/sync/mutex/ticket_mutex.hpp:49-57 | a thread whose ticket word equals the serving word really has the next ticket, and nobody is inside |
| TicketMutex.TryLockSafeIfServingUnchanged | include/nova/sync/mutex/ticket_mutex.hpp:61-69 | a successful try_lock keeps order and exclusion if and only if the serving word is still the one it loaded, which fewer than 2^32 tickets since ensure |
| TicketMutex.OrderKeptExactly | include/nova/sync/mutex/ticket_mutex.hpp:49-77 | from the start or any state reached in order, tickets enter as 0, 1, 2 and so on and one at a time throughout a run if and only if every successful try_lock of the run finds the serving word it loaded |
| TicketMutex.StaleTryLockBreaksExclusion | include/nova/sync/mutex/ticket_mutex.hpp:61-69 | a run of 2^32 locks around one suspended try_lock with two threads inside |
| TicketMutex.SleepersAreNotified | include/nova/sync/mutex/ticket_mutex.hpp:72-77 | nobody sleeps on an outdated value without a notify coming, and the separate load and store of unlock always store the successor |
| TicketMutex.TicketHolder | source/nova/sync/mutex/ticket_mutex.cpp:14-41 | every outstanding ticket is held by a thread |
| TicketMutex.TicketGetsServed | source/nova/sync/mutex/ticket_mutex.cpp:14-41 | from every reachable state a waiter with ticket k gets the lock after exactly k - served unlocks, by at most 5 (k - served) + 3 instructions |
| TicketMutexCalls.CallsReturn | include/nova/sync/mutex/ticket_mutex.hpp:49-109 | in every run each call begun has returned once or is under way at a place of its own; lock never returned without the lock, try_lock only where its compare-exchange found another ticket, try_lock_until only when its time was up; the critical section was entered as often as a call returned with the lock |
| TicketMutexCalls.FreeHasNoTickets | include/nova/sync/mutex/ticket_mutex.hpp:49-77 | the two words agree if and only if no ticket is outstanding |
| TicketMutexCalls.CallOnFreeMutexEnters | include/nova/sync/mutex/ticket_mutex.hpp:49-109 | every operation called then and left alone enters by two instructions with the next ticket |
| TicketMutexCalls.TryOnHeldMutexFails | include/nova/sync/mutex/ticket_mutex.hpp:61-69 | try_lock while a ticket is outstanding changes nothing |
| TicketMutexCalls.TryFailsOnlyIfTaken | include/nova/sync/mutex/ticket_mutex.hpp:61-69 | a try_lock fails only if the mutex was held when it loaded the word or has been taken since |
| TicketMutexCalls.TimedTriesAgain | include/nova/sync/mutex/ticket_mutex.hpp:94-109 | a try_lock_until that finds the serving word changed tries again and enters a free mutex |
| TicketMutexCalls.WokenTriesAgain | include/nova/sync/mutex/ticket_mutex.hpp:94-109 | so does one that returns from its wait, before it looks at its time |
| TicketMutexCalls.UnlockServesNext | include/nova/sync/mutex/ticket_mutex.hpp:72-77 | unlock serves the next ticket and goes on to wake all sleepers |
| TicketMutexCalls.SleepsWhileUnchanged | source/nova/sync/mutex/ticket_mutex.cpp:16-21 | a waiter sleeps if and only if the serving word is still what it loaded |
| TicketMutexCalls.TimedSleepsWhileUnchanged | include/nova/sync/mutex/ticket_mutex.hpp:101-107 | so does a timed one, which otherwise tries again |
| TicketMutexCalls.SpinsBeforeWaiting | source/nova/sync/mutex/ticket_mutex.cpp:26-40 | with a spin phase a lock goes to its waiting loop only when that is over |
| TicketMutexCalls.SpinEndsInSleep | source/nova/sync/mutex/ticket_mutex.cpp:14-41 | and then looks once more and sleeps |
| TicketMutexObject.Mutex.LockOrUnlock | source/nova/sync/mutex/ticket_mutex.cpp:14-41 | lock, both slow loops and unlock on the two words do what the machine's instruction says |
| TicketMutexObject.Mutex.TryLocking | include/nova/sync/mutex/ticket_mutex.hpp:61-109 | the same for try_lock and try_lock_until |
| TicketMutexObject.Mutex.Schedule | include/nova/sync/mutex/ticket_mutex.hpp:49-109 | any admissible interleaving executed on the object is the machine's run and keeps the invariant |
| SharedSpinlock.WritersExcludeEveryone | source/nova/sync/mutex/spinlock_mutex.cpp:78-118 | in every run the word is exactly 2^31 while a writer holds, and then nobody else does; otherwise it is the number of readers plus 2^30 if pending, and a pending bit's last setter is still in lock_slow |
| SharedSpinlock.UnlockLeavesZero | include/nova/sync/mutex/spinlock_mutex.hpp:193-196 | the writer's unlock leaves the word zero |
| SharedSpinlock.PendingShutsOutReaders | source/nova/sync/mutex/spinlock_mutex.cpp:88-99 | over any run in which no writer gets in, a set pending bit stays set, no reader acquires and the readers only become fewer |
| SharedSpinlock.PendingWriterGetsIn | source/nova/sync/mutex/spinlock_mutex.cpp:95-103 | from every reachable state with the pending bit set, any thread in lock_slow becomes the writer by at most readers + 3 instructions, so the bit shuts nobody out for good |
| SharedSpinlock.BitsAgree | include/nova/sync/mutex/spinlock_mutex.hpp:198-224 | counting readers on the parts is adding and subtracting one on the 32-bit word, carries included |
| SharedSpinlock.MasksAgree | include/nova/sync/mutex/spinlock_mutex.hpp:227-229 | the parts are the bits the three masks select |
| SharedSpinlock.WritesAgree | include/nova/sync/mutex/spinlock_mutex.hpp:180-196 | setting and clearing the writer's bit on the parts is the masking of the word |
| SharedSpinlockCalls.CallsReturn | include/nova/sync/mutex/spinlock_mutex.hpp:171-224 | in every run each call begun has returned once or is under way at a place of its own; lock and lock_shared never returned without the lock, the try operations only where the word excluded them or had changed; writers and readers acquired as often as calls returned so |
| SharedSpinlockCalls.ReturnsAsAsked | include/nova/sync/mutex/spinlock_mutex.hpp:171-224 | the exclusive operations return as writer, the shared ones as reader |
| SharedSpinlockCalls.ExclusiveOnFreeLockTakesIt | include/nova/sync/mutex/spinlock_mutex.hpp:171-191 | without readers and a writer both exclusive operations lock by at most three instructions and clear the pending bit |
| SharedSpinlockCalls.SharedOnOpenLockTakesIt | include/nova/sync/mutex/spinlock_mutex.hpp:198-219 | without a writer and the pending bit both shared operations count themselves by two |
| SharedSpinlockCalls.TryOnTakenLockFails | include/nova/sync/mutex/spinlock_mutex.hpp:180-219 | where the word excludes it a try operation changes nothing |
| SharedSpinlockCalls.LockMeetsReaders | source/nova/sync/mutex/spinlock_mutex.cpp:88-99 | a lock that meets readers sets the pending bit and waits until they are gone |
| SharedSpinlockCalls.LockMeetsWriter | source/nova/sync/mutex/spinlock_mutex.cpp:83-86 | one that meets a writer looks again and sets nothing |
| SharedSpinlockCalls.SharedWaitsOutWriters | source/nova/sync/mutex/spinlock_mutex.cpp:107-118 | a refused shared lock looks again until neither a writer holds nor one waits |
| SharedSpinlockObject.Spinlock.Exclusive | source/nova/sync/mutex/spinlock_mutex.cpp:78-105 | lock, lock_slow, try_lock and unlock on the word do what the machine's instruction says |
| SharedSpinlockObject.Spinlock.Shared | source/nova/sync/mutex/spinlock_mutex.cpp:107-118 | the same for the readers' functions |
| SharedSpinlockObject.Spinlock.Schedule | include/nova/sync/mutex/spinlock_mutex.hpp:171-231 | any interleaving executed on the object is the machine's run and keeps the invariant |
| ParkingEvent.NeverOverDelivers | include/nova/sync/event/parking_auto_reset_event.hpp:52-132 | in every run whose timeouts are harmless, completed waits never exceed the initial token plus the signals, and the word is the tokens left minus the threads waiting |
| ParkingEvent.UntimedNeverOverDelivers | include/nova/sync/event/parking_auto_reset_event.hpp:52-103 | the same bound for every run of signal, try_wait and wait, with no assumption on the run |
| ParkingEvent.EnoughWaiters | include/nova/sync/event/parking_auto_reset_event.hpp:92-102 | if at every level from the word up to zero as many threads wait in slots from that level on as it is below zero, the word is never further below zero than there are waiting threads |
| ParkingEvent.NeverSleepsPastCondition | include/nova/sync/event/parking_auto_reset_event.hpp:52-132 | in every run without wrap-around whose timeouts are considerate, harmless or not, a sleeper whose slot is below the word has a notify coming |
| ParkingEvent.HarmlessStaysInRange | include/nova/sync/event/parking_auto_reset_event.hpp:121-127 | in a run whose timeouts are harmless the word does not wrap around |
| ParkingEvent.PassedGetsThrough | include/nova/sync/event/parking_auto_reset_event.hpp:92-132 | while overdue sleepers have a notify coming, a waiter whose slot is below the word, unless it is about to give its token back, completes by at most three instructions of its own and of one notifier |
| ParkingEvent.UntimedNeverSleepsPastCondition | include/nova/sync/event/parking_auto_reset_event.hpp:52-103 | the same for every run of signal, try_wait and wait, with no assumption on the run |
| ParkingEvent.SleepersNotifiedExactly | include/nova/sync/event/parking_auto_reset_event.hpp:121-127 | every such sleeper has a notify coming throughout a run without wrap-around if and only if each timeout's fetch_add, harmless or not, finds a notify coming or no sleeper in the slot at the word |
| ParkingEvent.EnoughExactly | include/nova/sync/event/parking_auto_reset_event.hpp:121-127 | the invariant that bounds the deliveries holds throughout a run if and only if all its timeouts are harmless |
| ParkingEvent.UndoSafeExactly | include/nova/sync/event/parking_auto_reset_event.hpp:121-127 | from every reachable state a timeout's fetch_add is harmless if and only if no later run, its own timeouts harmless, completes more waits than there were tokens |
| ParkingEvent.UndoKeepsEnough | include/nova/sync/event/parking_auto_reset_event.hpp:121-127 | a timeout's fetch_add leaves enough threads waiting at every level if and only if there is one to spare at each level above the word and up to its own slot |
| ParkingEvent.UndoKeepsSleepersNotified | include/nova/sync/event/parking_auto_reset_event.hpp:121-127 | one such fetch_add leaves no sleeper overdue without a notify if and only if a notify is coming or no sleeper's slot is the word it raises |
| ParkingEvent.TimeoutCanOverDeliver | include/nova/sync/event/parking_auto_reset_event.hpp:108-132 | a run with no token and no signal in which a wait completes |
| ParkingEvent.TimeoutCanStrandSleeper | include/nova/sync/event/parking_auto_reset_event.hpp:108-132 | a run with one signal after which a waiter sleeps although the word has passed its slot, and no ordinary instruction changes anything |
| ParkingEventCalls.CallsReturn | include/nova/sync/event/parking_auto_reset_event.hpp:52-132 | in every run without wrap-around each call begun has returned once or is under way at a place of its own; wait never returned without a token, a signal that added none found the event set, a try_wait that took none found it unset, a timed wait that took none timed out; tokens signalled and waits completed are those of the calls that returned with one and of the signals about to notify |
| ParkingEventCalls.UnaddedSignalFoundSet | include/nova/sync/event/parking_auto_reset_event.hpp:54-57 | a signal returns without adding a token only from a set event |
| ParkingEventCalls.SignalAlone | include/nova/sync/event/parking_auto_reset_event.hpp:52-66 | alone, a signal adds one to a word below one, leaves any other, and notifies if and only if the word was negative |
| ParkingEventCalls.WaitWithToken | include/nova/sync/event/parking_auto_reset_event.hpp:70-90 | any wait alone with the event set takes the token by at most two instructions |
| ParkingEventCalls.TryWaitWithoutToken | include/nova/sync/event/parking_auto_reset_event.hpp:70-77 | try_wait on an unset event changes nothing |
| ParkingEventCalls.WaitWithoutToken | include/nova/sync/event/parking_auto_reset_event.hpp:92-102 | a wait past its spin phase takes the next slot below an unset word and sleeps in it |
| ParkingEventCalls.TimeoutReturns | include/nova/sync/event/parking_auto_reset_event.hpp:121-127 | a timed wait whose time is up completes if the word has passed its slot, and otherwise gives its token back and returns without |
| ParkingEventCalls.SpinsBeforeWaiting | include/nova/sync/event/parking_auto_reset_event.hpp:82-90 | with a spin phase an untimed wait takes a slot only when that is over |
| ParkingEventCalls.SpinEndsInSlot | include/nova/sync/event/parking_auto_reset_event.hpp:82-92 | and on an unset event then does |
| ParkingEventObject.AutoResetEvent.SignalOrTake | include/nova/sync/event/parking_auto_reset_event.hpp:52-77 | signal and try_wait on the word do what the machine's instruction says |
| ParkingEventObject.AutoResetEvent.Waiting | include/nova/sync/event/parking_auto_reset_event.hpp:80-132 | the same for the waits from the subtraction on |
| ParkingEventObject.AutoResetEvent.Schedule | include/nova/sync/event/parking_auto_reset_event.hpp:52-132 | any interleaving with harmless timeouts executed on the object is the machine's run and keeps the invariant |
| ParkingSemaphore.TokensConserved | include/nova/sync/semaphore/parking_semaphore.hpp:51-103 | at every step the word is initial plus released minus completed minus blocked, and completed never exceeds initial plus released |
| ParkingSemaphore.GetsThroughExactly | include/nova/sync/semaphore/parking_semaphore.hpp:51-91 | with no other call under way, some ordinary run lets a blocked acquirer through if and only if the tokens not yet acquired suffice for all blocked acquirers and it is awake or a notify is coming |
| ParkingSemaphore.SleepersCoveredExactly | include/nova/sync/semaphore/parking_semaphore.hpp:51-61 | throughout a run the notifies still to come reach every sleeper whenever the word lets them go, if and only if no release takes the word up from -1 while more threads sleep than those notifies and its own will wake |
| ParkingSemaphore.CoveredGetsThrough | include/nova/sync/semaphore/parking_semaphore.hpp:82-91 | from any reachable state with the sleepers so covered and the word not negative, each blocked acquirer acquires by at most three instructions of its own and of one notifier |
| ParkingSemaphore.ReleasedTokenCanBeStuck | include/nova/sync/semaphore/parking_semaphore.hpp:51-91 | a run with a released token and two sleeping acquirers after which no ordinary instruction changes anything |
| ParkingSemaphore.LastSleeperCanBeStuck | include/nova/sync/semaphore/parking_semaphore.hpp:51-91 | the same with a token for the only blocked acquirer and the word at zero |
| ParkingSemaphoreCalls.CallsReturn | include/nova/sync/semaphore/parking_semaphore.hpp:51-103 | in every run each call begun has returned once or is under way at a place of its own; release and acquire return with what was asked, try_acquire without only where it found no token; acquisitions completed are the calls that returned with one |
| ParkingSemaphoreCalls.ReleasedAsAsked | include/nova/sync/semaphore/parking_semaphore.hpp:51-61 | over every run the tokens released are the sum of the arguments of all calls of release, less what calls under way have yet to add |
| ParkingSemaphoreCalls.ReleaseAlone | include/nova/sync/semaphore/parking_semaphore.hpp:51-61 | a release adds its tokens, and wakes nobody, one or all by the smaller of its tokens and the blocked |
| ParkingSemaphoreCalls.AcquireWithToken | include/nova/sync/semaphore/parking_semaphore.hpp:64-103 | both acquiring operations alone with a token there take it by at most two instructions |
| ParkingSemaphoreCalls.TryAcquireWithoutToken | include/nova/sync/semaphore/parking_semaphore.hpp:95-103 | without one try_acquire changes nothing |
| ParkingSemaphoreCalls.AcquireWithoutToken | include/nova/sync/semaphore/parking_semaphore.hpp:82-91 | an acquire past its spin phase counts itself below an empty semaphore and sleeps |
| ParkingSemaphoreCalls.SpinsBeforeBlocking | include/nova/sync/semaphore/parking_semaphore.hpp:66-80 | with a spin phase an acquire counts itself only when that is over |
| ParkingSemaphoreCalls.SpinEndsInSubtract | include/nova/sync/semaphore/parking_semaphore.hpp:66-82 | and then does, if it began spinning without a token |
| ParkingSemaphoreObject.Semaphore.Instruction | include/nova/sync/semaphore/parking_semaphore.hpp:51-103 | release, acquire and try_acquire on the word do what the machine's instruction says |
| ParkingSemaphoreObject.Semaphore.Schedule | include/nova/sync/semaphore/parking_semaphore.hpp:51-103 | any interleaving without overflow executed on the object is the machine's run and keeps the invariant |
| RecursiveSpinlock.CountIsRaceFree | include/nova/sync/mutex/spinlock_mutex.hpp:85-121 | only the owner is ever about to read or write the plain count, so no two threads are |
| RecursiveSpinlock.CountIsNestingDepth | include/nova/sync/mutex/spinlock_mutex.hpp:85-121 | outside the windows a thread is the owner if and only if its locks exceed its unlocks, and the count is then the difference |
| RecursiveSpinlock.OwnerClearedAtOutermostUnlock | include/nova/sync/mutex/spinlock_mutex.hpp:117-121 | the owner is cleared by its own unlock and only when no lock of it is left, and an unlock goes on to clear it if and only if it is the outermost |
| RecursiveSpinlockCalls.CallsReturn | include/nova/sync/mutex/spinlock_mutex.hpp:85-121 | in every run each call begun has returned once or is under way at a place of its own; lock and unlock return from their write of the count, try_lock without it only where another thread was the owner |
| RecursiveSpinlockCalls.ReturnsAsOwner | include/nova/sync/mutex/spinlock_mutex.hpp:85-121 | a call that locked returns as the owner one deeper, one that unlocked one less deep, and no longer as the owner exactly after the outermost unlock |
| RecursiveSpinlockCalls.FreeLockIsTaken | include/nova/sync/mutex/spinlock_mutex.hpp:85-115 | on a free lock lock and try_lock make the thread the owner by two instructions |
| RecursiveSpinlockCalls.OwnerLocksAgain | include/nova/sync/mutex/spinlock_mutex.hpp:94-97 | the owner locks again by three |
| RecursiveSpinlockCalls.OtherOwnerRefuses | include/nova/sync/mutex/spinlock_mutex.hpp:98-114 | while another thread is the owner try_lock returns at once and lock waits in its slow path |
| RecursiveSpinlockCalls.WaiterTakesFreedLock | source/nova/sync/mutex/spinlock_mutex.cpp:41-54 | from there it becomes the owner by three instructions once the lock is free |
| RecursiveSpinlockCalls.UnlockReleasesOnce | include/nova/sync/mutex/spinlock_mutex.hpp:117-121 | unlock takes one off the count and clears the owner if and only if that leaves none |
| RecursiveSpinlockObject.Spinlock.Advance | source/nova/sync/mutex/spinlock_mutex.cpp:41-54 | one instruction on the owner and the count is the machine's step |
| RecursiveSpinlockObject.Spinlock.Schedule | include/nova/sync/mutex/spinlock_mutex.hpp:85-121 | any interleaving executed on the object is the machine's run and keeps the invariant |

## Left out

- EventfdMutex.NeverLosesWakeUp: asks that no asynchronous operation registered too late since the lock was last held, for the asynchronous waiters that registered on a free word; without that the statement is false (AsyncWaiterCanBeStranded).
- TicketMutex.StrictlyFifo: assumes fewer than 2^32 tickets between the two instructions of each try_lock, as the design does; without it the statement is false (StaleTryLockBreaksExclusion).
- ParkingEvent.NeverOverDelivers: assumes harmless timeouts; without that the statement is false (TimeoutCanOverDeliver).
- ParkingEvent.NeverSleepsPastCondition: assumes that the word does not wrap around, which harmless timeouts ensure (HarmlessStaysInRange).
- ParkingSemaphore.TokensConserved: assumes that the count does not pass the largest `int32`; the code does not check it.
- NativeEvent.NeverLosesWakeUp: assumes that the token counter does not pass the largest `int`; the code does not check it.
- RecursiveSpinlock.CountIsNestingDepth: the recursion count is unbounded, where the code has a `size_t`.
- Futex.AtomicWait: the waits return the history of their loads and kernel results, or that they are still waiting where the environment's answers end; the pauses and yields between loads are not in it.
- FutexParkingMutex.WaitsRefineParking: only the parking mutex is put over the detailed waits; the ticket mutex, the parking event and the semaphore park in one step that may also return for no reason. It is a machine on values, without an object beside it.
- Clocks, deadlines and `to_abs_timespec`: a timeout may fire at any time.
- Weak memory: reorderings that the `memory_order` arguments allow.
- Starvation: a parking, eventfd or spin lock may pass one waiter over for ever; only the ticket mutex promises an order.
- That every signal of the parking event releases a waiter that was blocked: a newly arriving waiter can hide the signal.
- The futures returned by `async_acquire`, the Qt and libdispatch support, and `cancel` on an operation that has not started its wait.
- The pauses of the spin loops; without them the backoff variants of the shared and the recursive spinlock are the machines given here.
- `eventfd_mutex_impl` (no waiter count), `timed_semaphore`, `kqueue_semaphore` and the Linux branch of the native event.
- `spinlock_plain`, and the wrappers of pthread, Win32, Mach and dispatch primitives, which would only add easy members.
- The portable futex fallback, in which several atomics share a bucket.
