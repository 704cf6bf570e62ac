# Structured task scopes, the class dictionary and thread-state transitions in Dafny

This project models three cores of the JDK and HotSpot and proves properties of each.

- **`StructuredTaskScope`** (module `TaskScope`, `task_scope.dfy`) covers the owner-side
  lifecycle of a structured task scope:
  - the flags `needToJoin`, `joined`, `closed`, `cancelled` and `timeoutExpired`, plus the
    admission (shutdown) flag of the scope's thread flock;
  - the owner operations `fork`, `join` and `close`;
  - `cancelExecution` and the timeout timer;
  - the single-write result slot of a subtask (`SubtaskImpl`);
  - the five built-in completion policies (`allSuccessfulOrThrow`,
    `anySuccessfulResultOrThrow`, `ignoreSuccessfulOrThrow`, `ignoreAll`, `all(isDone)`);
  - the configuration record `ConfigImpl`.

  The flock is a set of live subtask ids, a shutdown flag, a multiset of interrupts and a
  wakeup count. The two events that happen on other threads are separate atomic methods,
  which a caller may invoke in any order between owner operations:
  - a subtask finishing is `Subtask.Run`;
  - the timer firing is `Scope.TimerFires`.

  `Scope.Valid()` states the flag discipline, and every operation and event preserves it:
  - `timeoutExpired` implies `cancelled`;
  - the flock is shut down exactly when the scope is cancelled or closed;
  - the joiner is woken once, and each thread is interrupted at most once;
  - a closed scope has no live thread;
  - a joined scope has no live thread unless it is cancelled;
  - a live subtask has not written its slot;
  - the policy's bookkeeping describes forked subtasks only.
- **The class-loader dictionary** (module `ClassDictionary`, `class_dictionary.dfy`) is
  HotSpot's chained hash table from class name to `InstanceKlass`:
  - each bucket is a sequence held in an array, in chain order;
  - each entry carries a duplicate-free protection-domain list;
  - `SymbolPropertyTable` is a second table with find and add-if-absent;
  - `compute_hash`, `hash_to_index`, `is_unloading`, `is_in_error_state` and "is a
    builtin loader" are uninterpreted function parameters.
- **Thread-state transitions** (module `ThreadStates`, `thread_states.dfy`) model the
  dispatch of `ThreadStateTransitionBase::transition`, which picks one of three legal paths
  or a fatal "Illegal state change". They also model the scoped transition objects:
  - `ThreadStateTransition` and its typedefs;
  - `ThreadInStatefromUnknown`;
  - `ThreadBlockInVMWithDeadlockCheck`.

  A constructor and an `Exit` method stand for each C++ constructor and destructor.

The conventions shared by all three modules:
- A Java `assert` or C++ `assert` becomes a `requires`.
- A thrown exception becomes an `Err` of `Wrappers.Result`, and a NULL becomes `None`.
- A `fatal` becomes a returned flag.

## Model

Paths are relative to the repository root.

| member | source | states |
|---|---|---|
| TaskScope.StateOf | src/java.base/share/classes/java/util/concurrent/StructuredTaskScope.java:1228-1239 | An empty slot is UNAVAILABLE, a FAILED alternative result is FAILED, and anything else (a value or RESULT_NULL) is SUCCESS. |
| TaskScope.GetFrom | src/java.base/share/classes/java/util/concurrent/StructuredTaskScope.java:1242-1255 | get succeeds exactly in the SUCCESS state; otherwise it throws IllegalStateException with the "Result is unavailable" message. |
| TaskScope.ExceptionFrom | src/java.base/share/classes/java/util/concurrent/StructuredTaskScope.java:1257-1266 | exception succeeds exactly in the FAILED state; otherwise it throws IllegalStateException with the "Exception is unavailable" message. |
| TaskScope.SlotFor | src/java.base/share/classes/java/util/concurrent/StructuredTaskScope.java:1219-1224 | The slot run writes decodes back to the task's outcome: a returned value (null included) is SUCCESS and get gives it back; a thrown exception is FAILED and exception gives it back. |
| TaskScope.SlotDecodes | src/java.base/share/classes/java/util/concurrent/StructuredTaskScope.java:1187-1194 | Every written slot is the encoding of exactly one outcome (RESULT_NULL and a value never collide), so encoding is injective and decoding inverts it. |
| TaskScope.DefaultOnFork | src/java.base/share/classes/java/util/concurrent/StructuredTaskScope.java:617-622 | The default onFork returns false for an UNAVAILABLE subtask and throws IllegalArgumentException for any other. |
| TaskScope.DefaultOnComplete | src/java.base/share/classes/java/util/concurrent/StructuredTaskScope.java:640-645 | The default onComplete returns false for a completed subtask and throws IllegalArgumentException for an UNAVAILABLE one. |
| TaskScope.ForkStep | src/java.base/share/classes/java/util/concurrent/StructuredTaskScope.java:1300-1306 | onFork of each policy: AllSuccessful and AllSubtasks append the subtask to their list in fork order, the others keep it; the first-exception and first-success slots are untouched; an unstarted subtask never asks to cancel; the policy's field invariant is kept. |
| TaskScope.CompleteStep | src/java.base/share/classes/java/util/concurrent/StructuredTaskScope.java:1308-1313 | onComplete of each policy: a filled first-exception or first-success slot is never overwritten; a completed subtask never makes it throw; AnySuccessful failures never cancel; ignoreAll changes nothing and cancels never; AllSubtasks cancels exactly when the predicate holds; for the other policies a cancel request is exactly the call that fills the empty slot. |
| TaskScope.FirstWinsAtMostOnce | src/java.base/share/classes/java/util/concurrent/StructuredTaskScope.java:1346-1357 | Over any sequence of completions, AllSuccessful, AnySuccessful and IgnoreSuccessful ask to cancel at most once, never after their slot was filled, and once filled their slots keep their first value. |
| TaskScope.IgnoreAllNeverCancels | src/java.base/share/classes/java/util/concurrent/StructuredTaskScope.java:741-749 | Over any sequence of completed subtasks ignoreAll keeps no state and never asks to cancel. |
| TaskScope.AllSubtasksCancelsOnPredicate | src/java.base/share/classes/java/util/concurrent/StructuredTaskScope.java:1428-1431 | Over any sequence of completions AllSubtasks keeps its list and asks to cancel exactly once per completion the predicate accepts. |
| TaskScope.Policy.constructor | src/java.base/share/classes/java/util/concurrent/StructuredTaskScope.java:686-790 | A new policy object of the chosen kind with an empty subtask list and empty first-exception and first-success slots. |
| TaskScope.Policy.OnFork | src/java.base/share/classes/java/util/concurrent/StructuredTaskScope.java:1420-1426 | The policy object's fields and answer after onFork are those of ForkStep. |
| TaskScope.Policy.OnComplete | src/java.base/share/classes/java/util/concurrent/StructuredTaskScope.java:1390-1395 | The policy object's fields and answer after onComplete are those of CompleteStep. |
| TaskScope.Policy.Result | src/java.base/share/classes/java/util/concurrent/StructuredTaskScope.java:1359-1371 | result(): AllSuccessful and IgnoreSuccessful throw the first exception, else give all forked subtasks in fork order (or null); AnySuccessful gives the first success's value, else throws the first exception, else NoSuchElementException; ignoreAll gives null; AllSubtasks gives the list. It reads only fields, so calling it again gives the same answer. |
| TaskScope.Config.WithThreadFactory | src/java.base/share/classes/java/util/concurrent/StructuredTaskScope.java:1449-1452 | A copy with the new thread factory and the same name and timeout. |
| TaskScope.Config.WithName | src/java.base/share/classes/java/util/concurrent/StructuredTaskScope.java:1454-1457 | A copy with the new name and the same factory and timeout. |
| TaskScope.Config.WithTimeout | src/java.base/share/classes/java/util/concurrent/StructuredTaskScope.java:1459-1462 | A copy with the new timeout and the same factory and name. |
| TaskScope.DefaultConfig | src/java.base/share/classes/java/util/concurrent/StructuredTaskScope.java:1445-1447 | The virtual-thread factory, no name and no timeout. |
| TaskScope.WithersCommuteAndOverride | src/java.base/share/classes/java/util/concurrent/StructuredTaskScope.java:1442-1463 | The three withers commute with each other, and a second call of the same wither overrides the first. |
| TaskScope.Flock.constructor | src/java.base/share/classes/java/util/concurrent/StructuredTaskScope.java:450 | A new flock is open, with no live thread, no interrupt and no wakeup. |
| TaskScope.Flock.Start | src/java.base/share/classes/java/util/concurrent/StructuredTaskScope.java:1004-1009 | A start is refused exactly when the flock is shut down; otherwise the thread becomes live. |
| TaskScope.Flock.Shutdown | src/java.base/share/classes/java/util/concurrent/StructuredTaskScope.java:394 | The flock admits no new thread afterwards. |
| TaskScope.Flock.InterruptAll | src/java.base/share/classes/java/util/concurrent/StructuredTaskScope.java:365-386 | Every live thread except the current one receives one interrupt. |
| TaskScope.Flock.Wakeup | src/java.base/share/classes/java/util/concurrent/StructuredTaskScope.java:400 | The joiner receives one wakeup. |
| TaskScope.Flock.Exit | src/java.base/share/classes/java/util/concurrent/StructuredTaskScope.java:1206-1226 | A subtask thread that finishes is no longer live. |
| TaskScope.Flock.Close | src/java.base/share/classes/java/util/concurrent/StructuredTaskScope.java:1161-1166 | After closing, the flock is shut down and no thread is live. |
| TaskScope.Others | src/java.base/share/classes/java/util/concurrent/StructuredTaskScope.java:365-373 | The threads to interrupt are the live ones minus the current thread. |
| TaskScope.Subtask.constructor | src/java.base/share/classes/java/util/concurrent/StructuredTaskScope.java:1200-1203 | A new subtask belongs to its scope and has an empty (UNAVAILABLE) slot. |
| TaskScope.Subtask.State | src/java.base/share/classes/java/util/concurrent/StructuredTaskScope.java:1228-1239 | state() is UNAVAILABLE exactly when the slot is empty, SUCCESS exactly when get can deliver a value, and FAILED exactly when exception can deliver an exception. |
| TaskScope.Subtask.Get | src/java.base/share/classes/java/util/concurrent/StructuredTaskScope.java:1242-1255 | get throws ensureJoinedIfOwner's IllegalStateException for an owner that has not joined; for any other caller, or once joined, it succeeds exactly in SUCCESS with the value decoded from the slot and otherwise throws IllegalStateException("Result is unavailable or subtask did not complete successfully"). |
| TaskScope.Subtask.Exception | src/java.base/share/classes/java/util/concurrent/StructuredTaskScope.java:1257-1266 | exception throws ensureJoinedIfOwner's IllegalStateException for an owner that has not joined; for any other caller, or once joined, it succeeds exactly in FAILED with the exception from the slot and otherwise throws IllegalStateException("Exception is unavailable or subtask did not complete with exception"). |
| TaskScope.Subtask.Run | src/java.base/share/classes/java/util/concurrent/StructuredTaskScope.java:1206-1226 | The thread of a live subtask finishes and leaves the flock. Its slot was empty; it is written (with the encoding of the outcome) exactly when the scope is not cancelled, and the policy's onComplete runs exactly then. A completion that cancels shuts the flock down, interrupts every other live thread once and wakes the joiner once; one that does not cancel leaves the flock's flags, interrupts and wakeups alone. When the scope is already cancelled, it stays cancelled and the policy, the flock's flags, interrupts and wakeups are unchanged. After a completed join no subtask completes and the policy is unchanged. The scope invariant is kept. |
| TaskScope.RunKeepsScopeValid | src/java.base/share/classes/java/util/concurrent/StructuredTaskScope.java:1219-1225 | Writing a slot and running the policy's onComplete keeps the policy's bookkeeping consistent with the forked subtasks. |
| TaskScope.CancelTimer | src/java.base/share/classes/java/util/concurrent/StructuredTaskScope.java:420-425 | Cancelling the timer leaves no pending timer task and changes nothing when no task is pending. |
| TaskScope.WrapResult | src/java.base/share/classes/java/util/concurrent/StructuredTaskScope.java:1088-1092 | join returns the policy's result unchanged and wraps whatever it throws in ExecutionException. |
| TaskScope.Scope.Open | src/java.base/share/classes/java/util/concurrent/StructuredTaskScope.java:891-913 | A new scope with a new open flock, all flags clear, no subtask, and a pending timer task exactly when the configuration has a timeout. |
| TaskScope.Scope.EnsureOwner | src/java.base/share/classes/java/util/concurrent/StructuredTaskScope.java:345-349 | WrongThreadException exactly for a thread other than the owner. |
| TaskScope.Scope.EnsureOpen | src/java.base/share/classes/java/util/concurrent/StructuredTaskScope.java:335-340 | IllegalStateException exactly when the scope is closed. |
| TaskScope.Scope.EnsureJoinedIfOwner | src/java.base/share/classes/java/util/concurrent/StructuredTaskScope.java:355-360 | IllegalStateException exactly for the owner before join completed, with "Owner did not join" when `needToJoin` is set and "join did not complete" otherwise. |
| TaskScope.Scope.IsCancelled | src/java.base/share/classes/java/util/concurrent/StructuredTaskScope.java:1112-1114 | In a valid open scope, isCancelled is true exactly when the flock admits no new thread; an expired timeout implies it; a joined scope that is not cancelled has no live thread. |
| TaskScope.Scope.CancelExecution | src/java.base/share/classes/java/util/concurrent/StructuredTaskScope.java:391-402 | `cancelled` only goes from false to true; only the call that makes the change shuts the flock down, interrupts every other live thread once and wakes the joiner once; any later call leaves the flock unchanged. |
| TaskScope.Scope.TimerFires | src/java.base/share/classes/java/util/concurrent/StructuredTaskScope.java:409-414 | The timer task runs: the timeout expires only when the scope was not yet cancelled, and the scope is cancelled afterwards, so `timeoutExpired` implies `cancelled` stays invariant. A firing that wins the cancellation shuts the flock down, keeps every live thread, interrupts each of them once and wakes the joiner once; a firing after cancellation leaves the flock alone. |
| TaskScope.Scope.CancelTimeout | src/java.base/share/classes/java/util/concurrent/StructuredTaskScope.java:420-425 | The timer task is cancelled if there is one. |
| TaskScope.Scope.OnComplete | src/java.base/share/classes/java/util/concurrent/StructuredTaskScope.java:431-436 | The policy's onComplete runs on a completed subtask without throwing, and execution is cancelled exactly when it asks to (or was already cancelled). |
| TaskScope.Scope.Fork | src/java.base/share/classes/java/util/concurrent/StructuredTaskScope.java:981-1014 | The errors for a non-owner, a closed scope or a joined scope change nothing. Otherwise a new UNAVAILABLE subtask is created and the policy's fields step as ForkStep says for it, so the first-exception and first-success slots are untouched. A thread starts only when the scope is not cancelled and the factory gives a thread; a refusal throws RejectedExecutionException and leaves `needToJoin` as it was. On success `needToJoin` is set. Cancellation and the flock's shutdown flag, interrupts and wakeups are unchanged, and the scope invariant is kept. |
| TaskScope.Scope.Join | src/java.base/share/classes/java/util/concurrent/StructuredTaskScope.java:1066-1093 | Non-owner and closed-scope errors change nothing. The first join clears `needToJoin`; it throws InterruptedException when interrupted, or ExecutionException(TimeoutException) when the timeout expired, without joining; otherwise it cancels the timer, sets `joined` and returns the policy's result wrapped. A later join skips the wait, changes nothing and returns the policy's result wrapped. The scope invariant is kept. |
| TaskScope.Scope.Close | src/java.base/share/classes/java/util/concurrent/StructuredTaskScope.java:1149-1173 | A non-owner's call throws and changes nothing; a second close does nothing. Otherwise execution and the timer are cancelled only when not joined; when that cancellation wins, every live thread is interrupted once and the joiner woken once, and otherwise interrupts and wakeups are unchanged. The flock is closed with no thread left, `closed` is set, and "Owner did not join" is thrown exactly when `needToJoin` was still set, which is then cleared. |
| TaskScope.AnySuccessfulResultAfterSuccess | src/java.base/share/classes/java/util/concurrent/StructuredTaskScope.java:1359-1364 | Once AnySuccessful recorded a success, result() is that subtask's value. |
| TaskScope.JoinedScopeIsQuiescent | src/java.base/share/classes/java/util/concurrent/StructuredTaskScope.java:1070-1085 | A joined scope is cancelled or has no live thread, has no pending timer task, and its timeout has not expired. |
| TaskScope.JoinAgainAfterCompletion | src/java.base/share/classes/java/util/concurrent/StructuredTaskScope.java:1066-1093 | join called again on a joined scope, with a subtask thread finishing in between, returns exactly what the first call returned: the policy's result() gives the same answer again. |
| ClassDictionary.FindFirst | hotspot/src/share/vm/classfile/dictionary.cpp:271-283 | The chain walk returns the first position whose entry matches, and returns NULL exactly when none matches. |
| ClassDictionary.EntriesStep | hotspot/src/share/vm/classfile/dictionary.cpp:204-215 | The table-wide walk order is bucket by bucket, each bucket in chain order. |
| ClassDictionary.EntriesMeets | hotspot/src/share/vm/classfile/dictionary.cpp:204-215 | Every entry of every bucket is met by the table-wide walk. |
| ClassDictionary.EntriesFrom | hotspot/src/share/vm/classfile/dictionary.cpp:204-215 | Every entry the table-wide walk meets lies in some bucket. |
| ClassDictionary.Reverse | hotspot/src/share/vm/classfile/dictionary.cpp:349-358 | Prepending each unlinked entry to the master list builds a list as long as the walk. |
| ClassDictionary.ReverseMeaning | hotspot/src/share/vm/classfile/dictionary.cpp:349-358 | The master list holds the walk back to front (position i holds the entry walked i-th from the end) and keeps every entry with its multiplicity. |
| ClassDictionary.Survivors | hotspot/src/share/vm/classfile/dictionary.cpp:159-177 | An entry stays in the bucket exactly when it was there and is not doomed. |
| ClassDictionary.SurvivorsCount | hotspot/src/share/vm/classfile/dictionary.cpp:159-177 | Exactly the doomed entries are removed: each surviving entry keeps its number of occurrences, and every doomed entry has none. |
| ClassDictionary.SurvivorsConcat | hotspot/src/share/vm/classfile/dictionary.cpp:159-177 | The unlinking walk processes a chain piece by piece, so the survivors keep their relative order. |
| ClassDictionary.SurvivorsOfClean | hotspot/src/share/vm/classfile/dictionary.cpp:187-199 | A chain with no doomed entry is left exactly as it was. |
| ClassDictionary.SurvivorsIdempotent | hotspot/src/share/vm/classfile/dictionary.cpp:183-201 | Running the removal a second time changes nothing. |
| ClassDictionary.ContainsProtectionDomain | hotspot/src/share/vm/classfile/dictionary.cpp:98-129 | Given the debug invariant that the class's own domain is never in the list, the answer is true exactly when the domain is the class's own or is in the list. |
| ClassDictionary.AddProtectionDomainTo | hotspot/src/share/vm/classfile/dictionary.cpp:132-149 | The entry afterwards admits the domain, admits exactly what it admitted before plus that domain, and keeps its list duplicate-free and without its own domain; it grows by at most one, and the hash and class are unchanged. |
| ClassDictionary.DefinedKlassesMeaning | hotspot/src/share/vm/classfile/dictionary.cpp:204-215 | classes_do hands over a class exactly when some entry holds it and it was defined by the dictionary's own loader. |
| ClassDictionary.AllVisits | hotspot/src/share/vm/classfile/dictionary.cpp:233-242 | all_entries_do visits every entry once, in walk order, with the dictionary's loader. |
| ClassDictionary.RehashAll | hotspot/src/share/vm/classfile/dictionary.cpp:367-372 | Every entry, in order, is the original entry with its hash recomputed from its class name. |
| ClassDictionary.BucketAfterReorder | hotspot/src/share/vm/classfile/dictionary.cpp:362-375 | Every entry put back into bucket b carries its recomputed hash, and that hash maps to b. |
| ClassDictionary.Redistribute | hotspot/src/share/vm/classfile/dictionary.cpp:345-376 | The reordered table has the same number of buckets, and bucket b holds exactly the rehashed entries that map to b, in walk order (BucketAfterReorder). |
| ClassDictionary.EntriesOfEmpty | hotspot/src/share/vm/classfile/dictionary.cpp:350-360 | A table whose buckets are all emptied holds no entry. |
| ClassDictionary.EntriesPrepend | hotspot/src/share/vm/classfile/dictionary.cpp:373-374 | Prepending an entry to one bucket adds exactly that entry to the table's contents. |
| ClassDictionary.ReorderPreservesEntries | hotspot/src/share/vm/classfile/dictionary.cpp:345-376 | After redistribution the table holds exactly the rehashed entries, as a multiset. |
| ClassDictionary.Dictionary.constructor | hotspot/src/share/vm/classfile/dictionary.cpp:49-51 | A dictionary for the loader with the given number of empty buckets. |
| ClassDictionary.Dictionary.GetEntry | hotspot/src/share/vm/classfile/dictionary.cpp:271-283 | The first entry of the bucket whose hash and name match (and, when dumping, whose loader is builtin), or NULL exactly when there is none. The table is not modified. |
| ClassDictionary.Dictionary.FindClass | hotspot/src/share/vm/classfile/dictionary.cpp:297-304 | The class of the entry get_entry finds, with the requested name, or NULL exactly when there is none. |
| ClassDictionary.Dictionary.Find | hotspot/src/share/vm/classfile/dictionary.cpp:286-294 | The class of the entry get_entry finds when that entry accepts the protection domain, and NULL exactly otherwise. |
| ClassDictionary.Dictionary.AddKlass | hotspot/src/share/vm/classfile/dictionary.cpp:251-259 | One new entry for the class, with an empty protection-domain list, is prepended to the bucket; no other bucket changes. |
| ClassDictionary.Dictionary.AddProtectionDomain | hotspot/src/share/vm/classfile/dictionary.cpp:319-334 | The entry get_entry finds is replaced by its AddProtectionDomainTo update and then admits the domain; nothing else in the table changes, and every list stays duplicate-free. |
| ClassDictionary.Dictionary.UnlinkWhere | hotspot/src/share/vm/classfile/dictionary.cpp:159-177 | The pointer-to-pointer walk leaves the bucket with exactly its survivors, in order; other buckets are unchanged. |
| ClassDictionary.Dictionary.UnlinkAllWhere | hotspot/src/share/vm/classfile/dictionary.cpp:186-200 | Every bucket is left with exactly its survivors, in order. |
| ClassDictionary.Dictionary.DoUnloading | hotspot/src/share/vm/classfile/dictionary.cpp:152-181 | Nothing changes for the null loader; otherwise exactly the entries whose defining loader is unloading are removed and the others keep their order. |
| ClassDictionary.Dictionary.RemoveClassesInErrorState | hotspot/src/share/vm/classfile/dictionary.cpp:183-201 | Exactly the entries whose class is in error state are removed and the others keep their order. |
| ClassDictionary.Dictionary.ClassesDo | hotspot/src/share/vm/classfile/dictionary.cpp:204-215 | The classes handed to the callback, in walk order, are those defined by this dictionary's loader (see DefinedKlassesMeaning). |
| ClassDictionary.Dictionary.AllEntriesDo | hotspot/src/share/vm/classfile/dictionary.cpp:233-242 | The callback receives every entry's class with this dictionary's loader, in walk order (see AllVisits). |
| ClassDictionary.Dictionary.ReorderDictionary | hotspot/src/share/vm/classfile/dictionary.cpp:345-376 | Every entry ends in the bucket its recomputed hash maps to, carrying that hash, and the table holds exactly the rehashed entries as a multiset. |
| ClassDictionary.Dictionary.MoveToMasterList | hotspot/src/share/vm/classfile/dictionary.cpp:347-360 | All buckets are emptied into a master list that holds every entry in reverse walk order. |
| ClassDictionary.Dictionary.PushBackRehashed | hotspot/src/share/vm/classfile/dictionary.cpp:362-375 | Each entry of the master list, rehashed, is prepended to the bucket its hash maps to, so each bucket ends as BucketAfterReorder describes. |
| ClassDictionary.Dictionary.Destroy | hotspot/src/share/vm/classfile/dictionary.cpp:60-72 | Every entry is freed exactly once, in walk order, and the buckets end empty. |
| ClassDictionary.SymbolPropertyTable.constructor | hotspot/src/share/vm/classfile/dictionary.cpp:379-382 | A table with the given number of empty buckets. |
| ClassDictionary.SymbolPropertyTable.FindEntry | hotspot/src/share/vm/classfile/dictionary.cpp:390-400 | The first entry with the same hash, symbol and mode, or NULL exactly when there is none. |
| ClassDictionary.SymbolPropertyTable.AddEntry | hotspot/src/share/vm/classfile/dictionary.cpp:403-412 | Given that no matching entry exists, the new entry is prepended, no other bucket changes, the table stays free of duplicates, and find_entry now returns the new entry. |
| ThreadStates.Dispatch | src/hotspot/share/runtime/interfaceSupport.inline.hpp:141-155 | `to == in_Java` goes through VMToJava; otherwise an unsafe `from` goes through FromUnsafe; a safe `from` with `to == in_vm` goes through SafeToVM; everything else is the fatal "Illegal state change". |
| ThreadStates.IsUnsafe | src/hotspot/share/runtime/interfaceSupport.inline.hpp:157-162 | is_unsafe is exactly the negation of is_safe: every state except in_native and blocked, the transitional states included. |
| ThreadStates.SafeStatesOnlyEnterVm | src/hotspot/share/runtime/interfaceSupport.inline.hpp:141-162 | is_safe holds exactly for the states from which transition accepts no target but in_vm and in_Java; from an unsafe state any target passes the dispatch. |
| ThreadStates.TypedefPairsRoundTrip | src/hotspot/share/runtime/interfaceSupport.inline.hpp:188-192 | For each of the five typedef'd pairs, both directions are legal, their asserts hold, and destruction restores the state construction left. |
| ThreadStates.InVmFromUnknownRoundTrip | src/hotspot/share/runtime/interfaceSupport.inline.hpp:219 | ThreadInVMfromUnknown enters in_vm from any other state and comes back legally. |
| ThreadStates.NativeFromUnknownRoundTrip | src/hotspot/share/runtime/interfaceSupport.inline.hpp:230 | JvmtiThreadEventTransition's round trip to in_native is legal only from in_vm; from in_Java both steps are legal but the way back fails VMToJava's assert. |
| ThreadStates.JavaThread.TransFromSafeToVM | src/hotspot/share/runtime/interfaceSupport.inline.hpp:90-102 | From in_native or blocked to in_vm, the state becomes in_vm. |
| ThreadStates.JavaThread.TransFromUnsafe | src/hotspot/share/runtime/interfaceSupport.inline.hpp:105-118 | From an unsafe state, and out of in_Java only to in_native or in_vm, the state becomes `to`. |
| ThreadStates.JavaThread.TransFromVMToJava | src/hotspot/share/runtime/interfaceSupport.inline.hpp:122-135 | From in_vm, the state becomes `to`. |
| ThreadStates.JavaThread.Transition | src/hotspot/share/runtime/interfaceSupport.inline.hpp:141-155 | The transition is fatal exactly when it is not legal; otherwise the state becomes `to`. |
| ThreadStates.ThreadStateTransition.constructor | src/hotspot/share/runtime/interfaceSupport.inline.hpp:170-172 | The constructor moves the thread from FROM to TO. |
| ThreadStates.ThreadStateTransition.Exit | src/hotspot/share/runtime/interfaceSupport.inline.hpp:173-175 | The destructor moves the thread from TO back to FROM. |
| ThreadStates.InTypedefScope | src/hotspot/share/runtime/interfaceSupport.inline.hpp:165-192 | A scope of any typedef'd transition entered in FROM leaves the thread state as it found it. |
| ThreadStates.ThreadInStateFromUnknown.constructor | src/hotspot/share/runtime/interfaceSupport.inline.hpp:199-211 | Nothing happens for a non-Java thread or one already in the target state; otherwise the state is saved and the thread moves to the target. |
| ThreadStates.ThreadInStateFromUnknown.Exit | src/hotspot/share/runtime/interfaceSupport.inline.hpp:212-216 | If the constructor transitioned, the thread goes back to the saved state. |
| ThreadStates.InVmFromUnknownScope | src/hotspot/share/runtime/interfaceSupport.inline.hpp:194-219 | A ThreadInVMfromUnknown scope leaves the current thread's state as it found it. |
| ThreadStates.MutexSlot.constructor | src/hotspot/share/runtime/interfaceSupport.inline.hpp:244 | A mutex pointer cell holding the given mutex or NULL. |
| ThreadStates.ReleasedAtMostOnce | src/hotspot/share/runtime/interfaceSupport.inline.hpp:247-255 | However many safepoint checks find processing due, the in-flight mutex is released at most once, and never when the pointer is NULL. |
| ThreadStates.NothingToRelease | src/hotspot/share/runtime/interfaceSupport.inline.hpp:247-255 | Once the pointer is NULL, no later check releases anything. |
| ThreadStates.BlockRepeatedly | src/hotspot/share/runtime/interfaceSupport.inline.hpp:242-274 | A thread that enters and leaves ThreadBlockInVMWithDeadlockCheck repeatedly with one in-flight mutex slot releases the mutex as often as Releases counts, so at most once; it ends in in_vm, and the slot ends NULL exactly when it started NULL or some exit found processing due. |
| ThreadStates.ThreadBlockInVMWithDeadlockCheck.constructor | src/hotspot/share/runtime/interfaceSupport.inline.hpp:257-264 | The thread is blocked afterwards. |
| ThreadStates.ThreadBlockInVMWithDeadlockCheck.ReleaseMutexIfHeld | src/hotspot/share/runtime/interfaceSupport.inline.hpp:247-255 | It releases the mutex the pointer holds, if any, and the pointer is NULL afterwards. |
| ThreadStates.ThreadBlockInVMWithDeadlockCheck.Exit | src/hotspot/share/runtime/interfaceSupport.inline.hpp:265-273 | The thread is back in in_vm. Only when a safepoint or handshake must be processed is the in-flight mutex released and its pointer nulled; otherwise the pointer is kept. |

## Left out

- Real threads, blocking and memory ordering are replaced by atomic steps, each taken as a
  whole between owner operations. This covers `ThreadFlock`'s start, awaitAll and close;
  the compare-and-set of `cancelled` and of the policy slots; and the happens-before
  guarantees of section 17.4.5 of the Java Language Specification.
- `Scope.TimerFires` treats the timer callback as one step. In the source there is a
  window between the store to `timeoutExpired` and the store to `cancelled`, so
  "`timeoutExpired` implies `cancelled`" holds only at step granularity.
- `Scope.Join` is modelled at the moment `flock.awaitAll` returns. The owner must be
  interrupted, or the scope cancelled, or no subtask thread live. Whether it was
  interrupted is a parameter.
- `Scope.Fork` takes the outcome of `threadFactory.newThread` as the flag `factoryAccepts`.
  The thread factory, `Thread.ofVirtual` and thread names are not modelled. Scoped-value
  bindings and StructureViolationException are also out.
- `Scope.Fork` keeps no branch for `onFork` returning true, because no built-in policy's
  `onFork` does.
- `Scope.Open` requires a new policy object, which is what every built-in factory method
  returns.
- `Scope.Open`'s path for a failed `scheduleTimeout` is not modelled; scheduling cannot
  fail in the model. The `TimerSupport` executor is a `TimerTask` state.
- The `SecurityManager` and `AccessController` branch of `interruptAll`: both branches
  interrupt the same threads.
- `fork(Runnable)` is not modelled; it adapts a runnable to a callable. `toString` and the
  NullPointerExceptions of `requireNonNull` are also out.
- `TaskScope.Policy.Result` reads the first success's slot directly instead of calling
  `get()`, so it skips `get`'s `ensureJoinedIfOwner`. That check always passes when `join`
  calls `result()`.
- TaskScope.CompleteStep: the `all(isDone)` predicate is a stateless function of a subtask's id and slot that always returns; a predicate with its own state (a counter of failures, say) or one that throws out of onComplete is not modelled, so the AllSubtasks results hold only for stateless, non-throwing predicates.
- TaskScope.AllSubtasksCancelsOnPredicate: counts the acceptances of a stateless, non-throwing predicate only, for the same reason.
- The dictionary's memory management is not modelled: `free_entry`,
  `FREE_C_HEAP_ARRAY`, `unlink_entry` and the bucket arrays. `Destroy` returns the freed
  entries instead.
- Lock assertions, `OrderAccess` and the `index == index_for(name)` asserts are not
  modelled; the index function is not part of this model.
- `ClassDictionary.Dictionary.RemoveClassesInErrorState` does not require
  `DumpSharedSpaces`. It also does not print the "Preload Warning" line per removed class.
- `find_shared_class` is not modelled separately; it is `find_class` without the lock
  assert. The `classes_do` overload taking `TRAPS` is also left out; it walks like
  `classes_do`.
- `Dictionary::is_valid_protection_domain` (dictionary.cpp:337-342) and the entry's own
  `is_valid_protection_domain` are not modelled; that predicate is defined in
  dictionary.hpp, which is not part of this model. `Find` takes it as a parameter.
- The CDS hooks, `print`, `verify`, `oops_do`, `methods_do` and `entry_size` are not
  modelled. The non-NULL protection-domain assert and `ProtectionDomainCacheEntry`
  handles are also out; a domain is an oop value.
- `ThreadStates.JavaThread.TransFromUnsafe` requires `to != in_Java` outright. The source
  also allows in_Java at a poll safepoint, but the dispatch never takes that path for
  in_Java.
- The lock-ownership and walkable-frame asserts are not modelled.
- Safepoint and handshake processing, memory fences, stack zones, frame anchors and
  `check_possible_safepoint` are no-ops in the model. Whether processing is due
  (`should_process`) is a parameter.
- The `HandleMark` variants (`ThreadStateTransitionHandleMark`,
  `ThreadInStatefromUnknownHandleMark`) behave like their bases and are covered by them.
  `Thread::current()` is a parameter, and the JRT, JNI and JVM entry macros are out.
- The transition table in the comment at interfaceSupport.inline.hpp:72-88 is not what
  the dispatch code does. For example, it lists native to java as allowed, while the code
  sends every move to in_Java through VMToJava, which asserts in_vm. The model follows
  the code.
