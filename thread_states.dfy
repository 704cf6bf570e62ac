/**
 * Thread-state transitions of a HotSpot JavaThread (runtime/interfaceSupport.inline.hpp).
 *
 * A Java thread is always in one state of JavaThreadState. Code that crosses the
 * boundary between compiled Java code, the VM and native code changes that state
 * through ThreadStateTransitionBase::transition, which picks one of three transition
 * paths or stops the VM with "Illegal state change". The RAII helper classes enter a
 * state in their constructor and leave it in their destructor; here a constructor and
 * an Exit method stand for the two.
 *
 * Safepoint and handshake processing, memory fences, stack zones and frame anchors are
 * no-ops in this model: only the thread's state field and the dispatch are kept.
 * The C++ asserts of a path are preconditions of the method modelling it.
 */
module ThreadStates {
  import opened Wrappers

  /** JavaThreadState, with the transitional `_trans` states. */
  datatype ThreadState =
    | Uninitialized
    | New | NewTrans
    | InNative | InNativeTrans
    | InVm | InVmTrans
    | InJava | InJavaTrans
    | Blocked | BlockedTrans

  /** is_safe: the states in which the VM may run a safepoint without the thread's help. */
  predicate IsSafe(s: ThreadState) {
    s == InNative || s == Blocked
  }

  /** is_unsafe: every state but in_native and blocked, the transitional ones included. */
  function IsUnsafe(s: ThreadState): (r: bool)
    ensures r <==> !IsSafe(s)
    ensures r <==> s != InNative && s != Blocked
  {
    !IsSafe(s)
  }

  /** The three transition classes, and the fatal error. */
  datatype Path = VMToJava | FromUnsafe | SafeToVM | IllegalStateChange

  /**
   * The dispatch of ThreadStateTransitionBase::transition. Each path is only handed
   * arguments that satisfy the asserts on `from` and `to` in that path's trans method,
   * and the fatal error is raised exactly for a safe `from` whose target is neither
   * in_Java nor in_vm.
   */
  function Dispatch(from: ThreadState, to: ThreadState): (p: Path)
    ensures p == VMToJava <==> to == InJava
    ensures p == FromUnsafe ==> from != InNative && from != Blocked && to != InJava
    ensures p == SafeToVM ==> (from == InNative || from == Blocked) && to == InVm
    ensures p == IllegalStateChange <==> (from == InNative || from == Blocked) && to != InJava && to != InVm
  {
    if to == InJava then VMToJava
    else if IsUnsafe(from) then FromUnsafe
    else if IsSafe(from) && to == InVm then SafeToVM
    else IllegalStateChange
  }

  /**
   * The safe states are exactly those from which transition may only enter in_vm (or
   * in_Java): from any unsafe state every target passes the dispatch.
   */
  lemma SafeStatesOnlyEnterVm(s: ThreadState)
    ensures IsSafe(s) <==> forall t :: Legal(s, t) ==> t == InVm || t == InJava
  {
    if !IsSafe(s) {
      assert Legal(s, InNative);
    }
  }

  /** A transition from `from` to `to` does not stop the VM. */
  predicate Legal(from: ThreadState, to: ThreadState) {
    Dispatch(from, to) != IllegalStateChange
  }

  /**
   * The asserts that the chosen path checks beyond the dispatch itself, when the
   * thread's current state is `cur`: VMToJava insists that the thread is in_vm, and
   * FromUnsafe leaves in_Java only for in_native or in_vm. (The lock-ownership and
   * poll-safepoint asserts of FromUnsafe are about state this model does not keep.)
   */
  predicate PathAsserts(cur: ThreadState, from: ThreadState, to: ThreadState) {
    match Dispatch(from, to)
    case VMToJava => cur == InVm
    case FromUnsafe => from == InJava ==> to == InNative || to == InVm
    case SafeToVM => true
    case IllegalStateChange => true
  }

  /** The thread state after `transition(from, to)` when it started at `cur`. */
  function After(cur: ThreadState, from: ThreadState, to: ThreadState): ThreadState {
    if Legal(from, to) then to else cur
  }

  /** The (from, to) pair of a ThreadStateTransition instantiation. */
  datatype Pair = Pair(from: ThreadState, to: ThreadState)

  /**
   * The five typedefs: ThreadInVMfromJava, ThreadInVMfromJavaNoAsyncException (the same
   * pair, ASYNC false), ThreadInVMfromNative, ThreadBlockInVM, ThreadToNativeFromVM.
   */
  const TypedefPairs: seq<Pair> :=
    [Pair(InJava, InVm), Pair(InJava, InVm), Pair(InNative, InVm), Pair(InVm, Blocked), Pair(InVm, InNative)]

  /** A scope that enters `to` from `from` and leaves back to `from` passes every check. */
  predicate RoundTrips(from: ThreadState, to: ThreadState) {
    && Legal(from, to) && PathAsserts(from, from, to)
    && Legal(to, from) && PathAsserts(to, to, from)
  }

  /**
   * Every typedef'd pair is legal in both directions, its asserts hold in both
   * directions when the thread starts in FROM, and the destructor brings the
   * thread back to FROM.
   */
  lemma TypedefPairsRoundTrip(k: nat)
    requires k < |TypedefPairs|
    ensures RoundTrips(TypedefPairs[k].from, TypedefPairs[k].to)
    ensures var p := TypedefPairs[k]; After(After(p.from, p.from, p.to), p.to, p.from) == p.from
  {
  }

  /**
   * ThreadInVMfromUnknown (ThreadInStatefromUnknown<_thread_in_vm>) can be opened from
   * every state other than in_vm and always restores that state on exit.
   */
  lemma InVmFromUnknownRoundTrip(s: ThreadState)
    requires s != InVm
    ensures RoundTrips(s, InVm)
    ensures After(After(s, s, InVm), InVm, s) == s
  {
  }

  /**
   * JvmtiThreadEventTransition (ThreadInStatefromUnknown<_thread_in_native>) is only
   * usable from in_vm: from in_Java the way back trips VMToJava's assert, and from any
   * other state one of the two directions is an illegal state change.
   */
  lemma NativeFromUnknownRoundTrip(s: ThreadState)
    requires s != InNative
    ensures RoundTrips(s, InNative) <==> s == InVm
    ensures s == InJava ==> Legal(s, InNative) && Legal(InNative, s) && !PathAsserts(InNative, InNative, s)
  {
  }

  /** A JavaThread; only its state field is modelled. */
  class JavaThread {
    var state: ThreadState

    constructor (s: ThreadState)
      ensures state == s
    {
      state := s;
    }

    /** TransitionFromSafeToVM::trans. */
    method TransFromSafeToVM(from: ThreadState, to: ThreadState)
      requires from == InNative || from == Blocked
      requires to == InVm
      modifies this
      ensures state == InVm
    {
      state := to;
    }

    /** TransitionFromUnsafe::trans. */
    method TransFromUnsafe(from: ThreadState, to: ThreadState)
      requires from != InNative && from != Blocked
      requires to != InJava
      requires from == InJava ==> to == InNative || to == InVm
      modifies this
      ensures state == to
    {
      state := to;
    }

    /** TransitionFromVMToJava::trans; `to` is in_Java when called from the dispatch. */
    method TransFromVMToJava(from: ThreadState, to: ThreadState)
      requires state == InVm
      modifies this
      ensures state == to
    {
      state := to;
    }

    /**
     * ThreadStateTransitionBase::transition. `fatal` stands for the VM stopping with
     * "Illegal state change", which leaves the state as it was.
     */
    method Transition(from: ThreadState, to: ThreadState) returns (fatal: bool)
      requires PathAsserts(state, from, to)
      modifies this
      ensures fatal <==> !Legal(from, to)
      ensures state == After(old(state), from, to)
    {
      if to == InJava {
        TransFromVMToJava(from, to);
        return false;
      }
      if IsUnsafe(from) {
        TransFromUnsafe(from, to);
        return false;
      }
      if IsSafe(from) && to == InVm {
        TransFromSafeToVM(from, to);
        return false;
      }
      return true;
    }
  }

  /** ThreadStateTransition<JTS_FROM, JTS_TO>: FROM -> TO on entry, TO -> FROM on exit. */
  class ThreadStateTransition {
    const thread: JavaThread
    const from: ThreadState
    const to: ThreadState

    constructor (thread: JavaThread, from: ThreadState, to: ThreadState)
      requires PathAsserts(thread.state, from, to)
      modifies thread
      ensures this.thread == thread && this.from == from && this.to == to
      ensures thread.state == After(old(thread.state), from, to)
    {
      this.thread := thread;
      this.from := from;
      this.to := to;
      new;
      var _ := thread.Transition(from, to);
    }

    /** The destructor. */
    method Exit()
      requires PathAsserts(thread.state, to, from)
      modifies thread
      ensures thread.state == After(old(thread.state), to, from)
    {
      var _ := thread.Transition(to, from);
    }
  }

  /** A block scoped by one of the typedef'd transitions leaves the thread where it found it. */
  method InTypedefScope(thread: JavaThread, k: nat)
    requires k < |TypedefPairs|
    requires thread.state == TypedefPairs[k].from
    modifies thread
    ensures thread.state == old(thread.state)
  {
    TypedefPairsRoundTrip(k);
    var p := TypedefPairs[k];
    var t := new ThreadStateTransition(thread, p.from, p.to);
    assert thread.state == p.to;
    t.Exit();
  }

  /**
   * ThreadInStatefromUnknown<JTS_TO>. `current` is Thread::current() when it is a
   * JavaThread, and null when there is no current thread or it is not a Java thread.
   */
  class ThreadInStateFromUnknown {
    const target: ThreadState
    var thread: JavaThread?   // _thread: null when the constructor did nothing
    var saved: ThreadState    // _state

    constructor (current: JavaThread?, target: ThreadState)
      requires current != null && current.state != target ==> PathAsserts(current.state, current.state, target)
      modifies if current == null then {} else {current}
      ensures this.target == target
      ensures current == null ==> thread == null
      ensures current != null && old(current.state) == target ==> thread == null && current.state == target
      ensures current != null && old(current.state) != target ==>
        thread == current && saved == old(current.state) && current.state == After(saved, saved, target)
    {
      this.target := target;
      if current == null {
        thread := null;
        saved := target;
      } else if current.state == target {
        thread := null;
        saved := current.state;
      } else {
        thread := current;
        saved := current.state;
      }
      new;
      if thread != null {
        var _ := thread.Transition(saved, target);
      }
    }

    /** The destructor: go back to the saved state if the constructor left it. */
    method Exit()
      requires thread != null ==> PathAsserts(thread.state, target, saved)
      modifies if thread == null then {} else {thread}
      ensures thread != null ==> thread.state == After(old(thread.state), target, saved)
    {
      if thread != null {
        var _ := thread.Transition(target, saved);
      }
    }
  }

  /** ThreadInVMfromUnknown restores whatever state the current Java thread was in. */
  method InVmFromUnknownScope(current: JavaThread?)
    modifies if current == null then {} else {current}
    ensures current != null ==> current.state == old(current.state)
  {
    if current != null && current.state != InVm {
      InVmFromUnknownRoundTrip(current.state);
    }
    var t := new ThreadInStateFromUnknown(current, InVm);
    t.Exit();
  }

  /** Identity of a Mutex. */
  type MutexId = nat

  /** The Mutex* variable that `_in_flight_mutex_addr` points at. */
  class MutexSlot {
    var mutex: Option<MutexId>

    constructor (m: Option<MutexId>)
      ensures mutex == m
    {
      mutex := m;
    }
  }

  /**
   * The effect of a sequence of ThreadBlockInVMWithDeadlockCheck exits sharing one
   * in-flight mutex slot; `shouldProcess[k]` says whether a safepoint or handshake was
   * pending at the k-th exit. Returns the number of releases.
   */
  function Releases(slot: Option<MutexId>, shouldProcess: seq<bool>): nat
    decreases |shouldProcess|
  {
    if shouldProcess == [] then 0
    else if shouldProcess[0] then
      (if slot.Some? then 1 else 0) + Releases(None, shouldProcess[1..])
    else Releases(slot, shouldProcess[1..])
  }

  /**
   * However many exits share the slot, the in-flight mutex is released at most once,
   * and never when the slot was empty.
   */
  lemma {:induction false} ReleasedAtMostOnce(slot: Option<MutexId>, shouldProcess: seq<bool>)
    ensures Releases(slot, shouldProcess) <= 1
    ensures slot.None? ==> Releases(slot, shouldProcess) == 0
  {
    if shouldProcess != [] {
      if shouldProcess[0] {
        NothingToRelease(shouldProcess[1..]);
      } else {
        ReleasedAtMostOnce(slot, shouldProcess[1..]);
      }
    }
  }

  lemma {:induction false} NothingToRelease(shouldProcess: seq<bool>)
    ensures Releases(None, shouldProcess) == 0
  {
    if shouldProcess != [] {
      NothingToRelease(shouldProcess[1..]);
    }
  }

  /** ThreadBlockInVMWithDeadlockCheck: blocked on entry, in_vm on exit. */
  class ThreadBlockInVMWithDeadlockCheck {
    const thread: JavaThread
    const inFlightMutexAddr: MutexSlot

    constructor (thread: JavaThread, inFlightMutexAddr: MutexSlot)
      modifies thread
      ensures this.thread == thread && this.inFlightMutexAddr == inFlightMutexAddr
      ensures thread.state == Blocked
    {
      this.thread := thread;
      this.inFlightMutexAddr := inFlightMutexAddr;
      new;
      thread.state := Blocked;
    }

    /**
     * release_mutex: release the partially acquired mutex, if any, and clear the slot so
     * that it cannot be released again.
     */
    method ReleaseMutexIfHeld() returns (released: Option<MutexId>)
      modifies inFlightMutexAddr
      ensures released == old(inFlightMutexAddr.mutex)
      ensures inFlightMutexAddr.mutex == None
    {
      var m := inFlightMutexAddr.mutex;
      released := None;
      if m.Some? {
        released := m;
        inFlightMutexAddr.mutex := None;
      }
    }

    /**
     * The destructor. `shouldProcess` is SafepointMechanism::should_process; the
     * safepoint processing itself is not modelled.
     */
    method Exit(shouldProcess: bool) returns (released: Option<MutexId>)
      modifies thread, inFlightMutexAddr
      ensures thread.state == InVm
      ensures shouldProcess ==> released == old(inFlightMutexAddr.mutex) && inFlightMutexAddr.mutex == None
      ensures !shouldProcess ==> released == None && inFlightMutexAddr.mutex == old(inFlightMutexAddr.mutex)
    {
      thread.state := InVm;
      released := None;
      if shouldProcess {
        released := ReleaseMutexIfHeld();
      }
    }
  }

  /**
   * A thread that blocks with the deadlock check once per element of `shouldProcess`,
   * every time with the same in-flight mutex slot: the number of releases is the one
   * Releases counts, so at most one.
   */
  method BlockRepeatedly(thread: JavaThread, slot: MutexSlot, shouldProcess: seq<bool>) returns (releases: nat)
    modifies thread, slot
    ensures releases == Releases(old(slot.mutex), shouldProcess)
    ensures releases <= 1
    ensures shouldProcess != [] ==> thread.state == InVm && (slot.mutex.None? <==> old(slot.mutex).None? || true in shouldProcess)
  {
    releases := 0;
    var i := 0;
    while i < |shouldProcess|
      invariant 0 <= i <= |shouldProcess|
      invariant releases + Releases(slot.mutex, shouldProcess[i..]) == Releases(old(slot.mutex), shouldProcess)
      invariant i > 0 ==> thread.state == InVm
      invariant slot.mutex.None? <==> old(slot.mutex).None? || true in shouldProcess[..i]
    {
      var b := new ThreadBlockInVMWithDeadlockCheck(thread, slot);
      var released := b.Exit(shouldProcess[i]);
      if released.Some? {
        releases := releases + 1;
      }
      assert shouldProcess[i..][1..] == shouldProcess[i + 1..];
      assert shouldProcess[..i + 1] == shouldProcess[..i] + [shouldProcess[i]];
      i := i + 1;
    }
    assert shouldProcess[..i] == shouldProcess;
    ReleasedAtMostOnce(old(slot.mutex), shouldProcess);
  }
}
