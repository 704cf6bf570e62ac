/**
 * java.util.concurrent.StructuredTaskScope: the owner-side state machine of a scope,
 * the write-once result slot of its subtasks, the five built-in completion policies and
 * the configuration record.
 *
 * Threads are not modelled. The steps other threads take (a subtask finishing, the
 * timeout timer firing) are methods that a caller may invoke in any order between the
 * owner's operations, each running atomically. The ThreadFlock is a set of live subtask
 * ids with its shutdown flag, the interrupts it delivered and the wakeups it received.
 */
module TaskScope {
  import opened Wrappers

  /** The identity of an object a task returned. */
  type Obj = nat

  /** The thread calling an operation: the scope's owner, the timer thread or a subtask's thread. */
  datatype ThreadId = Owner | TimerThread | SubtaskThread(id: nat)

  /** The exceptions the modelled code throws, and those a task may throw. */
  datatype Throwable =
    | TaskException(id: nat)
    | IllegalStateException(message: string)
    | IllegalArgumentException
    | WrongThreadException(message: string)
    | RejectedExecutionException(message: string)
    | NoSuchElementException(message: string)
    | TimeoutException
    | InterruptedException
    | ExecutionException(cause: Throwable)

  const NotOwnerMessage := "Current thread not owner"
  const ClosedMessage := "Task scope is closed"
  const AlreadyJoinedMessage := "Already joined"
  const RejectedMessage := "Rejected by thread factory"
  const OwnerDidNotJoinMessage := "Owner did not join"
  const JoinDidNotCompleteMessage := "join did not complete"
  const ResultUnavailableMessage := "Result is unavailable or subtask did not complete successfully"
  const ExceptionUnavailableMessage := "Exception is unavailable or subtask did not complete with exception"
  const NoSubtasksCompletedMessage := "No subtasks completed"

  // ---------------------------------------------------------------------------
  // The result slot of a subtask
  // ---------------------------------------------------------------------------

  /** Subtask.State. */
  datatype SubtaskState = Unavailable | Success | Failed

  /**
   * The values the `result` field of SubtaskImpl can hold: null, the task's non-null
   * result, the shared RESULT_NULL marker (an AltResult in state SUCCESS) for a null
   * result, or an AltResult in state FAILED with the exception thrown.
   */
  datatype Slot = Null | Plain(value: Obj) | ResultNull | FailedAlt(exception: Throwable)

  /** What a task's call() did: returned a value (null is None) or threw. */
  datatype TaskOutcome = Returned(value: Option<Obj>) | Threw(exception: Throwable)

  /** SubtaskImpl.state(): null is UNAVAILABLE, an AltResult its own state, anything else SUCCESS. */
  function StateOf(s: Slot): (st: SubtaskState)
    ensures st == Unavailable <==> s.Null?
    ensures st == Failed <==> s.FailedAlt?
  {
    match s
    case Null => Unavailable
    case Plain(_) => Success
    case ResultNull => Success
    case FailedAlt(_) => Failed
  }

  /** The decoding half of SubtaskImpl.get(): the result in SUCCESS, null for RESULT_NULL. */
  function GetFrom(s: Slot): (r: Result<Option<Obj>, Throwable>)
    ensures r.Ok? <==> StateOf(s) == Success
    ensures r.Err? ==> r.error == IllegalStateException(ResultUnavailableMessage)
  {
    match s
    case Plain(v) => Ok(Some(v))
    case ResultNull => Ok(None)
    case _ => Err(IllegalStateException(ResultUnavailableMessage))
  }

  /** The decoding half of SubtaskImpl.exception(): the exception in FAILED. */
  function ExceptionFrom(s: Slot): (r: Result<Throwable, Throwable>)
    ensures r.Ok? <==> StateOf(s) == Failed
    ensures r.Err? ==> r.error == IllegalStateException(ExceptionUnavailableMessage)
  {
    match s
    case FailedAlt(e) => Ok(e)
    case _ => Err(IllegalStateException(ExceptionUnavailableMessage))
  }

  /**
   * The value SubtaskImpl.run stores for an outcome. Decoding it gives back exactly
   * what the task did: get() returns the value (null for a null result) and
   * exception() the exception thrown, and each of the two fails for the other outcome.
   */
  function SlotFor(o: TaskOutcome): (s: Slot)
    ensures StateOf(s) == (if o.Returned? then Success else Failed)
    ensures o.Returned? ==> GetFrom(s) == Ok(o.value) && ExceptionFrom(s).Err?
    ensures o.Threw? ==> ExceptionFrom(s) == Ok(o.exception) && GetFrom(s).Err?
  {
    match o
    case Returned(Some(v)) => Plain(v)
    case Returned(None) => ResultNull
    case Threw(e) => FailedAlt(e)
  }

  /** Every slot that is not null is what run stores for exactly one outcome. */
  lemma SlotDecodes(s: Slot)
    requires !s.Null?
    ensures s.FailedAlt? ==> SlotFor(Threw(ExceptionFrom(s).value)) == s
    ensures !s.FailedAlt? ==> SlotFor(Returned(GetFrom(s).value)) == s
    ensures forall o, o' :: SlotFor(o) == s && SlotFor(o') == s ==> o == o'
  {
  }

  // ---------------------------------------------------------------------------
  // Completion policies
  // ---------------------------------------------------------------------------

  /** What the AllSubtasks predicate may look at: the subtask and its result slot. */
  datatype SubtaskView = SubtaskView(id: nat, slot: Slot)

  /**
   * The built-in policies: allSuccessfulOrThrow, anySuccessfulResultOrThrow,
   * ignoreSuccessfulOrThrow, ignoreAll and all(isDone).
   */
  datatype PolicyKind =
    | AllSuccessful
    | AnySuccessful
    | IgnoreSuccessful
    | IgnoreAll
    | AllSubtasks(isDone: SubtaskView -> bool)

  /** The mutable fields of a policy: its fork list and its "first one wins" slots. */
  datatype PolicyFields = PolicyFields(subtasks: seq<Subtask>, firstException: Option<Throwable>,
                                       firstSuccess: Option<Subtask>)

  /** What result() returns: a stream of subtasks, or a value (null for Void). */
  datatype PolicyValue = Subtasks(subtasks: seq<Subtask>) | Value(value: Option<Obj>)

  /** The fields a policy of each kind has at all. */
  predicate FieldsFit(kind: PolicyKind, f: PolicyFields) {
    && (!(kind.AllSuccessful? || kind.AllSubtasks?) ==> f.subtasks == [])
    && (!kind.AnySuccessful? ==> f.firstSuccess.None?)
    && (kind.IgnoreAll? || kind.AllSubtasks? ==> f.firstException.None?)
  }

  /** Policy.onFork's default: reject a subtask that is not UNAVAILABLE, never cancel. */
  function DefaultOnFork(state: SubtaskState): (r: Result<bool, Throwable>)
    ensures r.Ok? <==> state == Unavailable
    ensures r.Ok? ==> !r.value
    ensures r.Err? ==> r.error == IllegalArgumentException
  {
    if state != Unavailable then Err(IllegalArgumentException) else Ok(false)
  }

  /** Policy.onComplete's default: reject a subtask that is UNAVAILABLE, never cancel. */
  function DefaultOnComplete(state: SubtaskState): (r: Result<bool, Throwable>)
    ensures r.Ok? <==> state != Unavailable
    ensures r.Ok? ==> !r.value
    ensures r.Err? ==> r.error == IllegalArgumentException
  {
    if state == Unavailable then Err(IllegalArgumentException) else Ok(false)
  }

  /**
   * onFork of each policy, for subtask `s` whose slot is `slot`: the new fields and
   * whether to cancel (or the exception thrown). AllSuccessful and AllSubtasks append
   * the subtask to their fork list; the others use the default.
   */
  function ForkStep(kind: PolicyKind, f: PolicyFields, s: Subtask, slot: Slot): (r: (PolicyFields, Result<bool, Throwable>))
    ensures kind.AllSuccessful? || kind.AllSubtasks? ==> r.0.subtasks == f.subtasks + [s]
    ensures !(kind.AllSuccessful? || kind.AllSubtasks?) ==> r.0.subtasks == f.subtasks
    ensures r.0.firstException == f.firstException && r.0.firstSuccess == f.firstSuccess
    ensures slot.Null? ==> r.1 == Ok(false)
    ensures FieldsFit(kind, f) ==> FieldsFit(kind, r.0)
  {
    match kind
    case AllSuccessful => (f.(subtasks := f.subtasks + [s]), Ok(false))
    case AllSubtasks(_) => (f.(subtasks := f.subtasks + [s]), Ok(false))
    case _ => (f, DefaultOnFork(StateOf(slot)))
  }

  /** Whether a policy's "first one wins" slot is already taken. */
  predicate Filled(kind: PolicyKind, f: PolicyFields) {
    if kind.AnySuccessful? then f.firstSuccess.Some? else f.firstException.Some?
  }

  /**
   * onComplete of each policy, for subtask `s` whose slot is `slot`: the new fields and
   * whether to cancel (or the exception thrown).
   *  - AllSuccessful and IgnoreSuccessful record the first failure's exception and ask
   *    to cancel exactly when they record it.
   *  - AnySuccessful records the first success, and asks to cancel exactly then; while no
   *    success exists it records the first failure's exception, without cancelling.
   *  - ignoreAll uses the default; AllSubtasks cancels iff its predicate holds.
   * A slot once filled is never overwritten, and the fork list is not touched.
   */
  function CompleteStep(kind: PolicyKind, f: PolicyFields, s: Subtask, slot: Slot): (r: (PolicyFields, Result<bool, Throwable>))
    ensures r.0.subtasks == f.subtasks
    ensures f.firstException.Some? ==> r.0.firstException == f.firstException
    ensures f.firstSuccess.Some? ==> r.0.firstSuccess == f.firstSuccess
    ensures StateOf(slot) != Unavailable ==> r.1.Ok?
    ensures FieldsFit(kind, f) ==> FieldsFit(kind, r.0)
    ensures kind.AllSuccessful? || kind.IgnoreSuccessful? ==>
      && (r.1 == Ok(true) <==> f.firstException.None? && slot.FailedAlt?)
      && (r.1 == Ok(true) ==> r.0.firstException == Some(slot.exception))
      && (r.1 != Ok(true) ==> r.0 == f)
    ensures kind.AnySuccessful? ==>
      && (r.1 == Ok(true) <==> f.firstSuccess.None? && StateOf(slot) == Success)
      && (r.1 == Ok(true) ==> r.0.firstSuccess == Some(s) && r.0.firstException == f.firstException)
      && (r.0.firstException != f.firstException ==>
            f.firstSuccess.None? && f.firstException.None? && slot.FailedAlt?
            && r.0.firstException == Some(slot.exception) && r.1 == Ok(false))
      && (r.0.firstSuccess != f.firstSuccess ==> r.1 == Ok(true))
    ensures kind.IgnoreAll? ==> r.0 == f && r.1 == DefaultOnComplete(StateOf(slot))
    ensures kind.AllSubtasks? ==> r.0 == f && r.1 == Ok(kind.isDone(SubtaskView(s.id, slot)))
    ensures Filled(kind, f) ==> Filled(kind, r.0)
    ensures Filled(kind, f) && !kind.AllSubtasks? ==> r.1 != Ok(true)
    ensures !kind.AllSubtasks? && r.1 == Ok(true) ==> !Filled(kind, f) && Filled(kind, r.0)
  {
    match kind
    case AllSuccessful =>
      if slot.FailedAlt? && f.firstException.None? then (f.(firstException := Some(slot.exception)), Ok(true))
      else (f, Ok(false))
    case IgnoreSuccessful =>
      if slot.FailedAlt? && f.firstException.None? then (f.(firstException := Some(slot.exception)), Ok(true))
      else (f, Ok(false))
    case AnySuccessful =>
      if f.firstSuccess.None? then
        if StateOf(slot) == Success then (f.(firstSuccess := Some(s)), Ok(true))
        else if f.firstException.None? then
          match ExceptionFrom(slot)
          case Ok(e) => (f.(firstException := Some(e)), Ok(false))
          case Err(x) => (f, Err(x))
        else (f, Ok(false))
      else (f, Ok(false))
    case IgnoreAll => (f, DefaultOnComplete(StateOf(slot)))
    case AllSubtasks(isDone) => (f, Ok(isDone(SubtaskView(s.id, slot))))
  }

  /**
   * A run of onComplete calls, one per completed subtask in the order they completed:
   * the final fields and how many calls asked to cancel.
   */
  function Completions(kind: PolicyKind, f: PolicyFields, cs: seq<(Subtask, Slot)>): (PolicyFields, nat)
    decreases |cs|
  {
    if cs == [] then (f, 0)
    else
      var step := CompleteStep(kind, f, cs[0].0, cs[0].1);
      var rest := Completions(kind, step.0, cs[1..]);
      (rest.0, rest.1 + if step.1 == Ok(true) then 1 else 0)
  }

  /**
   * For AllSuccessful, AnySuccessful and IgnoreSuccessful, however many subtasks
   * complete and in whatever order, the "first one wins" slot is filled at most once,
   * never overwritten, and at most one completion asks to cancel, namely the one that
   * filled it.
   */
  lemma {:induction false} FirstWinsAtMostOnce(kind: PolicyKind, f: PolicyFields, cs: seq<(Subtask, Slot)>)
    requires kind.AllSuccessful? || kind.AnySuccessful? || kind.IgnoreSuccessful?
    ensures Completions(kind, f, cs).1 <= 1
    ensures Filled(kind, f) ==> Completions(kind, f, cs).1 == 0
    ensures Completions(kind, f, cs).1 == 1 ==> Filled(kind, Completions(kind, f, cs).0)
    ensures Filled(kind, f) ==> Filled(kind, Completions(kind, f, cs).0)
    ensures f.firstException.Some? ==> Completions(kind, f, cs).0.firstException == f.firstException
    ensures f.firstSuccess.Some? ==> Completions(kind, f, cs).0.firstSuccess == f.firstSuccess
    decreases |cs|
  {
    if cs != [] {
      var step := CompleteStep(kind, f, cs[0].0, cs[0].1);
      FirstWinsAtMostOnce(kind, step.0, cs[1..]);
    }
  }

  /** ignoreAll never asks to cancel when every completed subtask has a result. */
  lemma {:induction false} IgnoreAllNeverCancels(f: PolicyFields, cs: seq<(Subtask, Slot)>)
    requires forall i :: 0 <= i < |cs| ==> !cs[i].1.Null?
    ensures Completions(IgnoreAll, f, cs) == (f, 0)
  {
    if cs != [] {
      IgnoreAllNeverCancels(f, cs[1..]);
    }
  }

  /** AllSubtasks asks to cancel once for every completion its predicate accepts. */
  function CountDone(isDone: SubtaskView -> bool, cs: seq<(Subtask, Slot)>): nat {
    if cs == [] then 0
    else (if isDone(SubtaskView(cs[0].0.id, cs[0].1)) then 1 else 0) + CountDone(isDone, cs[1..])
  }

  lemma {:induction false} AllSubtasksCancelsOnPredicate(isDone: SubtaskView -> bool, f: PolicyFields, cs: seq<(Subtask, Slot)>)
    ensures Completions(AllSubtasks(isDone), f, cs) == (f, CountDone(isDone, cs))
  {
    if cs != [] {
      AllSubtasksCancelsOnPredicate(isDone, f, cs[1..]);
    }
  }

  /** A policy object: its kind and the fields its onFork and onComplete update. */
  class Policy {
    const kind: PolicyKind
    var subtasks: seq<Subtask>
    var firstException: Option<Throwable>
    var firstSuccess: Option<Subtask>

    /** The factory methods: a new policy of the given kind, with nothing recorded. */
    constructor (kind: PolicyKind)
      ensures this.kind == kind && Fields() == PolicyFields([], None, None) && Valid()
    {
      this.kind := kind;
      subtasks := [];
      firstException := None;
      firstSuccess := None;
    }

    function Fields(): PolicyFields
      reads this
    {
      PolicyFields(subtasks, firstException, firstSuccess)
    }

    ghost predicate Valid()
      reads this
    {
      FieldsFit(kind, Fields())
    }

    /** onFork: the update and answer ForkStep describes. */
    method OnFork(s: Subtask) returns (r: Result<bool, Throwable>)
      modifies this
      ensures (Fields(), r) == ForkStep(kind, old(Fields()), s, s.result)
    {
      match kind
      case AllSuccessful =>
        subtasks := subtasks + [s];
        r := Ok(false);
      case AllSubtasks(_) =>
        subtasks := subtasks + [s];
        r := Ok(false);
      case _ =>
        r := DefaultOnFork(StateOf(s.result));
    }

    /**
     * onComplete: the update and answer CompleteStep describes. The compare-and-set of
     * the source is one atomic step here.
     */
    method OnComplete(s: Subtask) returns (r: Result<bool, Throwable>)
      modifies this
      ensures (Fields(), r) == CompleteStep(kind, old(Fields()), s, s.result)
    {
      var slot := s.result;
      match kind
      case AllSuccessful =>
        r := Ok(false);
        if slot.FailedAlt? && firstException.None? {
          firstException := Some(slot.exception);
          r := Ok(true);
        }
      case IgnoreSuccessful =>
        r := Ok(false);
        if slot.FailedAlt? && firstException.None? {
          firstException := Some(slot.exception);
          r := Ok(true);
        }
      case AnySuccessful =>
        r := Ok(false);
        if firstSuccess.None? {
          if StateOf(slot) == Success {
            firstSuccess := Some(s);
            r := Ok(true);
          } else if firstException.None? {
            var e := ExceptionFrom(slot);
            if e.Ok? {
              firstException := Some(e.value);
            } else {
              r := Err(e.error);
            }
          }
        }
      case IgnoreAll =>
        r := DefaultOnComplete(StateOf(slot));
      case AllSubtasks(isDone) =>
        r := Ok(isDone(SubtaskView(s.id, slot)));
    }

    /**
     * result(): AllSuccessful throws the first exception, else returns every forked
     * subtask in fork order; AnySuccessful returns the first success's value, else
     * throws the first exception, else NoSuchElementException; IgnoreSuccessful throws
     * the first exception, else returns null; ignoreAll returns null; AllSubtasks
     * returns every forked subtask in fork order.
     */
    function Result(): (r: Result<PolicyValue, Throwable>)
      reads this, if firstSuccess.Some? then {firstSuccess.value} else {}
      ensures (kind.AllSuccessful? || kind.IgnoreSuccessful?) ==>
        (r.Err? <==> firstException.Some?) && (r.Err? ==> r.error == firstException.value)
      ensures kind.AllSuccessful? && firstException.None? ==> r == Ok(Subtasks(subtasks))
      ensures kind.IgnoreSuccessful? && firstException.None? ==> r == Ok(Value(None))
      ensures kind.IgnoreAll? ==> r == Ok(Value(None))
      ensures kind.AllSubtasks? ==> r == Ok(Subtasks(subtasks))
      ensures kind.AnySuccessful? && firstSuccess.Some? && StateOf(firstSuccess.value.result) == Success ==>
        r == Ok(Value(GetFrom(firstSuccess.value.result).value))
      ensures kind.AnySuccessful? && firstSuccess.None? ==>
        r == Err(if firstException.Some? then firstException.value
                 else NoSuchElementException(NoSubtasksCompletedMessage))
    {
      match kind
      case AllSuccessful =>
        if firstException.Some? then Err(firstException.value) else Ok(Subtasks(subtasks))
      case AnySuccessful =>
        if firstSuccess.Some? then
          match GetFrom(firstSuccess.value.result)
          case Ok(v) => Ok(Value(v))
          case Err(e) => Err(e)
        else if firstException.Some? then Err(firstException.value)
        else Err(NoSuchElementException(NoSubtasksCompletedMessage))
      case IgnoreSuccessful =>
        if firstException.Some? then Err(firstException.value) else Ok(Value(None))
      case IgnoreAll => Ok(Value(None))
      case AllSubtasks(_) => Ok(Subtasks(subtasks))
    }
  }

  // ---------------------------------------------------------------------------
  // Configuration
  // ---------------------------------------------------------------------------

  /** A ThreadFactory: the default virtual-thread factory or one supplied by the user. */
  datatype ThreadFactory = VirtualThreadFactory | CustomFactory(id: nat)

  /** A Duration, in nanoseconds. */
  type Duration = int

  /** ConfigImpl: thread factory, name (null is None) and timeout (null is None). */
  datatype Config = Config(threadFactory: ThreadFactory, name: Option<string>, timeout: Option<Duration>)
  {
    /** withThreadFactory: a copy with a new factory and the same name and timeout. */
    function WithThreadFactory(factory: ThreadFactory): (c: Config)
      ensures c.threadFactory == factory && c.name == name && c.timeout == timeout
    {
      Config(factory, name, timeout)
    }

    /** withName: a copy with a new name and the same factory and timeout. */
    function WithName(n: string): (c: Config)
      ensures c.name == Some(n) && c.threadFactory == threadFactory && c.timeout == timeout
    {
      Config(threadFactory, Some(n), timeout)
    }

    /** withTimeout: a copy with a new timeout and the same factory and name. */
    function WithTimeout(d: Duration): (c: Config)
      ensures c.timeout == Some(d) && c.threadFactory == threadFactory && c.name == name
    {
      Config(threadFactory, name, Some(d))
    }
  }

  /** ConfigImpl.defaultConfig: virtual threads, no name, no timeout. */
  function DefaultConfig(): (c: Config)
    ensures c.threadFactory == VirtualThreadFactory && c.name.None? && c.timeout.None?
  {
    Config(VirtualThreadFactory, None, None)
  }

  /**
   * The with* copies touch one field each: applied to different fields they commute,
   * and applied twice to the same field the later one wins.
   */
  lemma WithersCommuteAndOverride(c: Config, f: ThreadFactory, n: string, n': string, d: Duration, d': Duration)
    ensures c.WithName(n).WithTimeout(d) == c.WithTimeout(d).WithName(n)
    ensures c.WithThreadFactory(f).WithName(n) == c.WithName(n).WithThreadFactory(f)
    ensures c.WithThreadFactory(f).WithTimeout(d) == c.WithTimeout(d).WithThreadFactory(f)
    ensures c.WithName(n).WithName(n') == c.WithName(n')
    ensures c.WithTimeout(d).WithTimeout(d') == c.WithTimeout(d')
  {
  }

  // ---------------------------------------------------------------------------
  // The thread flock
  // ---------------------------------------------------------------------------

  /** The ThreadFlock of a scope: live subtask threads, admission flag, interrupts and wakeups. */
  class Flock {
    var shutdown: bool
    var threads: set<nat>
    var interrupted: multiset<nat>
    var wakeups: nat

    constructor ()
      ensures !shutdown && threads == {} && interrupted == multiset{} && wakeups == 0
    {
      shutdown := false;
      threads := {};
      interrupted := multiset{};
      wakeups := 0;
    }

    /** start: admit a thread unless shut down (ThreadFlock.start then throws IllegalStateException). */
    method Start(id: nat) returns (started: bool)
      modifies this`threads
      ensures started == !shutdown
      ensures threads == if started then old(threads) + {id} else old(threads)
    {
      started := !shutdown;
      if started {
        threads := threads + {id};
      }
    }

    method Shutdown()
      modifies this`shutdown
      ensures shutdown
    {
      shutdown := true;
    }

    /** implInterruptAll: interrupt every live thread except the caller's own. */
    method InterruptAll(current: ThreadId)
      modifies this`interrupted
      ensures interrupted == old(interrupted) + multiset(Others(threads, current))
    {
      interrupted := interrupted + multiset(Others(threads, current));
    }

    method Wakeup()
      modifies this`wakeups
      ensures wakeups == old(wakeups) + 1
    {
      wakeups := wakeups + 1;
    }

    /** A subtask's thread terminates and leaves the flock. */
    method Exit(id: nat)
      modifies this`threads
      ensures threads == old(threads) - {id}
    {
      threads := threads - {id};
    }

    /** close: shut down and wait until every thread has terminated. */
    method Close()
      modifies this`shutdown, this`threads
      ensures shutdown && threads == {}
    {
      shutdown := true;
      threads := {};
    }
  }

  /** The live threads other than the caller's own. */
  function Others(threads: set<nat>, current: ThreadId): (r: set<nat>)
    ensures r <= threads
    ensures current.SubtaskThread? ==> current.id !in r && r == threads - {current.id}
    ensures !current.SubtaskThread? ==> r == threads
  {
    if current.SubtaskThread? then threads - {current.id} else threads
  }

  // ---------------------------------------------------------------------------
  // Subtasks
  // ---------------------------------------------------------------------------

  /** SubtaskImpl: the scope it belongs to, its fork number and its result slot. */
  class Subtask {
    const scope: Scope
    const id: nat
    var result: Slot

    constructor (scope: Scope, id: nat)
      ensures this.scope == scope && this.id == id && result == Null
    {
      this.scope := scope;
      this.id := id;
      result := Null;
    }

    /** state(): it agrees with what get and exception can deliver. */
    function State(): (st: SubtaskState)
      reads this
      ensures st == Unavailable <==> result == Null
      ensures st == Success <==> GetFrom(result).Ok?
      ensures st == Failed <==> ExceptionFrom(result).Ok?
    {
      StateOf(result)
    }

    /**
     * get(): the result in SUCCESS (null for a null result), IllegalStateException
     * otherwise, and IllegalStateException for an owner that has not joined.
     */
    function Get(caller: ThreadId): (r: Result<Option<Obj>, Throwable>)
      reads this, scope
      ensures caller == Owner && !scope.joined ==> r.Err? && r.error.IllegalStateException?
      ensures caller == Owner && !scope.joined ==> r == Err(scope.EnsureJoinedIfOwner(caller).value)
      ensures r.Ok? <==> (caller != Owner || scope.joined) && StateOf(result) == Success
      ensures caller != Owner || scope.joined ==> r == GetFrom(result)
    {
      match scope.EnsureJoinedIfOwner(caller)
      case Some(e) => Err(e)
      case None => GetFrom(result)
    }

    /**
     * exception(): the exception in FAILED, IllegalStateException otherwise, and
     * IllegalStateException for an owner that has not joined.
     */
    function Exception(caller: ThreadId): (r: Result<Throwable, Throwable>)
      reads this, scope
      ensures caller == Owner && !scope.joined ==> r.Err? && r.error.IllegalStateException?
      ensures caller == Owner && !scope.joined ==> r == Err(scope.EnsureJoinedIfOwner(caller).value)
      ensures r.Ok? <==> (caller != Owner || scope.joined) && StateOf(result) == Failed
      ensures caller != Owner || scope.joined ==> r == ExceptionFrom(result)
    {
      match scope.EnsureJoinedIfOwner(caller)
      case Some(e) => Err(e)
      case None => ExceptionFrom(result)
    }

    /**
     * run: the subtask's task finished with `outcome` and its thread now terminates.
     * Unless the scope is cancelled by then, the slot (null until now) receives the
     * outcome and the policy's onComplete runs, possibly cancelling the scope; when the
     * scope is cancelled nothing is written and the subtask stays UNAVAILABLE.
     */
    method Run(outcome: TaskOutcome) returns (completed: bool)
      requires scope.Valid()
      requires id < |scope.forked| && scope.forked[id] == this
      requires id in scope.flock.threads
      modifies this`result, scope`cancelled, scope.flock, scope.policy
      ensures scope.Valid()
      ensures completed == !old(scope.cancelled)
      ensures old(result) == Null
      ensures result == if completed then SlotFor(outcome) else Null
      ensures scope.flock.threads == old(scope.flock.threads) - {id}
      ensures !completed ==>
        && unchanged(scope.policy) && scope.cancelled
        && scope.flock.shutdown == old(scope.flock.shutdown)
        && scope.flock.interrupted == old(scope.flock.interrupted)
        && scope.flock.wakeups == old(scope.flock.wakeups)
      ensures completed ==>
        var step := CompleteStep(scope.policy.kind, old(scope.policy.Fields()), this, SlotFor(outcome));
        scope.policy.Fields() == step.0 && (scope.cancelled <==> old(scope.cancelled) || step.1 == Ok(true))
      ensures completed && scope.cancelled ==>
        && scope.flock.shutdown
        && scope.flock.interrupted ==
             old(scope.flock.interrupted) + multiset(Others(old(scope.flock.threads), SubtaskThread(id)))
        && scope.flock.wakeups == old(scope.flock.wakeups) + 1
      ensures completed && !scope.cancelled ==>
        && scope.flock.shutdown == old(scope.flock.shutdown)
        && scope.flock.interrupted == old(scope.flock.interrupted)
        && scope.flock.wakeups == old(scope.flock.wakeups)
      ensures old(scope.joined) ==> !completed && unchanged(scope.policy)
    {
      var s := scope;
      if s.cancelled {
        s.flock.Exit(id);
        return false;
      }
      result := SlotFor(outcome);
      s.OnComplete(this);
      s.flock.Exit(id);
      completed := true;
      RunKeepsScopeValid(s, this, old(s.policy.Fields()), old(s.flock.threads), old(s.cancelled));
    }
  }

  /** The invariant-preservation argument of Subtask.Run, on the state it leaves behind. */
  lemma RunKeepsScopeValid(s: Scope, t: Subtask, before: PolicyFields, liveBefore: set<nat>, wasCancelled: bool)
    requires t.scope == s && t.id < |s.forked| && s.forked[t.id] == t
    requires !wasCancelled
    requires s.policy.Valid()
    requires StateOf(t.result) != Unavailable
    requires s.flock.threads == liveBefore - {t.id}
    requires s.policy.Fields() == CompleteStep(s.policy.kind, before, t, t.result).0
    requires FieldsFit(s.policy.kind, before)
    requires s.policy.kind.AllSuccessful? || s.policy.kind.AllSubtasks? ==> before.subtasks == s.forked
    requires before.firstSuccess.Some? ==> before.firstSuccess.value in s.forked && StateOf(before.firstSuccess.value.result) == Success
    requires before.firstException.Some? ==>
      exists i :: 0 <= i < |s.forked| && s.forked[i].result == FailedAlt(before.firstException.value)
    ensures s.policy.kind.AllSuccessful? || s.policy.kind.AllSubtasks? ==> s.policy.subtasks == s.forked
    ensures s.policy.firstSuccess.Some? ==> s.policy.firstSuccess.value in s.forked && StateOf(s.policy.firstSuccess.value.result) == Success
    ensures s.policy.firstException.Some? ==>
      exists i :: 0 <= i < |s.forked| && s.forked[i].result == FailedAlt(s.policy.firstException.value)
  {
    var step := CompleteStep(s.policy.kind, before, t, t.result);
    if s.policy.firstException.Some? && s.policy.firstException != before.firstException {
      assert s.forked[t.id].result == FailedAlt(s.policy.firstException.value);
    }
  }

  // ---------------------------------------------------------------------------
  // The scope
  // ---------------------------------------------------------------------------

  /** The timeout's timer task: none, scheduled, run, or cancelled before running. */
  datatype TimerTask = NoTimer | Pending | Ran | CancelledTask

  /** Future.cancel(false) on the timer task: only a task that has not run is stopped. */
  function CancelTimer(t: TimerTask): (r: TimerTask)
    ensures r != Pending
    ensures t != Pending ==> r == t
  {
    if t == Pending then CancelledTask else t
  }

  /** join's wrapping of what result() threw in an ExecutionException. */
  function WrapResult(r: Result<PolicyValue, Throwable>): (w: Result<PolicyValue, Throwable>)
    ensures w.Ok? <==> r.Ok?
    ensures w.Ok? ==> w.value == r.value
    ensures w.Err? ==> w.error == ExecutionException(r.error)
  {
    match r
    case Ok(v) => Ok(v)
    case Err(e) => Err(ExecutionException(e))
  }

  class Scope {
    const policy: Policy
    const config: Config
    const flock: Flock
    var needToJoin: bool
    var joined: bool
    var closed: bool
    var timer: TimerTask
    var cancelled: bool
    var timeoutExpired: bool
    /** Every subtask forked so far, in fork order; subtask `i` has id `i`. */
    var forked: seq<Subtask>

    /**
     * The flag discipline:
     *  - a timeout expires only together with cancellation;
     *  - the flock is shut down exactly when the scope is cancelled or closed;
     *  - cancellation woke the joiner exactly once and interrupted each thread at most once;
     *  - a closed scope has no live thread; a joined one has none unless cancelled, no
     *    pending timer and no expired timeout;
     *  - a live subtask has not written its slot;
     *  - the policy's fork list and first-success/first-exception slots describe forked
     *    subtasks.
     */
    ghost predicate Valid()
      reads this, flock, policy, forked
    {
      && policy.Valid()
      && (timeoutExpired ==> cancelled)
      && (flock.shutdown <==> cancelled || closed)
      && flock.wakeups == (if cancelled then 1 else 0)
      && (!cancelled ==> flock.interrupted == multiset{})
      && (forall t :: flock.interrupted[t] <= 1)
      && (closed ==> flock.threads == {})
      && (joined ==> (cancelled || flock.threads == {}) && timer != Pending && !timeoutExpired)
      && (forall i :: 0 <= i < |forked| ==> forked[i].id == i && forked[i].scope == this)
      && (forall t :: t in flock.threads ==> t < |forked| && forked[t].result == Null)
      && (policy.kind.AllSuccessful? || policy.kind.AllSubtasks? ==> policy.subtasks == forked)
      && (policy.firstSuccess.Some? ==>
            policy.firstSuccess.value in forked && StateOf(policy.firstSuccess.value.result) == Success)
      && (policy.firstException.Some? ==>
            exists i :: 0 <= i < |forked| && forked[i].result == FailedAlt(policy.firstException.value))
    }

    /**
     * open(policy, config): a new scope with a new flock; when the configuration has a
     * timeout, the timer task is scheduled.
     */
    constructor Open(policy: Policy, config: Config)
      requires policy.Valid() && policy.Fields() == PolicyFields([], None, None)
      ensures Valid() && fresh(flock)
      ensures this.policy == policy && this.config == config
      ensures !needToJoin && !joined && !closed && !cancelled && !timeoutExpired && forked == []
      ensures timer == if config.timeout.Some? then Pending else NoTimer
      ensures !flock.shutdown && flock.threads == {}
    {
      this.policy := policy;
      this.config := config;
      flock := new Flock();
      needToJoin := false;
      joined := false;
      closed := false;
      cancelled := false;
      timeoutExpired := false;
      forked := [];
      timer := if config.timeout.Some? then Pending else NoTimer;
    }

    /** ensureOwner: WrongThreadException for any thread but the owner. */
    function EnsureOwner(caller: ThreadId): (r: Option<Throwable>)
      ensures r.Some? <==> caller != Owner
      ensures r.Some? ==> r.value == WrongThreadException(NotOwnerMessage)
    {
      if caller != Owner then Some(WrongThreadException(NotOwnerMessage)) else None
    }

    /** ensureOpen: IllegalStateException once closed. */
    function EnsureOpen(): (r: Option<Throwable>)
      reads this
      ensures r.Some? <==> closed
      ensures r.Some? ==> r.value == IllegalStateException(ClosedMessage)
    {
      if closed then Some(IllegalStateException(ClosedMessage)) else None
    }

    /**
     * ensureJoinedIfOwner: IllegalStateException for the owner before join completed,
     * saying whether join was never attempted after a fork or did not complete.
     */
    function EnsureJoinedIfOwner(caller: ThreadId): (r: Option<Throwable>)
      reads this
      ensures r.Some? <==> caller == Owner && !joined
      ensures r.Some? ==> r.value == IllegalStateException(
        if needToJoin then OwnerDidNotJoinMessage else JoinDidNotCompleteMessage)
    {
      if caller == Owner && !joined then
        Some(IllegalStateException(if needToJoin then OwnerDidNotJoinMessage else JoinDidNotCompleteMessage))
      else None
    }

    /**
     * isCancelled. In a valid scope that is still open it says whether the flock is shut
     * down; an expired timeout means cancelled; a joined scope that is not cancelled has
     * no live thread.
     */
    function IsCancelled(): (r: bool)
      reads this, flock, policy, forked
      ensures Valid() && !closed ==> (r <==> flock.shutdown)
      ensures Valid() && timeoutExpired ==> r
      ensures Valid() && joined && !r ==> flock.threads == {}
    {
      cancelled
    }

    /**
     * cancelExecution, called from thread `current`: only the call that moves
     * `cancelled` from false to true shuts the flock down, interrupts every other live
     * thread and wakes the joiner; any later call changes nothing.
     */
    method CancelExecution(current: ThreadId) returns (won: bool)
      modifies this`cancelled, flock
      ensures won == !old(cancelled)
      ensures cancelled
      ensures !won ==> unchanged(flock)
      ensures won ==>
        && flock.shutdown
        && flock.threads == old(flock.threads)
        && flock.interrupted == old(flock.interrupted) + multiset(Others(old(flock.threads), current))
        && flock.wakeups == old(flock.wakeups) + 1
    {
      won := !cancelled;
      if won {
        cancelled := true;
        flock.Shutdown();
        flock.InterruptAll(current);
        flock.Wakeup();
      }
    }

    /**
     * The timer task scheduled by scheduleTimeout fires: unless already cancelled, the
     * timeout expires and execution is cancelled.
     */
    method TimerFires()
      requires Valid() && timer == Pending
      modifies this`timer, this`timeoutExpired, this`cancelled, flock
      ensures Valid()
      ensures timer == Ran && cancelled
      ensures timeoutExpired == (old(timeoutExpired) || !old(cancelled))
      ensures old(cancelled) ==> unchanged(flock)
      ensures !old(cancelled) ==>
        && flock.shutdown && flock.threads == old(flock.threads)
        && flock.interrupted == old(flock.interrupted) + multiset(old(flock.threads))
        && flock.wakeups == old(flock.wakeups) + 1
    {
      timer := Ran;
      if !cancelled {
        timeoutExpired := true;
        var _ := CancelExecution(TimerThread);
      }
    }

    /** cancelTimeout. */
    method CancelTimeout()
      modifies this`timer
      ensures timer == CancelTimer(old(timer))
    {
      timer := CancelTimer(timer);
    }

    /**
     * The scope's onComplete: give the completed subtask (which must have a result) to
     * the policy and cancel execution if the policy asks to.
     */
    method OnComplete(s: Subtask)
      requires StateOf(s.result) != Unavailable
      modifies this`cancelled, flock, policy
      ensures var step := CompleteStep(policy.kind, old(policy.Fields()), s, s.result);
        && policy.Fields() == step.0
        && step.1.Ok?
        && (cancelled <==> old(cancelled) || step.1 == Ok(true))
      ensures flock.threads == old(flock.threads)
      ensures !old(cancelled) && cancelled ==>
        && flock.shutdown
        && flock.interrupted == old(flock.interrupted) + multiset(Others(old(flock.threads), SubtaskThread(s.id)))
        && flock.wakeups == old(flock.wakeups) + 1
      ensures old(cancelled) || !cancelled ==> unchanged(flock)
    {
      var cancel := policy.OnComplete(s);
      if cancel == Ok(true) {
        var _ := CancelExecution(SubtaskThread(s.id));
      }
    }

    /** The first step of fork: create the next subtask and hand it to the policy. */
    method AddSubtask() returns (s: Subtask)
      requires Valid()
      modifies this`forked, policy
      ensures Valid()
      ensures fresh(s) && s.result == Null && s.id == |old(forked)| && forked == old(forked) + [s]
      ensures policy.Fields() == ForkStep(policy.kind, old(policy.Fields()), s, Null).0
    {
      s := new Subtask(this, |forked|);
      forked := forked + [s];
      assert forked[..|old(forked)|] == old(forked);
      if policy.firstException.Some? {
        ghost var i :| 0 <= i < |old(forked)| && old(forked)[i].result == FailedAlt(policy.firstException.value);
        assert forked[i] == old(forked)[i];
      }
      // No built-in policy asks to cancel from onFork.
      var cancel := policy.OnFork(s);
      assert cancel == Ok(false);
    }

    /**
     * fork, with `factoryAccepts` saying whether the thread factory returned a thread.
     * It fails for a thread other than the owner, a closed scope or a joined scope, and
     * then changes nothing. Otherwise it creates the next subtask and hands it to the
     * policy; then, unless the scope is cancelled, it starts a thread for it (or throws
     * RejectedExecutionException when the factory returned none, leaving `needToJoin` as
     * it was). A subtask forked into a cancelled scope never starts and stays UNAVAILABLE.
     */
    method Fork(caller: ThreadId, factoryAccepts: bool) returns (r: Result<Subtask, Throwable>)
      requires Valid()
      modifies this`needToJoin, this`forked, policy, flock
      ensures Valid()
      ensures caller != Owner ==>
        r == Err(WrongThreadException(NotOwnerMessage)) && unchanged(this, policy, flock)
      ensures caller == Owner && old(closed) ==>
        r == Err(IllegalStateException(ClosedMessage)) && unchanged(this, policy, flock)
      ensures caller == Owner && !old(closed) && old(joined) ==>
        r == Err(IllegalStateException(AlreadyJoinedMessage)) && unchanged(this, policy, flock)
      ensures caller == Owner && !old(closed) && !old(joined) ==>
        && |forked| == |old(forked)| + 1 && forked[..|old(forked)|] == old(forked)
        && var s := forked[|old(forked)|];
           && fresh(s) && s.result == Null
           && (r.Ok? ==> r.value == s && needToJoin)
           && (r.Err? <==> !cancelled && !factoryAccepts)
           && (r.Err? ==> r.error == RejectedExecutionException(RejectedMessage) && needToJoin == old(needToJoin))
           && flock.threads == (if !cancelled && factoryAccepts then old(flock.threads) + {s.id} else old(flock.threads))
           && policy.Fields() == ForkStep(policy.kind, old(policy.Fields()), s, Null).0
      ensures cancelled == old(cancelled)
      ensures flock.shutdown == old(flock.shutdown) && flock.interrupted == old(flock.interrupted)
      ensures flock.wakeups == old(flock.wakeups)
    {
      var e := EnsureOwner(caller);
      if e.Some? {
        return Err(e.value);
      }
      e := EnsureOpen();
      if e.Some? {
        return Err(e.value);
      }
      if joined {
        return Err(IllegalStateException(AlreadyJoinedMessage));
      }
      var s := AddSubtask();
      if !cancelled {
        if !factoryAccepts {
          return Err(RejectedExecutionException(RejectedMessage));
        }
        var _ := flock.Start(s.id);
      }
      needToJoin := true;
      return Ok(s);
    }

    /**
     * join, with `interrupted` saying whether the owner is interrupted while waiting.
     * The wait of flock.awaitAll is the moment it returns: when interrupted, when
     * execution was cancelled, or when no subtask thread is live. The first join clears
     * `needToJoin`; it throws InterruptedException when interrupted, and
     * ExecutionException(TimeoutException) when the timeout expired, without joining;
     * otherwise it cancels the timer, marks the scope joined and returns the policy's
     * result, a thrown cause wrapped in ExecutionException. A later join skips the
     * wait and returns the same.
     */
    method Join(caller: ThreadId, interrupted: bool) returns (r: Result<PolicyValue, Throwable>)
      requires Valid()
      requires caller == Owner && !closed && !joined && !interrupted ==> cancelled || flock.threads == {}
      modifies this`needToJoin, this`joined, this`timer
      ensures Valid()
      ensures caller != Owner ==> r == Err(WrongThreadException(NotOwnerMessage)) && unchanged(this)
      ensures caller == Owner && old(closed) ==> r == Err(IllegalStateException(ClosedMessage)) && unchanged(this)
      ensures caller == Owner && !old(closed) && old(joined) ==> r == WrapResult(policy.Result()) && unchanged(this)
      ensures caller == Owner && !old(closed) && !old(joined) ==>
        && !needToJoin
        && (interrupted ==> r == Err(InterruptedException) && !joined && timer == old(timer))
        && (!interrupted && timeoutExpired ==>
              r == Err(ExecutionException(TimeoutException)) && !joined && timer == old(timer))
        && (!interrupted && !timeoutExpired ==>
              joined && timer == CancelTimer(old(timer)) && r == WrapResult(policy.Result()))
    {
      var e := EnsureOwner(caller);
      if e.Some? {
        return Err(e.value);
      }
      e := EnsureOpen();
      if e.Some? {
        return Err(e.value);
      }
      if !joined {
        needToJoin := false;
        if interrupted {
          return Err(InterruptedException);
        }
        if timeoutExpired {
          return Err(ExecutionException(TimeoutException));
        }
        CancelTimeout();
        joined := true;
      }
      r := WrapResult(policy.Result());
    }

    /** The first step of close when join did not complete: cancel execution and the timer. */
    method CancelUnjoined()
      requires Valid() && !closed && !joined
      modifies this`cancelled, this`timer, flock
      ensures Valid() && cancelled && timer == CancelTimer(old(timer))
      ensures flock.threads == old(flock.threads)
      ensures old(cancelled) ==> flock.interrupted == old(flock.interrupted) && flock.wakeups == old(flock.wakeups)
      ensures !old(cancelled) ==>
        && flock.interrupted == old(flock.interrupted) + multiset(old(flock.threads))
        && flock.wakeups == old(flock.wakeups) + 1
    {
      var won := CancelExecution(Owner);
      assert won ==> flock.interrupted == multiset(Others(old(flock.threads), Owner));
      CancelTimeout();
    }

    /**
     * close: nothing once closed. Otherwise, when not joined, cancel execution and the
     * timer; then close the flock, waiting for every thread, and mark the scope closed;
     * finally throw "Owner did not join" exactly when `needToJoin` is still set,
     * clearing it.
     */
    method Close(caller: ThreadId) returns (r: Result<(), Throwable>)
      requires Valid()
      modifies this`needToJoin, this`closed, this`cancelled, this`timer, flock
      ensures Valid()
      ensures caller != Owner ==> r == Err(WrongThreadException(NotOwnerMessage)) && unchanged(this, flock)
      ensures caller == Owner && old(closed) ==> r == Ok(()) && unchanged(this, flock)
      ensures caller == Owner && !old(closed) ==>
        && closed && flock.shutdown && flock.threads == {}
        && (old(joined) ==> cancelled == old(cancelled) && timer == old(timer))
        && (!old(joined) ==> cancelled && timer == CancelTimer(old(timer)))
        && flock.interrupted == old(flock.interrupted)
             + (if !old(joined) && !old(cancelled) then multiset(old(flock.threads)) else multiset{})
        && flock.wakeups == old(flock.wakeups) + (if !old(joined) && !old(cancelled) then 1 else 0)
        && !needToJoin
        && (r == Err(IllegalStateException(OwnerDidNotJoinMessage)) <==> old(needToJoin))
        && (r == Ok(()) <==> !old(needToJoin))
    {
      var e := EnsureOwner(caller);
      if e.Some? {
        return Err(e.value);
      }
      if closed {
        return Ok(());
      }
      if !joined {
        CancelUnjoined();
      }
      assert Valid();
      flock.Close();
      closed := true;
      assert Valid();
      if needToJoin {
        needToJoin := false;
        return Err(IllegalStateException(OwnerDidNotJoinMessage));
      }
      return Ok(());
    }
  }

  /**
   * join called again gives the same answer: once a join completed, a subtask thread
   * that finishes in between writes no slot and leaves the policy alone, so the second
   * join returns what the first returned.
   */
  method JoinAgainAfterCompletion(s: Scope, t: Subtask, outcome: TaskOutcome)
    returns (first: Result<PolicyValue, Throwable>, second: Result<PolicyValue, Throwable>)
    requires s.Valid() && s.joined && !s.closed
    requires t.scope == s && t.id < |s.forked| && s.forked[t.id] == t && t.id in s.flock.threads
    modifies s, s.flock, s.policy, t
    ensures first.Ok? || first.error.ExecutionException?
    ensures second == first
  {
    first := s.Join(Owner, false);
    var completed := t.Run(outcome);
    assert !completed;
    second := s.Join(Owner, false);
  }

  /**
   * Once an AnySuccessful scope recorded a success, result() returns that subtask's
   * value: the recorded subtask's slot holds a success for good.
   */
  lemma AnySuccessfulResultAfterSuccess(s: Scope)
    requires s.Valid() && s.policy.kind.AnySuccessful? && s.policy.firstSuccess.Some?
    ensures s.policy.Result() == Ok(Value(GetFrom(s.policy.firstSuccess.value.result).value))
  {
  }

  /**
   * After join completed, the scope is cancelled or no thread is live, no timer task is
   * pending and the timeout has not expired. That no subtask completes afterwards, and
   * so the policy stays as join saw it, is stated by Subtask.Run.
   */
  lemma JoinedScopeIsQuiescent(s: Scope)
    requires s.Valid() && s.joined
    ensures s.cancelled || s.flock.threads == {}
    ensures !s.timeoutExpired && s.timer != Pending
  {
  }
}
