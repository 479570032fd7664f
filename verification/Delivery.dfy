// One delivery attempt: the async caller and the blocking writer it spawns, racing a
// cancellation token and a lock-wait deadline (src/mail/notifier.rs, on_run_complete_inner).

module Delivery {
  import opened Prelude

  const BODY_BYTE_CAP: nat := 64 * 1024

  /** What the call is given: whether the event is wanted, what rendering yields, the formatted message. */
  datatype Params = Params(fires: bool, subject: Option<string>, body: Option<string>, message: string)

  datatype IoKind = NotFound | PermissionDenied | Eloop | Eisdir | Einval | OtherIo

  datatype WriteResult = Written | IoFailed(kind: IoKind) | InnerTimeout | Panicked

  datatype Reason =
    | CancelledEarly
    | RenderFailed
    | BodyTooLarge
    | CancelledWaiting
    | LockWaitElapsed
    | Io(kind: IoKind)
    | Inconsistent
    | JoinFailed

  datatype Outcome = Sent | Skipped | Transient(reason: Reason) | Permanent(reason: Reason)

  datatype Caller = Fresh | Selecting | Joining(signalled: bool) | Returned(outcome: Outcome)

  /** The blocking task; it holds the lock from Locked until it ends. */
  datatype Worker = NotSpawned | Opening | Locking | Locked | Writing(done: nat) | Synced | Ended(result: WriteResult)

  /** The one-shot channel from worker to caller. */
  datatype Signal = Pending | Delivered | Dropped

  datatype State = State(
    caller: Caller,
    worker: Worker,
    signal: Signal,
    cancelled: bool,
    elapsed: bool,
    appended: string,
    synced: bool)

  const START := State(Fresh, NotSpawned, Pending, false, false, "", false)

  datatype Step =
    | Cancel
    | Elapse
    | Enter
    | Open(error: Option<IoKind>)
    | Lock(error: Option<IoKind>)
    | SendSignal
    | Write(n: nat)
    | WriteError(kind: IoKind)
    | SyncAll(error: Option<IoKind>)
    | Unlock
    | Panic
    | Poll
    | Join

  // ---------------------------------------------------------------------
  // Classification
  // ---------------------------------------------------------------------

  function MapIoError(kind: IoKind): Outcome {
    match kind
    case NotFound => Permanent(Io(kind))
    case PermissionDenied => Permanent(Io(kind))
    case Eloop => Permanent(Io(kind))
    case Eisdir => Permanent(Io(kind))
    case Einval => Permanent(Io(kind))
    case OtherIo => Transient(Io(kind))
  }

  function ClassifyBlockingFailure(result: WriteResult): Outcome {
    match result
    case IoFailed(kind) => MapIoError(kind)
    case InnerTimeout => Transient(LockWaitElapsed)
    case Written => Transient(Inconsistent)
    case Panicked => Transient(JoinFailed)
  }

  // ---------------------------------------------------------------------
  // The machine
  // ---------------------------------------------------------------------

  /** Everything up to spawning the worker happens without a pause. */
  function EnterCall(p: Params, s: State): State {
    if !p.fires then s.(caller := Returned(Skipped))
    else if s.cancelled then s.(caller := Returned(Transient(CancelledEarly)))
    else if p.subject.None? then s.(caller := Returned(Permanent(RenderFailed)))
    else if p.body.None? then s.(caller := Returned(Permanent(RenderFailed)))
    else if |p.body.value| > BODY_BYTE_CAP then s.(caller := Returned(Permanent(BodyTooLarge)))
    else s.(caller := Selecting, worker := Opening)
  }

  /** The biased select: first the signal, then the deadline around it, then cancellation. */
  function PollSelect(s: State): State {
    if s.signal.Delivered? then s.(caller := Joining(true))
    else if s.signal.Dropped? then s.(caller := Joining(false))
    else if s.elapsed then s.(caller := Returned(Transient(LockWaitElapsed)))
    else if s.cancelled then s.(caller := Returned(Transient(CancelledWaiting)))
    else s
  }

  function EndWith(s: State, result: WriteResult): State {
    s.(worker := Ended(result), signal := if s.signal.Pending? then Dropped else s.signal)
  }

  predicate Enabled(p: Params, s: State, step: Step) {
    match step
    case Cancel => true
    case Elapse => s.caller.Selecting?
    case Enter => s.caller.Fresh?
    case Open(_) => s.worker.Opening?
    case Lock(_) => s.worker.Locking?
    case SendSignal => s.worker.Locked?
    case Write(n) => s.worker.Writing? && 0 < n && s.worker.done + n <= |p.message|
    case WriteError(_) => s.worker.Writing?
    case SyncAll(_) => s.worker.Writing? && s.worker.done == |p.message|
    case Unlock => s.worker.Synced?
    case Panic => !s.worker.NotSpawned? && !s.worker.Ended?
    case Poll => s.caller.Selecting?
    case Join => s.caller.Joining? && s.worker.Ended?
  }

  function Next(p: Params, s: State, step: Step): State
    requires Enabled(p, s, step)
  {
    match step
    case Cancel => s.(cancelled := true)
    case Elapse => s.(elapsed := true)
    case Enter => EnterCall(p, s)
    case Open(error) => if error.Some? then EndWith(s, IoFailed(error.value)) else s.(worker := Locking)
    case Lock(error) => if error.Some? then EndWith(s, IoFailed(error.value)) else s.(worker := Locked)
    case SendSignal => s.(worker := Writing(0), signal := Delivered)
    case Write(n) =>
      var done := s.worker.done;
      s.(worker := Writing(done + n), appended := s.appended + p.message[done..done + n])
    case WriteError(kind) => EndWith(s, IoFailed(kind))
    case SyncAll(error) => if error.Some? then EndWith(s, IoFailed(error.value)) else s.(worker := Synced, synced := true)
    case Unlock => EndWith(s, Written)
    case Panic => EndWith(s, Panicked)
    case Poll => PollSelect(s)
    case Join =>
      var result := s.worker.result;
      s.(caller := Returned(if s.caller.signalled && result.Written? then Sent else ClassifyBlockingFailure(result)))
  }

  function Run(p: Params, s: State, steps: seq<Step>): Option<State> {
    if steps == [] then Some(s)
    else
      match Run(p, s, steps[..|steps| - 1])
      case None => None
      case Some(t) =>
        if Enabled(p, t, steps[|steps| - 1]) then Some(Next(p, t, steps[|steps| - 1])) else None
  }

  lemma {:induction false} RunAppend(p: Params, s: State, a: seq<Step>, b: seq<Step>)
    requires Run(p, s, a).Some?
    ensures Run(p, s, a + b) == Run(p, Run(p, s, a).value, b)
    decreases |b|
  {
    if b == [] {
      assert a + b == a;
    } else {
      assert (a + b)[..|a + b| - 1] == a + b[..|b| - 1];
      RunAppend(p, s, a, b[..|b| - 1]);
    }
  }

  // ---------------------------------------------------------------------
  // The invariant
  // ---------------------------------------------------------------------

  /** The lock has not been signalled: no byte is out and none is synced. */
  predicate Untouched(s: State) {
    s.appended == "" && !s.synced
  }

  predicate WorkerInv(p: Params, s: State) {
    match s.worker
    case NotSpawned => Untouched(s) && s.signal.Pending?
    case Opening => Untouched(s) && s.signal.Pending?
    case Locking => Untouched(s) && s.signal.Pending?
    case Locked => Untouched(s) && s.signal.Pending?
    case Writing(done) => done <= |p.message| && s.appended == p.message[..done] && !s.synced && s.signal.Delivered?
    case Synced => s.appended == p.message && s.synced && s.signal.Delivered?
    case Ended(result) =>
      && s.appended <= p.message
      && !s.signal.Pending?
      && !result.InnerTimeout?
      && (s.signal.Dropped? ==> Untouched(s) && !result.Written?)
      && (s.synced ==> s.appended == p.message)
      && (result.Written? ==> s.synced)
  }

  predicate CallerInv(s: State) {
    match s.caller
    case Fresh => s.worker.NotSpawned?
    case Selecting => !s.worker.NotSpawned?
    case Joining(signalled) => !s.worker.NotSpawned? && s.signal == (if signalled then Delivered else Dropped)
    case Returned(outcome) =>
      match outcome
      case Sent => s.worker == Ended(Written)
      case Skipped => s.worker.NotSpawned?
      case Transient(reason) =>
        (match reason
         case CancelledEarly => s.worker.NotSpawned? && s.cancelled
         case CancelledWaiting => !s.worker.NotSpawned? && s.cancelled
         case LockWaitElapsed => !s.worker.NotSpawned? && s.elapsed
         case Io(kind) => s.worker == Ended(IoFailed(kind)) && kind.OtherIo?
         case JoinFailed => s.worker == Ended(Panicked)
         case _ => false)
      case Permanent(reason) =>
        match reason
        case RenderFailed => s.worker.NotSpawned?
        case BodyTooLarge => s.worker.NotSpawned?
        case Io(kind) => s.worker == Ended(IoFailed(kind)) && !kind.OtherIo?
        case _ => false
  }

  predicate Inv(p: Params, s: State) {
    WorkerInv(p, s) && CallerInv(s)
  }

  lemma WriteKeeps(p: Params, s: State, n: nat)
    requires Inv(p, s) && Enabled(p, s, Write(n))
    ensures Inv(p, Next(p, s, Write(n)))
  {
    var done := s.worker.done;
    assert p.message[..done + n] == p.message[..done] + p.message[done..done + n];
  }

  lemma SyncKeeps(p: Params, s: State, error: Option<IoKind>)
    requires Inv(p, s) && Enabled(p, s, SyncAll(error))
    ensures Inv(p, Next(p, s, SyncAll(error)))
  {
    assert p.message[..|p.message|] == p.message;
  }

  /** Every step of the caller, the worker and the environment keeps the invariant. */
  lemma StepKeeps(p: Params, s: State, step: Step)
    requires Inv(p, s) && Enabled(p, s, step)
    ensures Inv(p, Next(p, s, step))
  {
    match step {
      case Write(n) => WriteKeeps(p, s, n);
      case SyncAll(error) => SyncKeeps(p, s, error);
      case _ =>
    }
  }

  lemma {:induction false} RunKeeps(p: Params, s: State, steps: seq<Step>)
    requires Inv(p, s) && Run(p, s, steps).Some?
    ensures Inv(p, Run(p, s, steps).value)
  {
    if steps != [] {
      var init := steps[..|steps| - 1];
      RunKeeps(p, s, init);
      StepKeeps(p, Run(p, s, init).value, steps[|steps| - 1]);
    }
  }

  ghost predicate Reachable(p: Params, s: State) {
    exists steps :: Run(p, START, steps) == Some(s)
  }

  lemma ReachableHolds(p: Params, s: State)
    requires Reachable(p, s)
    ensures Inv(p, s)
  {
    var steps :| Run(p, START, steps) == Some(s);
    RunKeeps(p, START, steps);
  }

  // ---------------------------------------------------------------------
  // Properties of every run
  // ---------------------------------------------------------------------

  /**
   * At every moment of every run what this call put into the spool is a prefix of its message, so the
   * message is appended at most once; `Sent` means all of it, synced before the lock was released; an
   * outcome settled before the worker was spawned means nothing was or will be written.
   */
  lemma DeliveryGuarantees(p: Params, s: State)
    requires Reachable(p, s)
    ensures s.appended <= p.message
    ensures s.caller == Returned(Sent) ==> s.appended == p.message && s.synced && s.worker == Ended(Written)
    ensures s.synced ==> s.appended == p.message
    ensures s.caller.Returned? && s.worker.NotSpawned? ==> s.appended == ""
    ensures s.caller != Returned(Transient(Inconsistent)) && s.caller != Returned(Permanent(Inconsistent))
  {
    ReachableHolds(p, s);
  }

  /** A token cancelled before the call is entered keeps the spool untouched for ever, whatever happens next. */
  lemma {:induction false} EarlyCancelWritesNothing(p: Params, s: State, steps: seq<Step>)
    requires Reachable(p, s) && s.caller.Fresh? && s.cancelled
    requires Run(p, Next(p, s, Enter), steps).Some?
    ensures var t := Run(p, Next(p, s, Enter), steps).value;
            && t.worker.NotSpawned? && t.appended == ""
            && t.caller == Returned(if p.fires then Transient(CancelledEarly) else Skipped)
  {
    ReachableHolds(p, s);
    if steps != [] {
      EarlyCancelWritesNothing(p, s, steps[..|steps| - 1]);
    }
  }

  /** The call can go on to the spool: wanted, not cancelled, rendered, and the body within 64 KiB. */
  predicate Admitted(p: Params, s: State) {
    p.fires && !s.cancelled && p.subject.Some? && p.body.Some? && |p.body.value| <= 65536
  }

  /** What makes a call report each outcome. */
  predicate Earns(p: Params, s: State, step: Step, outcome: Outcome) {
    match outcome
    case Sent => step.Join? && s.worker == Ended(Written)
    case Skipped => step.Enter? && !p.fires
    case Transient(reason) =>
      (match reason
       case CancelledEarly => step.Enter? && p.fires && s.cancelled
       case CancelledWaiting => step.Poll? && s.signal.Pending? && s.cancelled && !s.elapsed
       case LockWaitElapsed => step.Poll? && s.signal.Pending? && s.elapsed
       case Io(kind) => step.Join? && s.worker == Ended(IoFailed(kind)) && kind == OtherIo
       case JoinFailed => step.Join? && s.worker == Ended(Panicked)
       case _ => false)
    case Permanent(reason) =>
      match reason
      case RenderFailed => step.Enter? && p.fires && !s.cancelled && (p.subject.None? || p.body.None?)
      case BodyTooLarge => step.Enter? && p.fires && !s.cancelled && p.subject.Some? && p.body.Some? && |p.body.value| > 65536
      case Io(kind) => step.Join? && s.worker == Ended(IoFailed(kind)) && kind in {NotFound, PermissionDenied, Eloop, Eisdir, Einval}
      case _ => false
  }

  lemma JoinEarns(p: Params, s: State, outcome: Outcome)
    requires Inv(p, s) && Enabled(p, s, Join)
    ensures Next(p, s, Join).caller == Returned(outcome) <==> Earns(p, s, Join, outcome)
  {
  }

  /** Over every run: a step ends the call with an outcome exactly when it earns it. */
  lemma OutcomeIff(p: Params, s: State, step: Step, outcome: Outcome)
    requires Reachable(p, s) && !s.caller.Returned? && Enabled(p, s, step)
    ensures Next(p, s, step).caller == Returned(outcome) <==> Earns(p, s, step, outcome)
  {
    ReachableHolds(p, s);
    if step.Join? {
      JoinEarns(p, s, outcome);
    }
  }

  /** And otherwise: entering spawns the worker exactly when the call is admitted; a poll follows the signal, or waits. */
  lemma GoesOnIff(p: Params, s: State)
    requires Reachable(p, s)
    ensures s.caller.Fresh? ==>
              (Next(p, s, Enter) == s.(caller := Selecting, worker := Opening) <==> Admitted(p, s))
              && (Next(p, s, Enter).worker.NotSpawned? <==> !Admitted(p, s))
    ensures s.caller.Selecting? ==>
              && (Next(p, s, Poll).caller == Joining(true) <==> s.signal.Delivered?)
              && (Next(p, s, Poll).caller == Joining(false) <==> s.signal.Dropped?)
              && (Next(p, s, Poll) == s <==> s.signal.Pending? && !s.elapsed && !s.cancelled)
  {
    ReachableHolds(p, s);
  }

  predicate GaveUp(outcome: Outcome) {
    outcome == Transient(CancelledWaiting) || outcome == Transient(LockWaitElapsed)
  }

  /**
   * Giving up on the lock happens only in a poll that finds the signal pending, and at that moment
   * not a byte has been written.
   */
  lemma GivesUpOnlyUnsignalled(p: Params, s: State, step: Step)
    requires Reachable(p, s) && Enabled(p, s, step)
    requires !(s.caller.Returned? && GaveUp(s.caller.outcome))
    ensures var t := Next(p, s, step);
            t.caller.Returned? && GaveUp(t.caller.outcome)
            <==> step.Poll? && s.signal.Pending? && (s.elapsed || s.cancelled)
    ensures step.Poll? && s.signal.Pending? ==> s.appended == "" && s.worker in {Opening, Locking, Locked}
  {
    ReachableHolds(p, s);
  }

  /** Once the caller has received the lock signal, no continuation ends in a cancel or lock-wait outcome. */
  lemma {:induction false} SignalledNeverGivesUp(p: Params, s: State, steps: seq<Step>)
    requires Reachable(p, s) && s.caller == Joining(true)
    requires Run(p, s, steps).Some?
    ensures var t := Run(p, s, steps).value;
            t.caller == Joining(true) || (t.caller.Returned? && !GaveUp(t.caller.outcome))
  {
    ReachableHolds(p, s);
    if steps != [] {
      var init := steps[..|steps| - 1];
      SignalledNeverGivesUp(p, s, init);
      RunKeeps(p, s, init);
    }
  }

  // ---------------------------------------------------------------------
  // What an outcome settles
  // ---------------------------------------------------------------------

  predicate Live(w: Worker) {
    !w.NotSpawned? && !w.Ended?
  }

  /** The step that takes a live worker towards success. */
  function Onward(p: Params, w: Worker): Step
    requires Live(w)
  {
    match w
    case Opening => Open(None)
    case Locking => Lock(None)
    case Locked => SendSignal
    case Writing(done) => if done < |p.message| then Write(|p.message| - done) else SyncAll(None)
    case Synced => Unlock
  }

  /** How many such steps are left. */
  function StepsLeft(p: Params, w: Worker): nat
    requires Live(w)
  {
    match w
    case Opening => 6
    case Locking => 5
    case Locked => 4
    case Writing(done) => if done < |p.message| then 3 else 2
    case Synced => 1
  }

  lemma RunCons(p: Params, s: State, step: Step, rest: seq<Step>)
    requires Enabled(p, s, step)
    ensures Run(p, s, [step]) == Some(Next(p, s, step))
    ensures Run(p, s, [step] + rest) == Run(p, Next(p, s, step), rest)
  {
    assert [step][..0] == [];
    RunAppend(p, s, [step], rest);
  }

  lemma OnwardStep(p: Params, s: State)
    requires Inv(p, s) && Live(s.worker)
    ensures Enabled(p, s, Onward(p, s.worker))
    ensures var t := Next(p, s, Onward(p, s.worker));
            && t.caller == s.caller
            && (if s.worker.Synced? then t.worker == Ended(Written) && t.appended == p.message && t.synced
                else Live(t.worker) && StepsLeft(p, t.worker) < StepsLeft(p, s.worker))
  {
  }

  /** From any state with a live worker, the worker alone can deliver the whole message. */
  lemma {:induction false} DeliverRest(p: Params, s: State) returns (steps: seq<Step>, t: State)
    requires Inv(p, s) && Live(s.worker)
    ensures Run(p, s, steps) == Some(t)
    ensures t.worker == Ended(Written) && t.appended == p.message && t.synced && t.caller == s.caller
    decreases StepsLeft(p, s.worker)
  {
    var step := Onward(p, s.worker);
    OnwardStep(p, s);
    StepKeeps(p, s, step);
    var next := Next(p, s, step);
    if s.worker.Synced? {
      RunCons(p, s, step, []);
      steps, t := [step], next;
    } else {
      var rest;
      rest, t := DeliverRest(p, next);
      RunCons(p, s, step, rest);
      steps := [step] + rest;
    }
  }

  lemma StepGrows(p: Params, s: State, step: Step)
    requires Enabled(p, s, step)
    ensures s.appended <= Next(p, s, step).appended
  {
  }

  /** No step takes bytes back. */
  lemma {:induction false} AppendedGrows(p: Params, s: State, steps: seq<Step>)
    requires Run(p, s, steps).Some?
    ensures s.appended <= Run(p, s, steps).value.appended
  {
    if steps != [] {
      var init := steps[..|steps| - 1];
      AppendedGrows(p, s, init);
      StepGrows(p, Run(p, s, init).value, steps[|steps| - 1]);
    }
  }

  /** With the caller gone, a worker that was never spawned or has ended stays so and writes nothing. */
  lemma {:induction false} DeadStays(p: Params, s: State, steps: seq<Step>)
    requires s.caller.Returned? && !Live(s.worker) && Run(p, s, steps).Some?
    ensures var t := Run(p, s, steps).value;
            t.caller == s.caller && t.worker == s.worker && t.appended == s.appended
  {
    if steps != [] {
      DeadStays(p, s, steps[..|steps| - 1]);
    }
  }

  /**
   * Once the call has returned, whatever it reported, the spool is settled exactly when the worker was
   * never spawned, has ended, or has everything out already: in every other state some continuation
   * still adds to the spool.
   */
  lemma SettledIff(p: Params, s: State)
    requires Reachable(p, s) && s.caller.Returned?
    ensures (forall steps :: Run(p, s, steps).Some? ==> Run(p, s, steps).value.appended == s.appended)
            <==> !Live(s.worker) || s.appended == p.message
  {
    ReachableHolds(p, s);
    if !Live(s.worker) || s.appended == p.message {
      forall steps | Run(p, s, steps).Some?
        ensures Run(p, s, steps).value.appended == s.appended
      {
        if !Live(s.worker) {
          DeadStays(p, s, steps);
        } else {
          AppendedGrows(p, s, steps);
          RunKeeps(p, s, steps);
        }
      }
    } else {
      var steps, t := DeliverRest(p, s);
      assert Run(p, s, steps).value.appended != s.appended;
    }
  }

  /** The ordinary way for a worker with nothing written to end: its next system call fails. */
  function Abandon(w: Worker, kind: IoKind): seq<Step> {
    match w
    case Opening => [Open(Some(kind))]
    case Locking => [Lock(Some(kind))]
    case _ => [SendSignal, WriteError(kind)]
  }

  lemma AbandonRuns(p: Params, s: State, kind: IoKind) returns (t: State)
    requires Inv(p, s) && s.worker in {Opening, Locking, Locked}
    ensures Run(p, s, Abandon(s.worker, kind)) == Some(t)
    ensures t.caller == s.caller && t.worker == Ended(IoFailed(kind)) && t.appended == ""
  {
    var step := Abandon(s.worker, kind)[0];
    t := Next(p, s, step);
    RunCons(p, s, step, []);
    if s.worker.Locked? {
      RunCons(p, s, step, [WriteError(kind)]);
      RunCons(p, t, WriteError(kind), []);
      assert Abandon(s.worker, kind) == [step] + [WriteError(kind)];
      t := Next(p, t, WriteError(kind));
    }
  }

  /**
   * A call that gives up, by cancellation or by the lock deadline, settles nothing: always the worker is
   * still live and nothing is written, one continuation delivers and syncs the whole message, and in
   * another the worker's open, lock or first write fails, with whatever error, and nothing is written, then
   * or ever.
   */
  lemma GivingUpSettlesNothing(p: Params, s: State, kind: IoKind) returns (deliver: seq<Step>, t: State, u: State)
    requires Reachable(p, s) && s.caller.Selecting?
    requires Next(p, s, Poll).caller.Returned?
    ensures var after := Next(p, s, Poll);
            && GaveUp(after.caller.outcome) && Live(after.worker) && after.appended == ""
            && Run(p, after, deliver) == Some(t) && t.caller == after.caller && t.appended == p.message && t.synced
            && Run(p, after, Abandon(after.worker, kind)) == Some(u) && u.caller == after.caller
            && u.worker == Ended(IoFailed(kind))
            && forall more :: Run(p, u, more).Some? ==> Run(p, u, more).value.appended == ""
  {
    ReachableHolds(p, s);
    StepKeeps(p, s, Poll);
    var after := Next(p, s, Poll);
    deliver, t := DeliverRest(p, after);
    u := AbandonRuns(p, after, kind);
    forall more | Run(p, u, more).Some?
      ensures Run(p, u, more).value.appended == ""
    {
      DeadStays(p, u, more);
    }
  }

  // ---------------------------------------------------------------------
  // Where the comments claim more than the code does
  // ---------------------------------------------------------------------

  predicate HoldsLock(w: Worker) {
    w.Locked? || w.Writing? || w.Synced?
  }

  /** What the state tells about earlier steps: whether the lock was taken and the signal sent. */
  predicate Tells(s: State, locked: bool, sent: bool) {
    && (s.worker in {NotSpawned, Opening, Locking} ==> !locked)
    && (HoldsLock(s.worker) ==> locked)
    && (s.signal.Delivered? <==> sent)
  }

  lemma StepTells(p: Params, s: State, step: Step, locked: bool, sent: bool)
    requires Inv(p, s) && Enabled(p, s, step) && Tells(s, locked, sent)
    ensures Tells(Next(p, s, step), locked || step == Lock(None), sent || step == SendSignal)
  {
  }

  lemma {:induction false} RunTells(p: Params, steps: seq<Step>, s: State)
    requires Run(p, START, steps) == Some(s)
    ensures Tells(s, Lock(None) in steps, SendSignal in steps)
  {
    if steps != [] {
      var init, last := steps[..|steps| - 1], steps[|steps| - 1];
      var before := Run(p, START, init).value;
      assert steps == init + [last];
      RunTells(p, init, before);
      RunKeeps(p, START, init);
      StepTells(p, before, last, Lock(None) in init, SendSignal in init);
    }
  }

  /**
   * The comment says cancellation wins only while the lock is not acquired. Over every run: when a poll
   * gives up no signal has been sent and not a byte written, but the lock may have been acquired; it has
   * been exactly when the worker still holds it then. Were the lock and its signal one step, it never would.
   */
  lemma GiveUpWhileLocked(p: Params, steps: seq<Step>, s: State)
    requires Run(p, START, steps) == Some(s) && s.caller.Selecting?
    requires Next(p, s, Poll).caller.Returned?
    ensures Lock(None) in steps <==> HoldsLock(s.worker)
    ensures SendSignal !in steps && s.appended == ""
    ensures (forall i :: 0 <= i < |steps| && steps[i] == Lock(None) ==> i + 1 < |steps| && steps[i + 1] == SendSignal)
            ==> !HoldsLock(s.worker)
  {
    RunKeeps(p, START, steps);
    RunTells(p, steps, s);
    if forall i :: 0 <= i < |steps| && steps[i] == Lock(None) ==> i + 1 < |steps| && steps[i + 1] == SendSignal {
      if i :| 0 <= i < |steps| && steps[i] == Lock(None) {
        assert steps[i + 1] in steps;
      }
    }
  }

  /** Calls that reach the spool. */
  predicate Delivers(p: Params) {
    p.fires && p.subject.Some? && p.body.Some? && |p.body.value| <= BODY_BYTE_CAP && p.message != ""
  }

  lemma One(p: Params, s: State, steps: seq<Step>, step: Step, before: State, after: State) returns (all: seq<Step>)
    requires Run(p, s, steps) == Some(before) && Enabled(p, before, step) && Next(p, before, step) == after
    ensures all == steps + [step] && Run(p, s, all) == Some(after)
  {
    all := steps + [step];
    assert all[..|steps|] == steps;
  }

  /** After the race: cancelled in the window between the lock and its signal. */
  const RACED := State(Returned(Transient(CancelledWaiting)), Locked, Pending, true, false, "", false)

  lemma RaceRuns(p: Params) returns (race: seq<Step>)
    requires Delivers(p)
    ensures race == [Enter, Open(None), Lock(None), Cancel, Poll] && Run(p, START, race) == Some(RACED)
  {
    var s1 := START.(caller := Selecting, worker := Opening);
    var s2 := s1.(worker := Locking);
    var s3 := s2.(worker := Locked);
    var s4 := s3.(cancelled := true);
    race := One(p, START, [], Enter, START, s1);
    race := One(p, START, race, Open(None), s1, s2);
    race := One(p, START, race, Lock(None), s2, s3);
    race := One(p, START, race, Cancel, s3, s4);
    race := One(p, START, race, Poll, s4, RACED);
  }

  /**
   * For every message: the lock is taken, cancellation wins the next poll, and the worker still
   * appends and syncs everything. The transient outcome does not mean the message is absent.
   */
  lemma CancelledYetDelivered(p: Params) returns (race: seq<Step>, rest: seq<Step>)
    requires Delivers(p)
    ensures var s := Run(p, START, race);
            var t := Run(p, START, race + rest);
            && s.Some? && s.value.worker.Locked? && s.value.caller == Returned(Transient(CancelledWaiting))
            && t.Some? && t.value.caller == s.value.caller && t.value.appended == p.message && t.value.synced
  {
    race := RaceRuns(p);
    RunKeeps(p, START, race);
    var t;
    rest, t := DeliverRest(p, RACED);
    RunAppend(p, START, race, rest);
  }
}
