// The background retry worker of src/c64-source.c as interleaved steps: any
// number of threads calling c64_schedule_retry, at most one worker thread, and
// c64_destroy. Each step is one access to a shared flag, or one operation on
// retry_thread_mutex or the thread handle.
module RetryWorker {
  import opened Counts

  // ---------------------------------------------------------------- the state

  // Where a thread inside c64_schedule_retry is.
  datatype CallerPc =
    | Reserve        // saw no active worker; about to swap retry_thread_active
    | Mark           // about to swap retry_in_progress
    | Lock           // about to take the mutex
    | Held           // holds the mutex; looks at the latch, joins a finished worker
    | Create         // about to create the thread
    | UndoProgress   // gave up: about to clear retry_in_progress
    | UndoActive     // about to clear retry_thread_active
    | Flag           // only with the split test: about to set retry_requested

  // Where the worker thread is in c64_retry_thread_main.
  datatype WorkerPc =
    | RunStart       // about to clear retry_requested and run the task
    | Running        // inside c64_async_retry_task
    | Stops          // stopping previous devices only
    | CheckLatch     // after the task or the stops
    | Decide         // reads retry_requested
    | Wait(left: nat)          // sleeping in slices, reading it after each
    | Settle(requested: bool)  // chooses between task, stops and release
    | Release        // about to hand the slot back
    | Recheck        // slot handed back: reads retry_requested once more
    | RecheckLatch
    | Regain         // about to swap retry_thread_active again
    | MarkAgain      // about to swap retry_in_progress
    | Finish         // left the loop: about to clear retry_thread_active
    | Done

  datatype Worker = NoThread | Thread(pc: WorkerPc)

  datatype DestroyPc = NotYet | Locked | Latched | ClearActive | ClearProgress | Unlock | Gone

  datatype Owner = Nobody | Caller(id: nat) | TheWorker | TheDestroyer

  datatype State = State(
    requested: bool, active: bool, inProgress: bool, latched: bool, threadValid: bool,
    mutex: Owner, callers: map<nat, CallerPc>, worker: Worker, destroy: DestroyPc,
    // History: who reserved the slot last and has not given it back; whether a
    // request was accepted after the start of the last task run; failed joins.
    slot: Owner, due: bool, destroyJoinFailed: bool)

  const INITIAL := State(false, false, false, false, false, Nobody, map[], NoThread, NotYet, Nobody, false, false)

  datatype Action =
    | Call(id: nat)
    | SplitTest(id: nat)
    | CallerStep(id: nat, fails: bool)
    // What the worker finds: a start is needed, stops are queued, how long it waits.
    | WorkerStep(needStart: bool, needStops: bool, slices: nat)
    | DestroyStep(fails: bool)

  // ---------------------------------------------------------------- the steps

  predicate Enabled(s: State, a: Action) {
    match a
    case Call(id) => id !in s.callers
    case SplitTest(id) => id !in s.callers && (s.inProgress || s.active)
    case CallerStep(id, fails) =>
      id in s.callers &&
      (match s.callers[id]
       case Lock => s.mutex == Nobody
       case Held => s.latched || !s.threadValid || fails || s.worker == Thread(Done)
       case _ => true)
    case WorkerStep(_, _, _) => s.worker.Thread? && s.worker.pc != Done
    case DestroyStep(fails) =>
      (match s.destroy
       case NotYet => s.mutex == Nobody
       case Latched => !s.threadValid || fails || s.worker == Thread(Done)
       case Gone => false
       case _ => true)
  }

  datatype Where = Returns | Goes(pc: CallerPc)

  // Where a caller continues.
  function CallerNext(s: State, pc: CallerPc, fails: bool): Where {
    match pc
    case Reserve => if s.active then Returns else Goes(Mark)
    case Mark => if s.inProgress then Goes(UndoActive) else Goes(Lock)
    case Lock => Goes(Held)
    case Held => if s.latched || (s.threadValid && fails) then Goes(UndoProgress) else Goes(Create)
    case Create => if fails then Goes(UndoProgress) else Returns
    case UndoProgress => Goes(UndoActive)
    case UndoActive => Returns
    case Flag => Returns
  }

  // What a caller's step writes, field by field.
  function NextCaller(s: State, id: nat, fails: bool): State
    requires Enabled(s, CallerStep(id, fails))
  {
    var pc := s.callers[id];
    var next := CallerNext(s, pc, fails);
    s.(callers := if next.Returns? then s.callers - {id} else s.callers[id := next.pc],
       requested := s.requested || pc == Flag,
       // Both compare-and-swaps write only when the flag was clear.
       active := (s.active || pc == Reserve) && pc != UndoActive,
       inProgress := (s.inProgress || pc == Mark) && pc != UndoProgress,
       // Held keeps the mutex only to go on to Create.
       mutex := if pc == Lock then Caller(id)
                else if pc == Create || (pc == Held && next != Goes(Create)) then Nobody else s.mutex,
       threadValid := if next == Goes(Create) then false else s.threadValid || (pc == Create && next == Returns),
       worker := if s.threadValid && next == Goes(Create) then NoThread
                 else if pc == Create && next == Returns then Thread(RunStart) else s.worker,
       slot := if pc == Reserve && !s.active then Caller(id)
               else if pc == Create && next == Returns then TheWorker
               else if pc == UndoActive then Nobody else s.slot,
       due := s.due && pc != UndoActive)
  }

  // Where the worker continues.
  function WorkerNext(s: State, pc: WorkerPc, needStart: bool, needStops: bool, slices: nat): WorkerPc {
    match pc
    case RunStart => Running
    case Running => CheckLatch
    case Stops => CheckLatch
    case CheckLatch => if s.latched then Finish else Decide
    case Decide =>
      if s.requested then Settle(true)
      else if (needStart || needStops) && slices > 0 then Wait(slices)
      else Settle(false)
    case Wait(left) =>
      if s.latched then Finish
      else if s.requested || left <= 1 then Settle(s.requested)
      else Wait(left - 1)
    case Settle(requested) => if requested || needStart then MarkAgain else if needStops then Stops else Release
    case Release => Recheck
    case Recheck => if s.requested then RecheckLatch else Done
    case RecheckLatch => if s.latched then Done else Regain
    case Regain => if s.active then Done else MarkAgain
    case MarkAgain => if s.inProgress then Finish else RunStart
    case Finish => Done
    case Done => Done
  }

  // What the worker's step writes, field by field.
  function NextWorker(s: State, needStart: bool, needStops: bool, slices: nat): State
    requires Enabled(s, WorkerStep(needStart, needStops, slices))
  {
    var pc := s.worker.pc;
    var gives := pc == Release || pc == Finish;
    s.(worker := Thread(WorkerNext(s, pc, needStart, needStops, slices)),
       requested := s.requested && pc != RunStart,
       due := s.due && pc != RunStart,
       inProgress := (s.inProgress || pc == MarkAgain) && pc != Running,
       active := (s.active || pc == Regain) && !gives,
       slot := if gives then Nobody else if pc == Regain && !s.active then TheWorker else s.slot)
  }

  function DestroyNext(s: State): DestroyPc {
    match s.destroy
    case NotYet => Locked
    case Locked => Latched
    case Latched => if s.threadValid then ClearActive else Unlock
    case ClearActive => ClearProgress
    case ClearProgress => Unlock
    case Unlock => Gone
    case Gone => Gone
  }

  function NextDestroy(s: State, fails: bool): State
    requires Enabled(s, DestroyStep(fails))
  {
    var joins := s.destroy == Latched && s.threadValid;
    s.(destroy := DestroyNext(s),
       mutex := if s.destroy == NotYet then TheDestroyer else if s.destroy == Unlock then Nobody else s.mutex,
       latched := s.latched || s.destroy == Locked,
       threadValid := s.threadValid && !joins,
       worker := if joins && !fails then NoThread else s.worker,
       destroyJoinFailed := s.destroyJoinFailed || (joins && fails),
       active := s.active && s.destroy != ClearActive,
       inProgress := s.inProgress && s.destroy != ClearProgress)
  }

  function Next(s: State, a: Action): State
    requires Enabled(s, a)
  {
    match a
    case Call(id) =>
      // The test of both flags and the setting of retry_requested are one step.
      if s.inProgress || s.active then s.(requested := true, due := true)
      else s.(due := true, callers := s.callers[id := Reserve])
    case SplitTest(id) => s.(due := true, callers := s.callers[id := Flag])
    case CallerStep(id, fails) => NextCaller(s, id, fails)
    case WorkerStep(needStart, needStops, slices) => NextWorker(s, needStart, needStops, slices)
    case DestroyStep(fails) => NextDestroy(s, fails)
  }

  // Step i of the run is enabled where it is taken.
  ghost predicate Moves(states: seq<State>, acts: seq<Action>, i: nat)
    requires i < |acts| && |states| == |acts| + 1
  {
    Enabled(states[i], acts[i]) && states[i + 1] == Next(states[i], acts[i])
  }

  // A run from any state: every action is enabled where it is taken.
  ghost predicate IsRun(states: seq<State>, acts: seq<Action>) {
    && |states| == |acts| + 1
    && forall i :: 0 <= i < |acts| ==> Moves(states, acts, i)
  }

  // A run in which every scheduler tests and flags in one step.
  ghost predicate IsAtomicRun(states: seq<State>, acts: seq<Action>) {
    IsRun(states, acts) && forall i :: 0 <= i < |acts| ==> !acts[i].SplitTest?
  }

  // ------------------------------------------------------------ the invariant

  predicate CallerHolds(pc: CallerPc) {
    pc != Reserve && pc != Flag
  }

  predicate CallerMarks(pc: CallerPc) {
    pc == Lock || pc == Held || pc == Create || pc == UndoProgress
  }

  predicate WorkerHolds(w: Worker) {
    w.Thread? && w.pc != Recheck && w.pc != RecheckLatch && w.pc != Regain && w.pc != Done
  }

  predicate WorkerMarks(w: Worker) {
    w.Thread? && (w.pc == RunStart || w.pc == Running)
  }

  predicate InSection(pc: CallerPc) {
    pc == Held || pc == Create
  }

  predicate Joined(pc: DestroyPc) {
    pc == ClearActive || pc == ClearProgress || pc == Unlock || pc == Gone
  }

  // The mutex is held by the thread whose program counter says so.
  ghost predicate OwnerInv(s: State) {
    && (forall id :: id in s.callers && InSection(s.callers[id]) ==> s.mutex == Caller(id))
    && (s.mutex.Caller? ==> s.mutex.id in s.callers && InSection(s.callers[s.mutex.id]))
    && (s.destroy != NotYet && s.destroy != Gone <==> s.mutex == TheDestroyer)
    && s.mutex != TheWorker
  }

  // What the critical sections protect: no thread is created once the latch is
  // set, and a thread that was not joined is still joinable.
  ghost predicate ThreadInv(s: State) {
    && (s.latched <==> s.destroy != NotYet && s.destroy != Locked)
    && (s.mutex.Caller? && s.mutex.id in s.callers && s.callers[s.mutex.id] == Create ==>
          !s.latched && s.worker == NoThread && !s.threadValid)
    && (s.threadValid ==> s.worker.Thread?)
    && (!s.destroyJoinFailed && s.worker.Thread? ==> s.threadValid)
    && (Joined(s.destroy) ==> !s.threadValid)
    && (s.destroyJoinFailed ==> Joined(s.destroy))
  }

  // Kept by every step, before and after the latch.
  ghost predicate MutexInv(s: State) {
    OwnerInv(s) && ThreadInv(s)
  }

  // Until the latch: the slot has one holder, and both flags say what it does.
  ghost predicate SlotInv(s: State) {
    && (s.active <==> s.slot != Nobody)
    && s.slot != TheDestroyer
    && (forall id :: id in s.callers && CallerHolds(s.callers[id]) ==> s.slot == Caller(id))
    && (s.slot.Caller? ==> s.slot.id in s.callers && CallerHolds(s.callers[s.slot.id]))
    && (WorkerHolds(s.worker) <==> s.slot == TheWorker)
    && (s.inProgress <==> WorkerMarks(s.worker) || (s.slot.Caller? && CallerMarks(s.callers[s.slot.id])))
    && s.worker != Thread(Finish)
    && (s.worker.Thread? && s.worker.pc == MarkAgain ==> !s.inProgress)
  }

  predicate WillCreate(pc: CallerPc) {
    pc == Mark || pc == Lock || pc == Held || pc == Create
  }

  predicate Undoes(pc: CallerPc) {
    pc == UndoProgress || pc == UndoActive
  }

  // Someone will start a task run because of what they already know.
  ghost predicate Committed(s: State) {
    || (s.slot.Caller? && s.slot.id in s.callers && WillCreate(s.callers[s.slot.id]))
    || s.worker == Thread(RunStart)
    || s.worker == Thread(MarkAgain)
    || s.worker == Thread(Settle(true))
    || (s.requested && s.worker.Thread? && s.worker.pc != Done)
    || (!s.active && exists id :: AtReserve(s, id))
  }

  // The thread that holds the slot failed to join or to create, and is giving
  // the slot back.
  ghost predicate GivingUp(s: State) {
    s.slot.Caller? && s.slot.id in s.callers && Undoes(s.callers[s.slot.id])
  }

  ghost predicate Safe(s: State) {
    MutexInv(s) && (!s.latched ==> SlotInv(s))
  }

  // A due request is in hand, or the thread that had it is giving up.
  ghost predicate InHand(s: State) {
    s.due ==> Committed(s) || GivingUp(s)
  }

  lemma CallerKeepsOwner(s: State, id: nat, fails: bool)
    requires OwnerInv(s) && Enabled(s, CallerStep(id, fails))
    ensures OwnerInv(NextCaller(s, id, fails))
  {
  }

  lemma OwnerStep(s: State, a: Action)
    requires OwnerInv(s) && Enabled(s, a)
    ensures OwnerInv(Next(s, a))
  {
    match a
    case Call(_) =>
    case SplitTest(_) =>
    case CallerStep(id, fails) => CallerKeepsOwner(s, id, fails);
    case WorkerStep(_, _, _) =>
    case DestroyStep(_) =>
  }

  lemma ThreadStep(s: State, a: Action)
    requires MutexInv(s) && Enabled(s, a)
    ensures ThreadInv(Next(s, a))
  {
    match a
    case Call(_) =>
    case SplitTest(_) =>
    case CallerStep(_, _) =>
    case WorkerStep(_, _, _) =>
    case DestroyStep(_) =>
  }

  lemma CallerKeepsSlot(s: State, id: nat, fails: bool)
    requires MutexInv(s) && Enabled(s, CallerStep(id, fails)) && !s.latched && SlotInv(s)
    ensures SlotInv(NextCaller(s, id, fails))
  {
  }

  lemma WorkerKeepsSlot(s: State, needStart: bool, needStops: bool, slices: nat)
    requires Enabled(s, WorkerStep(needStart, needStops, slices)) && !s.latched && SlotInv(s)
    ensures SlotInv(NextWorker(s, needStart, needStops, slices))
  {
  }

  lemma SlotStep(s: State, a: Action)
    requires MutexInv(s) && Enabled(s, a) && !Next(s, a).latched && SlotInv(s)
    ensures SlotInv(Next(s, a))
  {
    match a
    case CallerStep(id, fails) => CallerKeepsSlot(s, id, fails);
    case WorkerStep(needStart, needStops, slices) => WorkerKeepsSlot(s, needStart, needStops, slices);
    case _ =>
  }

  lemma SafeStep(s: State, a: Action)
    requires Safe(s) && Enabled(s, a)
    ensures Safe(Next(s, a))
  {
    OwnerStep(s, a);
    ThreadStep(s, a);
    if !Next(s, a).latched {
      SlotStep(s, a);
    }
  }

  lemma {:induction false} RunsAreSafe(states: seq<State>, acts: seq<Action>, i: nat)
    requires IsRun(states, acts) && states[0] == INITIAL && i < |states|
    ensures Safe(states[i])
  {
    if i > 0 {
      RunsAreSafe(states, acts, i - 1);
      assert Moves(states, acts, i - 1);
      SafeStep(states[i - 1], acts[i - 1]);
    }
  }

  // A thread about to reserve the slot while it is free.
  ghost predicate AtReserve(s: State, id: nat) {
    id in s.callers && s.callers[id] == Reserve
  }

  lemma CallerKeepsInHand(s: State, id: nat, fails: bool)
    requires Safe(s) && InHand(s) && Enabled(s, CallerStep(id, fails)) && !s.latched
    ensures InHand(NextCaller(s, id, fails))
  {
    if s.due && !s.active && exists other :: AtReserve(s, other) {
      var other :| AtReserve(s, other);
      assert other != id ==> AtReserve(NextCaller(s, id, fails), other);
    }
  }

  lemma WorkerKeepsInHand(s: State, needStart: bool, needStops: bool, slices: nat)
    requires Safe(s) && InHand(s) && Enabled(s, WorkerStep(needStart, needStops, slices)) && !s.latched
    ensures InHand(NextWorker(s, needStart, needStops, slices))
  {
    if s.due && !s.active && exists other :: AtReserve(s, other) {
      var other :| AtReserve(s, other);
      assert AtReserve(NextWorker(s, needStart, needStops, slices), other);
    }
  }

  lemma OthersKeepInHand(s: State, a: Action)
    requires Safe(s) && InHand(s) && Enabled(s, a) && !Next(s, a).latched && (a.SplitTest? ==> s.due)
    requires !a.CallerStep? && !a.WorkerStep?
    ensures InHand(Next(s, a))
  {
    var t := Next(s, a);
    if a.Call? {
      assert t.due && !(s.inProgress || s.active) ==> AtReserve(t, a.id);
    }
    if s.due && !s.active && exists other :: AtReserve(s, other) {
      var other :| AtReserve(s, other);
      assert AtReserve(t, other);
    }
  }

  // What is in hand stays in hand, also when schedulers test and flag in two
  // steps. Only the first of the two can make a request due with nobody at it.
  lemma DueStep(s: State, a: Action)
    requires Safe(s) && InHand(s) && Enabled(s, a) && !Next(s, a).latched && (a.SplitTest? ==> s.due)
    ensures InHand(Next(s, a))
  {
    match a
    case CallerStep(id, fails) => CallerKeepsInHand(s, id, fails);
    case WorkerStep(needStart, needStops, slices) => WorkerKeepsInHand(s, needStart, needStops, slices);
    case _ => OthersKeepInHand(s, a);
  }

  lemma {:induction false} AtomicRunsKeepInHand(states: seq<State>, acts: seq<Action>, i: nat)
    requires IsAtomicRun(states, acts) && states[0] == INITIAL && i < |states| && !states[i].latched
    ensures InHand(states[i])
  {
    if i > 0 {
      var s, a := states[i - 1], acts[i - 1];
      assert Moves(states, acts, i - 1) && !a.SplitTest?;
      AtomicRunsKeepInHand(states, acts, i - 1);
      RunsAreSafe(states, acts, i - 1);
      DueStep(s, a);
    }
  }

  // ------------------------------------------------------------ what it gives

  ghost predicate PastGate(s: State, id: nat) {
    id in s.callers && CallerHolds(s.callers[id])
  }

  // Until the latch, at most one thread is past the gate, in-progress implies
  // active, and neither compare-and-swap of retry_in_progress can fail.
  lemma OneWorkerPastTheGate(states: seq<State>, acts: seq<Action>, i: nat)
    requires IsRun(states, acts) && states[0] == INITIAL && i < |states| && !states[i].latched
    ensures var s := states[i];
            && (forall x, y :: PastGate(s, x) && PastGate(s, y) ==> x == y)
            && (forall x :: PastGate(s, x) ==> !WorkerHolds(s.worker))
            && (s.inProgress ==> s.active)
            && (forall x :: x in s.callers && s.callers[x] == Mark ==> !s.inProgress)
            && (s.worker == Thread(MarkAgain) ==> !s.inProgress)
  {
    RunsAreSafe(states, acts, i);
  }

  lemma GoneForGood(s: State, a: Action)
    requires Safe(s) && s.destroy == Gone && s.worker == NoThread && !s.destroyJoinFailed && Enabled(s, a)
    ensures var t := Next(s, a); t.destroy == Gone && t.worker == NoThread && !t.destroyJoinFailed
  {
  }

  // Once c64_destroy has left its critical section, and could join, there is no
  // worker thread and none is ever created.
  lemma {:induction false} NoWorkerAfterDestroy(states: seq<State>, acts: seq<Action>, i: nat, j: nat)
    requires IsRun(states, acts) && states[0] == INITIAL && i <= j < |states|
    requires states[i].destroy == Gone && !states[i].destroyJoinFailed
    ensures states[j].worker == NoThread && states[j].destroy == Gone && !states[j].destroyJoinFailed
  {
    if i < j {
      NoWorkerAfterDestroy(states, acts, i, j - 1);
      RunsAreSafe(states, acts, j - 1);
      assert Moves(states, acts, j - 1);
      GoneForGood(states[j - 1], acts[j - 1]);
    } else {
      RunsAreSafe(states, acts, i);
    }
  }

  // ----------------------------------------------------------------- progress

  datatype Actor = ACaller(id: nat) | AWorker | ADestroyer

  function ActorOf(a: Action): Actor {
    match a
    case Call(id) => ACaller(id)
    case SplitTest(id) => ACaller(id)
    case CallerStep(id, _) => ACaller(id)
    case WorkerStep(_, _, _) => AWorker
    case DestroyStep(_) => ADestroyer
  }

  ghost predicate WaitsForCaller(s: State) {
    s.slot.Caller? && s.slot.id in s.callers && WillCreate(s.callers[s.slot.id])
  }

  predicate WorkerServes(s: State) {
    s.worker.Thread? &&
    (s.worker.pc in {RunStart, MarkAgain, Settle(true)} || (s.requested && s.worker.pc != Done))
  }

  // Steps a worker that handed the slot back still needs before it ends.
  function Tail(w: Worker): nat {
    if w == Thread(Recheck) then 3 else if w == Thread(RecheckLatch) then 2 else if w == Thread(Regain) then 1 else 0
  }

  function CallerRank(pc: CallerPc): nat {
    match pc
    case Mark => 6
    case Lock => 5
    case Held => 4
    case _ => 3
  }

  function WorkerRank(pc: WorkerPc): nat {
    match pc
    case RunStart => 1
    case MarkAgain => 2
    case Settle(requested) => if requested then 3 else 14
    case Decide => 4
    case Wait(_) => 4
    case CheckLatch => 5
    case Stops => 6
    case Running => 6
    case Regain => 10
    case RecheckLatch => 11
    case Recheck => 12
    case _ => 13
  }

  // How many more steps of the helper a due request can need.
  ghost function Rank(s: State): (r: nat)
    ensures r <= 14
  {
    if WaitsForCaller(s) then CallerRank(s.callers[s.slot.id]) + Tail(s.worker)
    else if WorkerServes(s) then WorkerRank(s.worker.pc)
    else 13
  }

  // The thread whose next step brings a due request closer to its task run.
  ghost function Helper(s: State): Actor
    requires Committed(s)
  {
    if WaitsForCaller(s) then
      if s.callers[s.slot.id] == Held && s.threadValid && s.worker != Thread(Done) then AWorker else ACaller(s.slot.id)
    else if WorkerServes(s) then AWorker
    else
      var id :| AtReserve(s, id);
      ACaller(id)
  }

  // One for a step of the helper.
  ghost function Credit(s: State, a: Action): nat {
    if Committed(s) && ActorOf(a) == Helper(s) then 1 else 0
  }

  // The helper can always move, unless destroy holds the mutex and is about to latch.
  lemma HelperCanMove(s: State)
    requires Safe(s) && s.due && !s.latched && Committed(s)
    ensures s.destroy == Locked || exists a :: ActorOf(a) == Helper(s) && !a.SplitTest? && Enabled(s, a)
  {
    match Helper(s)
    case ACaller(id) =>
      assert ActorOf(CallerStep(id, false)) == Helper(s);
      assert s.destroy != Locked ==> Enabled(s, CallerStep(id, false));
    case AWorker =>
      assert ActorOf(WorkerStep(false, false, 0)) == Helper(s);
      assert Enabled(s, WorkerStep(false, false, 0));
    case ADestroyer =>
  }

  // A state in which a request is due, in which someone is committed to it.
  ghost predicate Underway(s: State) {
    s.due && !s.latched && Committed(s)
  }

  lemma CallerPaysOff(s: State, id: nat, fails: bool)
    requires Safe(s) && Underway(s) && Enabled(s, CallerStep(id, fails))
    requires Underway(NextCaller(s, id, fails)) && !GivingUp(NextCaller(s, id, fails))
    ensures Rank(NextCaller(s, id, fails)) + Credit(s, CallerStep(id, fails)) <= Rank(s)
  {
  }

  lemma WorkerPaysOff(s: State, needStart: bool, needStops: bool, slices: nat)
    requires Safe(s) && Underway(s) && Enabled(s, WorkerStep(needStart, needStops, slices))
    requires Underway(NextWorker(s, needStart, needStops, slices))
    ensures Rank(NextWorker(s, needStart, needStops, slices)) +
            Credit(s, WorkerStep(needStart, needStops, slices)) <= Rank(s)
  {
  }

  lemma OthersPayOff(s: State, a: Action)
    requires Safe(s) && Underway(s) && Enabled(s, a) && !a.CallerStep? && !a.WorkerStep? && Underway(Next(s, a))
    ensures Rank(Next(s, a)) + Credit(s, a) <= Rank(s)
  {
  }

  // Steps of the helper bring the run closer; no other step moves it away.
  lemma StepTowardsRun(s: State, a: Action)
    requires Safe(s) && s.due && !s.latched && Committed(s) && Enabled(s, a)
    requires var t := Next(s, a); t.due && !t.latched && !GivingUp(t)
    ensures var t := Next(s, a); Committed(t) && Rank(t) + Credit(s, a) <= Rank(s)
  {
    DueStep(s, a);
    match a
    case CallerStep(id, fails) => CallerPaysOff(s, id, fails);
    case WorkerStep(needStart, needStops, slices) => WorkerPaysOff(s, needStart, needStops, slices);
    case _ => OthersPayOff(s, a);
  }

  // A request is still due: accepted, and no task run has started since.
  ghost predicate StillDue(states: seq<State>, m: nat, n: nat) {
    m <= n < |states| &&
    forall i :: m <= i <= n ==> states[i].due && !states[i].latched && !GivingUp(states[i])
  }

  // Which steps of the run are steps of the helper.
  ghost function HelperMarks(states: seq<State>, acts: seq<Action>): (marks: seq<bool>)
    requires |states| == |acts| + 1
    ensures |marks| == |acts|
  {
    seq(|acts|, i requires 0 <= i < |acts| => Credit(states[i], acts[i]) == 1)
  }

  // How many of them lie between states m and n.
  ghost function HelperSteps(states: seq<State>, acts: seq<Action>, m: nat, n: nat): nat
    requires m <= n < |states| == |acts| + 1
  {
    Count(HelperMarks(states, acts), m, n)
  }

  lemma RunStepTowardsRun(states: seq<State>, acts: seq<Action>, m: nat, n: nat)
    requires IsRun(states, acts) && states[0] == INITIAL
    requires m < n && StillDue(states, m, n) && Committed(states[n - 1])
    ensures Committed(states[n]) && Rank(states[n]) + Credit(states[n - 1], acts[n - 1]) <= Rank(states[n - 1])
  {
    var s, a, t := states[n - 1], acts[n - 1], states[n];
    RunsAreSafe(states, acts, n - 1);
    assert Moves(states, acts, n - 1) && s.due && !s.latched;
    assert t.due && !t.latched && !GivingUp(t);
    StepTowardsRun(s, a);
  }

  // Someone stays committed as long as the request is due.
  lemma {:induction false} StaysCommitted(states: seq<State>, acts: seq<Action>, m: nat, n: nat)
    requires IsRun(states, acts) && states[0] == INITIAL && StillDue(states, m, n) && Committed(states[m])
    ensures Committed(states[n])
    decreases n
  {
    if m < n {
      StaysCommitted(states, acts, m, n - 1);
      RunStepTowardsRun(states, acts, m, n);
    }
  }

  // A rank that falls with every marked step bounds their number.
  lemma {:induction false} FallingRankBounds(ranks: seq<nat>, marks: seq<bool>, m: nat, n: nat)
    requires m <= n < |ranks| == |marks| + 1
    requires forall i :: m <= i < n ==> ranks[i + 1] + (if marks[i] then 1 else 0) <= ranks[i]
    ensures Count(marks, m, n) + ranks[n] <= ranks[m]
    decreases n
  {
    if m < n {
      FallingRankBounds(ranks, marks, m, n - 1);
    }
  }

  // Whatever the other threads do, split tests included, a request somebody is
  // committed to gets its task run within fourteen steps of the helper, unless
  // a thread cannot be joined or created, or destroy latches.
  lemma CommittedRequestIsServed(states: seq<State>, acts: seq<Action>, m: nat, n: nat)
    requires IsRun(states, acts) && states[0] == INITIAL && StillDue(states, m, n) && Committed(states[m])
    ensures Committed(states[n])
    ensures HelperSteps(states, acts, m, n) + Rank(states[n]) <= Rank(states[m]) <= 14
  {
    StaysCommitted(states, acts, m, n);
    var ranks := seq(|states|, i requires 0 <= i < |states| => Rank(states[i]));
    var marks := HelperMarks(states, acts);
    forall i | m <= i < n
      ensures ranks[i + 1] + (if marks[i] then 1 else 0) <= ranks[i]
    {
      StaysCommitted(states, acts, m, i);
      RunStepTowardsRun(states, acts, m, i + 1);
    }
    FallingRankBounds(ranks, marks, m, n);
  }

  // With the test and the flag in one step no accepted request is lost.
  lemma DueRequestIsServed(states: seq<State>, acts: seq<Action>, m: nat, n: nat)
    requires IsAtomicRun(states, acts) && states[0] == INITIAL && StillDue(states, m, n)
    ensures Committed(states[n])
    ensures HelperSteps(states, acts, m, n) + Rank(states[n]) <= Rank(states[m]) <= 14
  {
    AtomicRunsKeepInHand(states, acts, m);
    CommittedRequestIsServed(states, acts, m, n);
  }

  // ------------------------------------------------------------ the split test

  // c64_schedule_retry tests the flags in one step and sets retry_requested in
  // the next. A thread that will look at retry_requested again, or reserve the
  // slot, is still there when the flag is set.
  ghost predicate InTime(s: State) {
    s.active || (s.worker.Thread? && s.worker.pc != Done) || exists id :: AtReserve(s, id)
  }

  ghost predicate Flags(states: seq<State>, acts: seq<Action>, m: nat) {
    && IsRun(states, acts) && states[0] == INITIAL && m < |acts| && states[m].due && !states[m].latched
    && acts[m].CallerStep? && acts[m].id in states[m].callers && states[m].callers[acts[m].id] == Flag
  }

  // The exact condition for the flag to be noticed.
  lemma FlagIsNoticedIff(states: seq<State>, acts: seq<Action>, m: nat)
    requires Flags(states, acts, m)
    ensures Committed(states[m + 1]) || GivingUp(states[m + 1]) <==> InTime(states[m])
  {
    RunsAreSafe(states, acts, m);
    assert Moves(states, acts, m);
    var s, t := states[m], states[m + 1];
    assert forall id :: AtReserve(t, id) <==> AtReserve(s, id);
  }

  // A flag set in time: the request is served like one that was tested and
  // flagged in one step.
  lemma FlagInTimeIsServed(states: seq<State>, acts: seq<Action>, m: nat, n: nat)
    requires Flags(states, acts, m) && InTime(states[m]) && StillDue(states, m + 1, n)
    ensures Committed(states[n])
    ensures HelperSteps(states, acts, m + 1, n) + Rank(states[n]) <= Rank(states[m + 1]) <= 14
  {
    FlagIsNoticedIff(states, acts, m);
    CommittedRequestIsServed(states, acts, m + 1, n);
  }

  // Nobody holds the slot or is about to, and no worker is left.
  ghost predicate Deserted(s: State) {
    && !s.active && !s.inProgress && (s.worker == NoThread || s.worker == Thread(Done))
    && forall id :: id in s.callers ==> s.callers[id] == Flag
  }

  lemma StaysDeserted(s: State, a: Action)
    requires Deserted(s) && s.due && Enabled(s, a) && !a.Call?
    ensures Deserted(Next(s, a)) && Next(s, a).due
  {
  }

  // A flag set too late: the request stays due, and no task run starts, however
  // long the run goes on, until another request is made.
  lemma {:induction false} LateFlagIsLost(states: seq<State>, acts: seq<Action>, m: nat, n: nat)
    requires Flags(states, acts, m) && !InTime(states[m]) && m <= n < |states|
    requires forall i :: m <= i < n ==> !acts[i].Call?
    ensures Deserted(states[n]) && states[n].due
    decreases n
  {
    if n == m {
      RunsAreSafe(states, acts, m);
      assert forall id :: id in states[m].callers && states[m].callers[id] == Reserve ==> AtReserve(states[m], id);
    } else {
      LateFlagIsLost(states, acts, m, n - 1);
      assert Moves(states, acts, n - 1);
      StaysDeserted(states[n - 1], acts[n - 1]);
    }
  }

  // The worker can leave between the two steps: a request nobody serves.
  ghost predicate Lost(s: State) {
    && s.due && s.requested && !s.latched && s.callers == map[] && s.worker == Thread(Done)
    && !s.active && !s.inProgress
  }

  lemma SplitTestLosesWakeUp() returns (states: seq<State>, acts: seq<Action>)
    ensures IsRun(states, acts) && states[0] == INITIAL && Lost(states[|acts|])
  {
    states, acts := seq(16, (i: nat) => Scene(i)), seq(15, (i: nat) => Script(i));
    forall i | 0 <= i < 15
      ensures Moves(states, acts, i)
    {
      if i < 6 {
        FirstScenes(i);
      } else if i < 11 {
        MiddleScenes(i);
      } else {
        LastScenes(i);
      }
    }
  }

  lemma FirstScenes(i: nat)
    requires i < 6
    ensures Enabled(Scene(i), Script(i)) && Scene(i + 1) == Next(Scene(i), Script(i))
  {
    assert i in {0, 1, 2, 3, 4, 5};
  }

  lemma MiddleScenes(i: nat)
    requires 6 <= i < 11
    ensures Enabled(Scene(i), Script(i)) && Scene(i + 1) == Next(Scene(i), Script(i))
  {
    assert i in {6, 7, 8, 9, 10};
  }

  lemma LastScenes(i: nat)
    requires 11 <= i < 15
    ensures Enabled(Scene(i), Script(i)) && Scene(i + 1) == Next(Scene(i), Script(i))
  {
    assert i in {11, 12, 13, 14};
  }

  // One caller starts the worker, the worker runs and finds nothing more to do;
  // the second caller tests, the worker leaves, the second caller flags.
  function Script(i: nat): Action {
    if i == 0 then Call(1)
    else if i < 6 then CallerStep(1, false)
    else if i == 11 then SplitTest(2)
    else if i == 14 then CallerStep(2, false)
    else WorkerStep(false, false, 0)
  }

  // The states of that run.
  function Scene(i: nat): State {
    var created := INITIAL.(due := true, active := true, inProgress := true, threadValid := true, slot := TheWorker);
    var idle := created.(due := false, inProgress := false);
    var tested := idle.(due := true, callers := map[2 := Flag]);
    match i
    case 0 => INITIAL
    case 1 => INITIAL.(due := true, callers := map[1 := Reserve])
    case 2 => INITIAL.(due := true, active := true, slot := Caller(1), callers := map[1 := Mark])
    case 3 => INITIAL.(due := true, active := true, inProgress := true, slot := Caller(1), callers := map[1 := Lock])
    case 4 => Scene(3).(mutex := Caller(1), callers := map[1 := Held])
    case 5 => Scene(4).(callers := map[1 := Create])
    case 6 => created.(worker := Thread(RunStart))
    case 7 => created.(due := false, worker := Thread(Running))
    case 8 => idle.(worker := Thread(CheckLatch))
    case 9 => idle.(worker := Thread(Decide))
    case 10 => idle.(worker := Thread(Settle(false)))
    case 11 => idle.(worker := Thread(Release))
    case 12 => tested.(worker := Thread(Release))
    case 13 => tested.(active := false, slot := Nobody, worker := Thread(Recheck))
    case 14 => tested.(active := false, slot := Nobody, worker := Thread(Done))
    case _ => tested.(active := false, slot := Nobody, worker := Thread(Done), callers := map[], requested := true)
  }
}
