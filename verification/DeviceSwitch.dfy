// Switching devices: c64_update on the UI thread against the retry worker, which
// takes the recorded transition, starts the new device and then stops the old
// ones (src/c64-source.c). Remote commands are steps with an outcome.
module DeviceSwitch {
  import opened Words
  import opened Options
  import opened StopQueues

  datatype Endpoint = Endpoint(host: string, port: u32)

  datatype Worker =
    | Idle
    | Starting(target: Endpoint, switching: bool)   // inside c64_start_streaming
    | Resending(target: Endpoint)                   // repeating the start commands while streaming
    // Stopping the device of entry i, after comparing it with the selected one.
    | Stopping(i: nat, compared: Endpoint)

  datatype Command = Start | Stop

  datatype State = State(
    current: Endpoint, streaming: bool, worker: Worker, pending: Option<Endpoint>, queue: seq<Entry>,
    // History: devices told to stream that have not since confirmed a stop, been
    // given up on, or been dropped from a full queue; the last command each
    // device can have got; whether the last start succeeded.
    owed: set<Endpoint>, last: map<Endpoint, Command>, settled: bool)

  function Initial(e: Endpoint): State {
    State(e, false, Idle, None, [], {}, map[], false)
  }

  datatype Action =
    // The user selects an endpoint; `changed` when host or any port differs.
    | Update(to: Endpoint, changed: bool)
    // Taking the transition, raising the in-flight flag and reading the address
    // to start are one step.
    | BeginStart
    | BeginResend
    | ProactiveStop                       // confirmed by the target
    | Accepted                            // the target begins to stream
    | StartSucceeds
    // `stillStreaming`: the old receivers were left running. `stopped`: the
    // stops sent while giving up, to the selected device, were confirmed.
    | StartFails(stillStreaming: bool, stopped: bool)
    | ResendEnds
    // The drain loop at entry i: it is the selected device's, or not.
    | DropSelected(i: nat)
    | BeginStop(i: nat)
    // Both stops confirmed; not confirmed, or the device unreachable, in which
    // case none was sent; or given up for a newer request.
    | StopConfirmed
    | StopFailed(sent: bool)
    | StopYields(sent: bool)

  predicate Enabled(s: State, a: Action) {
    match a
    case Update(to, changed) => to != s.current ==> changed
    case BeginStart => s.worker.Idle? && (!s.streaming || s.pending.Some?)
    case BeginResend => s.worker.Idle? && s.streaming && s.pending.None?
    case ProactiveStop => s.worker.Starting? && !s.worker.switching
    case Accepted => s.worker.Starting? || s.worker.Resending?
    case StartSucceeds => s.worker.Starting?
    case StartFails(stillStreaming, _) => s.worker.Starting? && (stillStreaming ==> s.streaming)
    case ResendEnds => s.worker.Resending?
    case DropSelected(i) => s.worker.Idle? && i < |s.queue| && EntryEndpoint(s.queue[i]) == s.current
    case BeginStop(i) => s.worker.Idle? && i < |s.queue| && EntryEndpoint(s.queue[i]) != s.current
    case StopConfirmed => IsStopping(s)
    case StopFailed(_) => IsStopping(s)
    case StopYields(_) => IsStopping(s)
  }

  predicate IsStopping(s: State) {
    s.worker.Stopping? && s.worker.i < |s.queue|
  }

  function EntryEndpoint(e: Entry): Endpoint {
    Endpoint(e.host, e.port)
  }

  function NewEntry(e: Endpoint): Entry {
    Entry(e.host, e.port, "", 0, 0)
  }

  // The device a taken transition pushes out of a full queue.
  function Displaced(s: State): set<Endpoint> {
    if s.pending.None? then {}
    else
      match Overflow(s.queue, s.pending.value.host, s.pending.value.port)
      case Some(e) => {EntryEndpoint(e)}
      case None => {}
  }

  // Queue after the take: the old device joins, the selected one is cancelled.
  function Taken(s: State): seq<Entry> {
    if s.pending.None? then s.queue
    else Cancelled(Added(s.queue, NewEntry(s.pending.value)), s.current.host, s.current.port)
  }

  function Told(e: Endpoint): set<Endpoint> {
    if Stoppable(e.host) then {e} else {}
  }

  function GivenUp(s: State, i: nat): set<Endpoint>
    requires i < |s.queue|
  {
    if s.queue[i].attempts + 1 >= STOP_ATTEMPTS then {EntryEndpoint(s.queue[i])} else {}
  }

  // The device a step may send a command to, and which.
  function Sent(s: State, a: Action): map<Endpoint, Command>
    requires Enabled(s, a)
  {
    match a
    case ProactiveStop => map[s.worker.target := Stop]
    case Accepted => map[s.worker.target := Start]
    case StartSucceeds => map[s.worker.target := Start]
    case StartFails(_, _) => map[s.current := Stop]
    case StopConfirmed => map[EntryEndpoint(s.queue[s.worker.i]) := Stop]
    case StopFailed(sent) => if sent then map[EntryEndpoint(s.queue[s.worker.i]) := Stop] else map[]
    case StopYields(sent) => if sent then map[EntryEndpoint(s.queue[s.worker.i]) := Stop] else map[]
    case _ => map[]
  }

  function Next(s: State, a: Action): State
    requires Enabled(s, a)
  {
    var last := s.last + Sent(s, a);
    match a
    case Update(to, changed) =>
      var records := changed && (s.streaming || s.worker.Starting?) && s.pending.None?;
      s.(current := to, pending := if records then Some(s.current) else s.pending)
    case BeginStart =>
      s.(worker := Starting(s.current, s.pending.Some?), queue := Taken(s), pending := None,
         owed := s.owed - Displaced(s), settled := false)
    case BeginResend => s.(worker := Resending(s.current))
    case ProactiveStop => s.(owed := s.owed - {s.worker.target}, last := last)
    case Accepted => s.(owed := s.owed + Told(s.worker.target), last := last)
    case StartSucceeds =>
      s.(worker := Idle, streaming := true, owed := s.owed + Told(s.worker.target), last := last, settled := true)
    case StartFails(stillStreaming, stopped) =>
      s.(worker := Idle, streaming := stillStreaming, owed := if stopped then s.owed - {s.current} else s.owed,
         last := last)
    case ResendEnds => s.(worker := Idle)
    case DropSelected(i) => s.(queue := Removed(s.queue, i))
    case BeginStop(i) => s.(worker := Stopping(i, s.current))
    case StopConfirmed =>
      var i := s.worker.i;
      s.(worker := Idle, queue := Removed(s.queue, i), owed := s.owed - {EntryEndpoint(s.queue[i])}, last := last)
    case StopFailed(_) =>
      var i := s.worker.i;
      s.(worker := Idle, queue := Failed(s.queue, i), owed := s.owed - GivenUp(s, i), last := last)
    case StopYields(_) => s.(worker := Idle, last := last)
  }

  ghost predicate Queued(s: State, e: Endpoint) {
    Has(s.queue, e.host, e.port)
  }

  // e streams to this source and nothing will ever tell it to stop.
  ghost predicate Stranded(s: State, e: Endpoint) {
    e in s.owed && e != s.current && s.pending != Some(e) && !Queued(s, e)
  }

  ghost predicate NoneStranded(s: State) {
    forall e :: e in s.owed ==> !Stranded(s, e)
  }

  // What every run keeps, stranded devices or not.
  ghost predicate Sane(s: State) {
    && Sound(s.queue)
    && (forall e :: e in s.owed ==> Stoppable(e.host))
    // The device being started is the selected one or will be taken next.
    && (s.worker.Starting? || s.worker.Resending? ==>
          s.pending == Some(s.worker.target) || (s.pending == None && s.worker.target == s.current))
    && (s.worker.Resending? ==> s.streaming)
    // The queue does not change while a stop is under way.
    && (s.worker.Stopping? ==>
          s.worker.i < |s.queue| && EntryEndpoint(s.queue[s.worker.i]) != s.worker.compared)
  }

  // The devices queued after a take: the old device joins, one may be dropped
  // for it, and the selected one leaves.
  lemma TakenHas(s: State)
    requires Sound(s.queue)
    ensures Sound(Taken(s)) && (s.pending.None? ==> Taken(s) == s.queue)
    ensures s.pending.Some? ==> forall h, p :: Has(Taken(s), h, p) <==>
              Endpoint(h, p) != s.current &&
              ((Has(s.queue, h, p) && Endpoint(h, p) !in Displaced(s)) ||
               (Endpoint(h, p) == s.pending.value && Stoppable(h)))
  {
    if s.pending.Some? {
      AddKeepsSound(s.queue, NewEntry(s.pending.value));
      CancelKeepsSound(Added(s.queue, NewEntry(s.pending.value)), s.current.host, s.current.port);
    }
  }

  lemma StepKeepsSane(s: State, a: Action)
    requires Sane(s) && Enabled(s, a)
    ensures Sane(Next(s, a))
  {
    match a
    case BeginStart => TakenHas(s);
    case DropSelected(i) => RemoveKeepsSound(s.queue, i);
    case StopConfirmed => RemoveKeepsSound(s.queue, s.worker.i);
    case StopFailed(_) => FailKeepsSound(s.queue, s.worker.i);
    case _ =>
  }

  // The selected device streams, and the next change of device would not record it.
  ghost predicate Exposed(s: State) {
    && s.current in s.owed && !Queued(s, s.current) && s.pending != Some(s.current)
    && (s.pending.Some? || !(s.streaming || s.worker.Starting?))
  }

  // The exact condition for one step: only a change of device can strand one,
  // and it does if and only if the device left was exposed.
  lemma StepStrandsIff(s: State, a: Action)
    requires Sane(s) && NoneStranded(s) && Enabled(s, a)
    ensures !NoneStranded(Next(s, a)) <==> a.Update? && a.to != s.current && Exposed(s)
  {
    var t := Next(s, a);
    match a
    case Update(to, changed) =>
      if to != s.current && Exposed(s) {
        assert Stranded(t, s.current);
      }
    case BeginStart =>
      TakenHas(s);
      forall e | e in t.owed
        ensures !Stranded(t, e)
      {
        assert !Stranded(s, e);
      }
    case DropSelected(i) => RemoveKeepsSound(s.queue, i);
    case StopConfirmed => RemoveKeepsSound(s.queue, s.worker.i);
    case StopFailed(_) => FailKeepsSound(s.queue, s.worker.i);
    case _ =>
  }

  // The two steps that expose the selected device, as their guards see them.
  // A failed start of a device already told to stream that neither stops it nor
  // leaves the source streaming; and the drain loop discarding the entry of the
  // selected device while it still streams but the source does not, or while a
  // transition from yet another device is recorded.
  ghost predicate Risky(s: State, a: Action)
    requires Enabled(s, a)
  {
    match a
    case StartFails(stillStreaming, stopped) =>
      s.worker.target == s.current && s.pending.None? && s.current in s.owed && !Queued(s, s.current)
      && !stillStreaming && !stopped
    case DropSelected(i) =>
      s.current in s.owed && s.pending != Some(s.current) && (s.pending.Some? || !s.streaming)
    case _ => false
  }

  ghost predicate Good(s: State) {
    Sane(s) && NoneStranded(s) && !Exposed(s)
  }

  lemma StepExposesIff(s: State, a: Action)
    requires Good(s) && Enabled(s, a)
    ensures Exposed(Next(s, a)) <==> Risky(s, a)
  {
    match a
    case Update(to, _) => assert !Stranded(s, to);
    case BeginStart => TakenHas(s);
    case DropSelected(i) => RemoveKeepsSound(s.queue, i);
    case StopConfirmed => RemoveKeepsSound(s.queue, s.worker.i);
    case StopFailed(_) => FailKeepsSound(s.queue, s.worker.i);
    case _ =>
  }

  // From a good state a step leads to a good state exactly when it is not risky.
  lemma StepStaysGoodIff(s: State, a: Action)
    requires Good(s) && Enabled(s, a)
    ensures Good(Next(s, a)) <==> !Risky(s, a)
  {
    StepKeepsSane(s, a);
    StepStrandsIff(s, a);
    StepExposesIff(s, a);
  }

  // Step i of the run is enabled where it is taken.
  ghost predicate Moves(states: seq<State>, acts: seq<Action>, i: nat)
    requires i < |acts| && |states| == |acts| + 1
  {
    Enabled(states[i], acts[i]) && states[i + 1] == Next(states[i], acts[i])
  }

  ghost predicate IsRun(states: seq<State>, acts: seq<Action>) {
    && |states| == |acts| + 1
    && forall i :: 0 <= i < |acts| ==> Moves(states, acts, i)
  }

  // Over every run without a risky step, every device told to stream is the
  // selected one, the pending transition or queued, until it confirms a stop,
  // is given up on or overflows the queue. No device is stranded.
  lemma {:induction false} RunsStrandNobody(states: seq<State>, acts: seq<Action>, e: Endpoint, i: nat)
    requires IsRun(states, acts) && states[0] == Initial(e) && i < |states|
    requires forall j :: 0 <= j < i && Moves(states, acts, j) ==> !Risky(states[j], acts[j])
    ensures Good(states[i])
  {
    if i > 0 {
      RunsStrandNobody(states, acts, e, i - 1);
      assert Moves(states, acts, i - 1);
      StepStaysGoodIff(states[i - 1], acts[i - 1]);
    }
  }

  // A risky step followed by one change of device strands a device.
  lemma RiskIsReal(s: State, a: Action, to: Endpoint)
    requires Good(s) && Enabled(s, a) && Risky(s, a) && to != s.current
    ensures Next(s, a).current == s.current && Enabled(Next(s, a), Update(to, true))
    ensures Stranded(Next(Next(s, a), Update(to, true)), s.current)
  {
    StepStaysGoodIff(s, a);
    StepStrandsIff(s, a);
  }

  // ------------------------------------------------------------ the last command

  // While no transition is recorded, the device compared is the selected one.
  ghost predicate ComparedIsCurrent(s: State) {
    s.worker.Stopping? && s.settled && s.pending.None? ==> s.worker.compared == s.current
  }

  // After a successful start, with no transition recorded, the selected device
  // was last told to start.
  ghost predicate LastIsStart(s: State) {
    s.settled && s.pending.None? ==> s.streaming && s.current in s.last && s.last[s.current] == Start
  }

  ghost predicate CommandInv(s: State) {
    Sane(s) && ComparedIsCurrent(s) && LastIsStart(s) && (s.settled ==> s.streaming && !s.worker.Starting?)
  }

  lemma StepKeepsCommandInv(s: State, a: Action)
    requires CommandInv(s) && Enabled(s, a)
    ensures CommandInv(Next(s, a))
  {
    StepKeepsSane(s, a);
  }

  lemma {:induction false} RunsKeepCommandInv(states: seq<State>, acts: seq<Action>, e: Endpoint, i: nat)
    requires IsRun(states, acts) && states[0] == Initial(e) && i < |states|
    ensures CommandInv(states[i])
  {
    if i > 0 {
      RunsKeepCommandInv(states, acts, e, i - 1);
      assert Moves(states, acts, i - 1);
      StepKeepsCommandInv(states[i - 1], acts[i - 1]);
    }
  }

  // Over every run: once a start has succeeded and no transition is waiting, the
  // last command the selected device got is a start, and no step sends it a
  // stop, whatever is still queued.
  lemma SelectedIsLastStarted(states: seq<State>, acts: seq<Action>, e: Endpoint, i: nat)
    requires IsRun(states, acts) && states[0] == Initial(e) && i < |states|
    requires states[i].settled && states[i].pending.None?
    ensures var s := states[i];
            && s.streaming && s.current in s.last && s.last[s.current] == Start
            && (i < |acts| && Moves(states, acts, i) && s.current in Sent(s, acts[i]) ==>
                  Sent(s, acts[i])[s.current] == Start)
  {
    RunsKeepCommandInv(states, acts, e, i);
  }

  // ------------------------------------------------------------------ witnesses

  const A := Endpoint("a", 64)
  const B := Endpoint("b", 64)
  const C := Endpoint("c", 64)

  // A start that fails after the device accepted the stream, its stop
  // unconfirmed, and then another device is selected: the first streams on.
  lemma FailedStartStrands() returns (states: seq<State>, acts: seq<Action>)
    ensures IsRun(states, acts) && states[0] == Initial(A)
    ensures Stranded(states[|acts|], A)
  {
    acts := [BeginStart, Accepted, StartFails(false, false), Update(B, true)];
    var s0 := Initial(A);
    var s1 := Next(s0, acts[0]);
    var s2 := Next(s1, acts[1]);
    var s3 := Next(s2, acts[2]);
    states := [s0, s1, s2, s3, Next(s3, acts[3])];
  }

  // The drain loop discards the entry of a device selected again before its
  // restart, and yet another device is selected.
  lemma DiscardedEntryStrands() returns (states: seq<State>, acts: seq<Action>)
    ensures IsRun(states, acts) && states[0] == Initial(A)
    ensures Stranded(states[|acts|], A)
  {
    states, acts := seq(10, (i: nat) => Scene(i)), seq(9, (i: nat) => Script(i));
    forall i: nat | i < 9
      ensures Moves(states, acts, i)
    {
      if i < 5 {
        FirstScenes(i);
      } else {
        LastScenes(i);
      }
    }
  }

  function Script(i: nat): Action {
    match i
    case 0 => BeginStart
    case 1 => Accepted
    case 2 => StartSucceeds
    case 3 => Update(B, true)
    case 4 => BeginStart
    case 5 => StartFails(false, false)
    case 6 => Update(A, true)
    case 7 => DropSelected(0)
    case _ => Update(C, true)
  }

  function Scene(i: nat): State {
    var told, done := map[A := Start], map[A := Start, B := Stop];
    match i
    case 0 => Initial(A)
    case 1 => State(A, false, Starting(A, false), None, [], {}, map[], false)
    case 2 => State(A, false, Starting(A, false), None, [], {A}, told, false)
    case 3 => State(A, true, Idle, None, [], {A}, told, true)
    case 4 => State(B, true, Idle, Some(A), [], {A}, told, true)
    case 5 => State(B, true, Starting(B, true), None, [NewEntry(A)], {A}, told, false)
    case 6 => State(B, false, Idle, None, [NewEntry(A)], {A}, done, false)
    case 7 => State(A, false, Idle, None, [NewEntry(A)], {A}, done, false)
    case 8 => State(A, false, Idle, None, [], {A}, done, false)
    case _ => State(C, false, Idle, None, [], {A}, done, false)
  }

  lemma FirstScenes(i: nat)
    requires i < 5
    ensures Enabled(Scene(i), Script(i)) && Scene(i + 1) == Next(Scene(i), Script(i))
  {
    if i == 4 {
      TakeQueuesOld();
    }
  }

  lemma LastScenes(i: nat)
    requires 5 <= i < 9
    ensures Enabled(Scene(i), Script(i)) && Scene(i + 1) == Next(Scene(i), Script(i))
  {
  }

  lemma TakeQueuesOld()
    ensures Taken(Scene(4)) == [NewEntry(A)]
  {
    assert Added([], NewEntry(A)) == [NewEntry(A)];
    assert Cancelled([NewEntry(A)], "b", 64) == [NewEntry(A)];
  }
}
