// The background recording writer of src/record/c64-record-writer.c: a bounded
// queue of nodes between the packet threads and one writer thread.
module RecordWriter {

  const MAX_BYTES: nat := 8 * 1024 * 1024

  datatype Stream = AudioStream | VideoStream

  datatype Node = Node(stream: Stream, size: nat)

  function Bytes(q: seq<Node>): nat {
    if q == [] then 0 else Bytes(q[..|q| - 1]) + q[|q| - 1].size
  }

  lemma {:induction false} BytesFromFront(q: seq<Node>)
    requires q != []
    ensures Bytes(q) == q[0].size + Bytes(q[1..])
  {
    if |q| > 1 {
      var front := q[..|q| - 1];
      BytesFromFront(front);
      assert q[1..][..|q| - 2] == front[1..];
    }
  }

  datatype WriterPc = Waiting | Holding(node: Node) | Ended

  datatype State = State(
    queue: seq<Node>, queuedBytes: int, stopping: bool, writer: WriterPc, drops: nat,
    // History: nodes accepted, and nodes that reached the file step with their outcome.
    accepted: seq<Node>, written: seq<Node>, failed: seq<Node>, rejected: nat, handled: seq<Node>)

  const START := State([], 0, false, Waiting, 0, [], [], [], 0, [])

  datatype Action =
    | Enqueue(node: Node, hasMemory: bool)
    | Take                          // the writer's critical section
    | WriteOut(bytesWritten: nat)   // the file step for the node taken
    | RequestStop

  predicate Enabled(s: State, a: Action) {
    match a
    case Enqueue(node, _) => node.size > 0
    case Take => s.writer.Waiting? && (s.queue != [] || s.stopping)
    case WriteOut(_) => s.writer.Holding?
    case RequestStop => true
  }

  predicate Fits(s: State, size: nat) {
    !s.stopping && size <= MAX_BYTES && s.queuedBytes <= MAX_BYTES - size
  }

  function Next(s: State, a: Action): State
    requires Enabled(s, a)
  {
    match a
    case Enqueue(node, hasMemory) =>
      if hasMemory && Fits(s, node.size) then
        s.(queue := s.queue + [node], queuedBytes := s.queuedBytes + node.size, accepted := s.accepted + [node])
      else s.(drops := s.drops + 1, rejected := s.rejected + 1)
    case Take =>
      if s.queue == [] then s.(writer := Ended)
      else s.(queue := s.queue[1..], queuedBytes := s.queuedBytes - s.queue[0].size, writer := Holding(s.queue[0]))
    case WriteOut(bytesWritten) =>
      var node := s.writer.node;
      var ok := bytesWritten == node.size;
      s.(writer := Waiting, handled := s.handled + [node],
         written := if ok then s.written + [node] else s.written,
         failed := if ok then s.failed else s.failed + [node],
         drops := if ok then s.drops else s.drops + 1)
    case RequestStop => s.(stopping := true)
  }

  function InHand(s: State): seq<Node> {
    if s.writer.Holding? then [s.writer.node] else []
  }

  ghost predicate Inv(s: State) {
    // The byte count is exact and bounded.
    && s.queuedBytes == Bytes(s.queue) <= MAX_BYTES
    // Accepted nodes reach the file step once each and in order.
    && s.accepted == s.handled + InHand(s) + s.queue
    && multiset(s.handled) == multiset(s.written) + multiset(s.failed)
    // Every drop is a rejected node or a failed write.
    && s.drops == s.rejected + |s.failed|
    && (s.writer.Ended? ==> s.stopping && s.queue == [])
  }

  lemma EnqueueKeepsInv(s: State, node: Node, hasMemory: bool)
    requires Inv(s) && Enabled(s, Enqueue(node, hasMemory))
    ensures Inv(Next(s, Enqueue(node, hasMemory)))
  {
    assert (s.queue + [node])[..|s.queue|] == s.queue;
    assert s.accepted + [node] == s.handled + InHand(s) + (s.queue + [node]);
  }

  lemma TakeKeepsInv(s: State)
    requires Inv(s) && Enabled(s, Take)
    ensures Inv(Next(s, Take))
  {
    if s.queue != [] {
      BytesFromFront(s.queue);
      assert s.handled + [] + s.queue == s.handled + [s.queue[0]] + s.queue[1..];
    }
  }

  lemma WriteOutKeepsInv(s: State, bytesWritten: nat)
    requires Inv(s) && Enabled(s, WriteOut(bytesWritten))
    ensures Inv(Next(s, WriteOut(bytesWritten)))
  {
    var node := s.writer.node;
    assert s.handled + [node] + s.queue == (s.handled + [node]) + [] + s.queue;
  }

  lemma InvStep(s: State, a: Action)
    requires Inv(s) && Enabled(s, a)
    ensures Inv(Next(s, a))
  {
    match a
    case Enqueue(node, hasMemory) => EnqueueKeepsInv(s, node, hasMemory);
    case Take => TakeKeepsInv(s);
    case WriteOut(bytesWritten) => WriteOutKeepsInv(s, bytesWritten);
    case RequestStop =>
  }

  // Step i of the run is enabled where it is taken.
  ghost predicate Moves(states: seq<State>, acts: seq<Action>, i: nat)
    requires i < |acts| && |states| == |acts| + 1
  {
    Enabled(states[i], acts[i]) && states[i + 1] == Next(states[i], acts[i])
  }

  ghost predicate IsRun(states: seq<State>, acts: seq<Action>) {
    && |states| == |acts| + 1
    && forall i :: 0 <= i < |acts| ==> Moves(states, acts, i)
  }

  // Over every run the accounts balance, and once the writer thread has ended,
  // which is all that stop waits for, every accepted node was handled.
  lemma {:induction false} RunsBalance(states: seq<State>, acts: seq<Action>, i: nat)
    requires IsRun(states, acts) && states[0] == START && i < |states|
    ensures Inv(states[i])
    ensures states[i].writer.Ended? ==> states[i].handled == states[i].accepted
  {
    if i > 0 {
      RunsBalance(states, acts, i - 1);
      assert Moves(states, acts, i - 1);
      InvStep(states[i - 1], acts[i - 1]);
    }
  }

  // After a stop request, each turn of the writer shortens what is left.
  function Left(s: State): nat {
    2 * |s.queue| + (if s.writer.Holding? then 1 else 0) + (if s.writer.Ended? then 0 else 1)
  }

  lemma StopDrains(s: State, a: Action)
    requires Inv(s) && s.stopping && Enabled(s, a)
    ensures !s.writer.Ended? ==> Enabled(s, if s.writer.Holding? then WriteOut(0) else Take)
    ensures Next(s, a).stopping && Left(Next(s, a)) <= Left(s)
    ensures a.Take? || a.WriteOut? ==> Left(Next(s, a)) < Left(s)
  {
    InvStep(s, a);
  }
}
