// The single-producer single-consumer packet FIFO of
// src/network/c64-network-fifo.h. The class is its operations run one after
// another; the step system below it interleaves them access by access.
module PacketFifo {
  import opened Words
  import opened RingIndex

  const PACKET_MAX_SIZE: nat := 780

  datatype Packet = Packet(timestamp: u64, fromHandover: bool, paletteCutover: bool, data: seq<byte>)

  function NextIndex(cap: nat, i: nat): nat
    requires cap > 0
  {
    (i + 1) % cap
  }

  lemma NextIndexIs(cap: nat, i: nat)
    requires i < cap
    ensures NextIndex(cap, i) == if i + 1 == cap then 0 else i + 1
  {
  }

  // The queue the indices describe, oldest first.
  function Queue(entries: seq<Packet>, tail: nat, head: nat): (q: seq<Packet>)
    requires tail < |entries| && head < |entries|
    ensures |q| == Count(|entries|, tail, head)
  {
    if head >= tail then entries[tail..head] else entries[tail..] + entries[..head]
  }

  lemma QueueGrows(entries: seq<Packet>, tail: nat, head: nat, p: Packet)
    requires tail < |entries| && head < |entries| && NextIndex(|entries|, head) != tail && entries[head] == p
    ensures Queue(entries, tail, NextIndex(|entries|, head)) == Queue(entries, tail, head) + [p]
  {
    NextIndexIs(|entries|, head);
  }

  lemma QueueShrinks(entries: seq<Packet>, tail: nat, head: nat)
    requires tail < |entries| && head < |entries| && tail != head
    ensures Queue(entries, tail, head)[0] == entries[tail]
    ensures Queue(entries, NextIndex(|entries|, tail), head) == Queue(entries, tail, head)[1..]
  {
    NextIndexIs(|entries|, tail);
  }

  // Writing the free slot at head does not touch the queue.
  lemma FreeSlotUnseen(entries: seq<Packet>, tail: nat, head: nat, p: Packet)
    requires tail < |entries| && head < |entries|
    ensures Queue(entries[head := p], tail, head) == Queue(entries, tail, head)
  {
  }

  lemma FullIff(cap: nat, tail: nat, head: nat)
    requires tail < cap && head < cap
    ensures NextIndex(cap, head) == tail <==> Count(cap, tail, head) == cap - 1
  {
    NextIndexIs(cap, head);
  }

  // --------------------------------------------------------------- the operations

  class Fifo {
    const entries: array<Packet>
    var head: nat
    var tail: nat
    var droppedFull: nat

    ghost predicate Valid()
      reads this, entries
    {
      entries.Length > 0 && head < entries.Length && tail < entries.Length
    }

    ghost function Contents(): (q: seq<Packet>)
      requires Valid()
      reads this, entries
    {
      Queue(entries[..], tail, head)
    }

    constructor (capacity: nat)
      requires capacity > 0
      ensures Valid() && Contents() == [] && droppedFull == 0 && entries.Length == capacity && fresh(entries)
    {
      entries := new Packet[capacity](_ => Packet(0, false, false, []));
      head, tail, droppedFull := 0, 0, 0;
    }

    method Reset()
      requires Valid()
      modifies this
      ensures Valid() && Contents() == [] && droppedFull == 0
    {
      head, tail, droppedFull := 0, 0, 0;
    }

    method PushTagged(p: Packet) returns (pushed: bool)
      requires Valid()
      modifies this`head, this`droppedFull, entries
      ensures Valid()
      ensures pushed <==> entries.Length >= 2 && |p.data| <= PACKET_MAX_SIZE && |old(Contents())| < entries.Length - 1
      ensures Contents() == if pushed then old(Contents()) + [p] else old(Contents())
      ensures droppedFull == old(droppedFull) +
        if entries.Length >= 2 && |p.data| <= PACKET_MAX_SIZE && !pushed then 1 else 0
    {
      if entries.Length < 2 || |p.data| > PACKET_MAX_SIZE {
        return false;
      }
      var nextHead := NextIndex(entries.Length, head);
      FullIff(entries.Length, tail, head);
      if nextHead == tail {
        droppedFull := droppedFull + 1;
        return false;
      }
      ghost var before := entries[..];
      FreeSlotUnseen(before, tail, head, p);
      entries[head] := p;
      assert entries[..] == before[head := p];
      QueueGrows(entries[..], tail, head, p);
      head := nextHead;
      pushed := true;
    }

    // The oldest packet, left in place.
    method Peek() returns (found: bool, p: Packet)
      requires Valid()
      ensures found <==> Contents() != []
      ensures found ==> p == Contents()[0]
    {
      p := entries[tail];
      found := head != tail;
      if found {
        QueueShrinks(entries[..], tail, head);
      }
    }

    // Frees the packet peeked at.
    method CommitPop()
      requires Valid() && Contents() != []
      modifies this`tail
      ensures Valid() && Contents() == old(Contents())[1..]
    {
      QueueShrinks(entries[..], tail, head);
      NextIndexIs(entries.Length, tail);
      tail := NextIndex(entries.Length, tail);
    }
  }

  // ----------------------------------------------------------- the interleaving

  // The producer between its accesses to the shared indices.
  datatype Producer =
    | PIdle
    | PLoadTail(p: Packet, head: nat)
    | PCountDrop
    | PWrite(p: Packet, head: nat)
    | PPublish(p: Packet, head: nat)

  // The consumer: peek, copy the entry, commit.
  datatype Consumer =
    | CIdle
    | CLoadTail(head: nat)
    | CCopy(tail: nat)
    | CCommit(tail: nat, copy: Packet)

  datatype State = State(
    entries: seq<Packet>, head: nat, tail: nat, droppedFull: nat, producer: Producer, consumer: Consumer,
    // History: what push accepted, what was delivered, how often push found the FIFO full.
    accepted: seq<Packet>, delivered: seq<Packet>, foundFull: nat)

  function Start(entries: seq<Packet>): State {
    State(entries, 0, 0, 0, PIdle, CIdle, [], [], 0)
  }

  datatype Action = Push(p: Packet) | ProducerStep | ConsumerStep

  // A step needs its thread to be there and its accesses to lie within the array;
  // RunsAreFifo shows that they always do.
  predicate Enabled(s: State, a: Action) {
    s.entries != [] &&
    match a
    case Push(_) => s.producer.PIdle?
    case ProducerStep => !s.producer.PIdle? && (s.producer.PWrite? ==> s.producer.head < |s.entries|)
    case ConsumerStep => s.consumer.CCopy? ==> s.consumer.tail < |s.entries|
  }

  function NextProducer(s: State): State
    requires Enabled(s, ProducerStep)
  {
    match s.producer
    case PLoadTail(p, head) =>
      if NextIndex(|s.entries|, head) == s.tail then s.(producer := PCountDrop, foundFull := s.foundFull + 1)
      else s.(producer := PWrite(p, head))
    case PCountDrop => s.(producer := PIdle, droppedFull := s.droppedFull + 1)
    case PWrite(p, head) => s.(producer := PPublish(p, head), entries := s.entries[head := p])
    case PPublish(p, head) => s.(producer := PIdle, head := NextIndex(|s.entries|, head), accepted := s.accepted + [p])
  }

  function NextConsumer(s: State): State
    requires Enabled(s, ConsumerStep)
  {
    match s.consumer
    case CIdle => s.(consumer := CLoadTail(s.head))
    case CLoadTail(head) => s.(consumer := if head == s.tail then CIdle else CCopy(s.tail))
    case CCopy(tail) => s.(consumer := CCommit(tail, s.entries[tail]))
    case CCommit(tail, copy) =>
      s.(consumer := CIdle, tail := NextIndex(|s.entries|, s.tail), delivered := s.delivered + [copy])
  }

  function Next(s: State, a: Action): State
    requires Enabled(s, a)
  {
    match a
    case Push(p) =>
      if |s.entries| < 2 || |p.data| > PACKET_MAX_SIZE then s else s.(producer := PLoadTail(p, s.head))
    case ProducerStep => NextProducer(s)
    case ConsumerStep => NextConsumer(s)
  }

  ghost predicate Inv(s: State) {
    var cap := |s.entries|;
    && cap > 0 && s.head < cap && s.tail < cap
    && s.accepted == s.delivered + Queue(s.entries, s.tail, s.head)
    && (s.producer.PLoadTail? ==> cap >= 2 && s.producer.head == s.head)
    && (s.producer.PWrite? ==> s.producer.head == s.head && NextIndex(cap, s.head) != s.tail)
    && (s.producer.PPublish? ==>
          s.producer.head == s.head && NextIndex(cap, s.head) != s.tail && s.entries[s.head] == s.producer.p)
    // A head loaded earlier lies between tail and head.
    && (s.consumer.CLoadTail? ==>
          s.consumer.head < cap && Count(cap, s.tail, s.consumer.head) <= Count(cap, s.tail, s.head))
    && (s.consumer.CCopy? ==> s.consumer.tail == s.tail != s.head)
    && (s.consumer.CCommit? ==> s.consumer.tail == s.tail != s.head && s.consumer.copy == s.entries[s.tail])
    && s.foundFull == s.droppedFull + (if s.producer.PCountDrop? then 1 else 0)
  }

  ghost function Abstract(s: State): seq<Packet>
    requires Inv(s)
  {
    Queue(s.entries, s.tail, s.head)
  }

  // In every state the invariant allows, a thread that is there can take its step.
  lemma StepsAreEnabled(s: State)
    requires Inv(s)
    ensures (!s.producer.PIdle? ==> Enabled(s, ProducerStep)) && Enabled(s, ConsumerStep)
    ensures forall p :: s.producer.PIdle? ==> Enabled(s, Push(p))
  {
  }

  lemma ProducerKeepsInv(s: State)
    requires Inv(s) && Enabled(s, ProducerStep)
    ensures Inv(NextProducer(s))
    ensures Abstract(NextProducer(s)) == Abstract(s) + (if s.producer.PPublish? then [s.producer.p] else [])
    ensures s.producer.PLoadTail? ==>
      (NextProducer(s).producer.PCountDrop? <==> |Abstract(s)| == |s.entries| - 1)
  {
    var cap := |s.entries|;
    NextIndexIs(cap, s.head);
    FullIff(cap, s.tail, s.head);
    match s.producer
    case PLoadTail(_, _) =>
    case PCountDrop =>
    case PWrite(p, head) => FreeSlotUnseen(s.entries, s.tail, s.head, p);
    case PPublish(p, head) => QueueGrows(s.entries, s.tail, s.head, p);
  }

  lemma CommitTakesOldest(s: State)
    requires Inv(s) && s.consumer.CCommit?
    ensures Abstract(s) != [] && s.consumer.copy == Abstract(s)[0]
    ensures Queue(s.entries, NextConsumer(s).tail, s.head) == Abstract(s)[1..]
    ensures s.accepted == NextConsumer(s).delivered + Abstract(s)[1..]
  {
    QueueShrinks(s.entries, s.tail, s.head);
    var q := Abstract(s);
    assert s.delivered + q == (s.delivered + [q[0]]) + q[1..];
  }

  // After a commit the entry at head is still free.
  lemma CommitFreesEntry(cap: nat, tail: nat, head: nat)
    requires tail < cap && head < cap && tail != head && NextIndex(cap, tail) < cap
    ensures NextIndex(cap, head) != tail ==> NextIndex(cap, head) != NextIndex(cap, tail)
  {
    NextIndexIs(cap, tail);
    NextIndexIs(cap, head);
  }

  lemma CommitKeepsInv(s: State)
    requires Inv(s) && s.consumer.CCommit?
    ensures Inv(NextConsumer(s)) && Abstract(s) == [s.consumer.copy] + Abstract(NextConsumer(s))
  {
    CommitTakesOldest(s);
    NextIndexIs(|s.entries|, s.tail);
    NextIndexIs(|s.entries|, s.head);
    CommitFreesEntry(|s.entries|, s.tail, s.head);
  }

  lemma ConsumerKeepsInv(s: State)
    requires Inv(s)
    ensures Inv(NextConsumer(s))
    ensures if s.consumer.CCommit?
      then Abstract(s) == [s.consumer.copy] + Abstract(NextConsumer(s))
      else Abstract(NextConsumer(s)) == Abstract(s)
  {
    match s.consumer
    case CIdle =>
    case CLoadTail(_) =>
    case CCopy(_) =>
    case CCommit(_, _) => CommitKeepsInv(s);
  }

  // Each access of either thread is a step of a bounded queue of capacity - 1:
  // publishing appends, committing removes what was peeked, a push is rejected
  // exactly when the queue is full at its test, and nothing else is visible.
  lemma StepRefinesQueue(s: State, a: Action)
    requires Inv(s) && Enabled(s, a)
    ensures Inv(Next(s, a)) && |Abstract(s)| <= |s.entries| - 1 && |Next(s, a).entries| == |s.entries|
    ensures var t := Next(s, a);
            if a.ProducerStep? && s.producer.PPublish? then Abstract(t) == Abstract(s) + [s.producer.p]
            else if a.ConsumerStep? && s.consumer.CCommit? then Abstract(s) == [s.consumer.copy] + Abstract(t)
            else Abstract(t) == Abstract(s)
    ensures a.ProducerStep? && s.producer.PLoadTail? ==>
              (Next(s, a).producer.PCountDrop? <==> |Abstract(s)| == |s.entries| - 1)
  {
    match a
    case Push(_) =>
    case ProducerStep => ProducerKeepsInv(s);
    case ConsumerStep => ConsumerKeepsInv(s);
  }

  // Step i of the run is enabled where it is taken.
  ghost predicate Moves(states: seq<State>, acts: seq<Action>, i: nat)
    requires i < |acts| && |states| == |acts| + 1
  {
    Enabled(states[i], acts[i]) && states[i + 1] == Next(states[i], acts[i])
  }

  ghost predicate IsRun(states: seq<State>, acts: seq<Action>) {
    && |states| == |acts| + 1
    && forall i :: 0 <= i < |acts| ==> Moves(states, acts, i)
  }

  lemma {:induction false} RunsKeepInv(states: seq<State>, acts: seq<Action>, entries: seq<Packet>, i: nat)
    requires IsRun(states, acts) && entries != [] && states[0] == Start(entries) && i < |states|
    ensures Inv(states[i]) && |states[i].entries| == |entries|
  {
    if i > 0 {
      RunsKeepInv(states, acts, entries, i - 1);
      assert Moves(states, acts, i - 1);
      StepRefinesQueue(states[i - 1], acts[i - 1]);
    }
  }

  // Over every interleaving: packets with their tags come out in push order,
  // none is lost, duplicated or overwritten before its commit, every push
  // rejected because the queue is full is counted, and no access misses the array.
  lemma RunsAreFifo(states: seq<State>, acts: seq<Action>, entries: seq<Packet>, i: nat)
    requires IsRun(states, acts) && entries != [] && states[0] == Start(entries) && i < |states|
    ensures var s := states[i];
            && Inv(s) && |s.entries| == |entries|
            && s.accepted == s.delivered + Abstract(s) && |Abstract(s)| <= |entries| - 1
            && s.foundFull == s.droppedFull + (if s.producer.PCountDrop? then 1 else 0)
            && (!s.producer.PIdle? ==> Enabled(s, ProducerStep)) && Enabled(s, ConsumerStep)
  {
    RunsKeepInv(states, acts, entries, i);
    StepsAreEnabled(states[i]);
    StepRefinesQueue(states[i], ConsumerStep);
  }

  // The producer never writes the entry the consumer is looking at.
  lemma PeekedEntryIsStable(s: State, a: Action)
    requires Inv(s) && Enabled(s, a) && (s.consumer.CCopy? || s.consumer.CCommit?) && !a.ConsumerStep?
    ensures Next(s, a).consumer == s.consumer
    ensures Next(s, a).entries[s.consumer.tail] == s.entries[s.consumer.tail]
  {
  }
}
