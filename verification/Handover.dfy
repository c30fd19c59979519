// The ingest filter of src/network/c64-ingest-filter.h and the hand-over of the
// picture from one device to the next: the receive loops tag and admit packets,
// the processor drops, flushes and reorders them (src/audio/c64-audio.c,
// src/video/c64-video.c), and c64_update opens the handover (src/c64-source.c).
module Handover {
  import opened Words
  import opened Options
  import opened Counts

  type Ip = u32

  // ---------------------------------------------------------------- the filter

  // The peer fields of the source; an absent address is a cleared flag.
  datatype Peers = Peers(expected: Option<Ip>, alt: Option<Ip>, learned: Option<Ip>, handover: Option<Ip>,
                         flushPending: bool, rejected: Ip)

  // Senders accepted for the selected device. Without an expected peer the
  // filter fails open.
  predicate FromExpectedPeer(p: Peers, from: Ip) {
    p.expected.None? || p.expected == Some(from) || p.alt == Some(from) || p.learned == Some(from)
  }

  predicate FromHandover(p: Peers, from: Ip) {
    p.handover == Some(from)
  }

  // A packet of the selected device that ends the handover.
  predicate Closes(p: Peers, from: Ip) {
    FromExpectedPeer(p, from) && p.expected.Some? && p.handover.Some? && p.handover != Some(from)
  }

  predicate Admitted(p: Peers, from: Ip) {
    FromExpectedPeer(p, from) || FromHandover(p, from)
  }

  function AfterAdmit(p: Peers, from: Ip): Peers {
    if Closes(p, from) then p.(handover := None, flushPending := true)
    else if Admitted(p, from) then p
    else p.(rejected := from)
  }

  class Filter {
    var peers: Peers

    constructor (peers: Peers)
      ensures this.peers == peers
    {
      this.peers := peers;
    }

    method PacketAdmit(from: Ip) returns (admit: bool)
      modifies this
      ensures admit == Admitted(old(peers), from) && peers == AfterAdmit(old(peers), from)
    {
      if FromExpectedPeer(peers, from) {
        if peers.handover.Some? && peers.expected.Some? && from != peers.handover.value {
          // Published before the handover closes.
          peers := peers.(flushPending := true);
          peers := peers.(handover := None);
        }
        return true;
      }
      if peers.handover.Some? && from == peers.handover.value {
        return true;
      }
      peers := peers.(rejected := from);
      admit := false;
    }

    // The cut-over of the processor: what to do with a packet it dequeued.
    method ShouldDrop(fromHandover: bool) returns (drop: bool, flush: bool)
      modifies this
      ensures drop <==> fromHandover && old(peers.handover).None?
      ensures flush <==> !fromHandover && old(peers.flushPending)
      ensures peers == if flush then old(peers).(flushPending := false) else old(peers)
    {
      drop, flush := false, false;
      if fromHandover {
        return peers.handover.None?, false;
      }
      if peers.flushPending {
        peers := peers.(flushPending := false);
        flush := true;
      }
    }
  }

  // ---------------------------------------------------------------- the protocol

  datatype Stream = VideoStream | AudioStream

  datatype Item = Item(from: Ip, tagged: bool)

  // A receive thread inside c64_packet_admit. A packet that ends the handover
  // goes through two writes: the flush is published, then the handover closed.
  datatype Thread =
    | Ready
    | Publishing(from: Ip, fits: bool)
    | Closing(from: Ip, fits: bool)

  datatype State = State(
    peers: Peers, video: seq<Item>, audio: seq<Item>, videoIn: Thread, audioIn: Thread,
    // Senders of the packets in the reorder buffer and the frame under assembly.
    held: seq<Ip>)

  function Queued(s: State, stream: Stream): seq<Item> {
    if stream.VideoStream? then s.video else s.audio
  }

  function Arriving(s: State, stream: Stream): Thread {
    if stream.VideoStream? then s.videoIn else s.audioIn
  }

  datatype Action =
    // Tagging, testing and, unless the packet ends the handover, pushing are one
    // step. A full FIFO loses the packet.
    | Receive(stream: Stream, from: Ip, fits: bool)
    | Publish(stream: Stream)
    | Close(stream: Stream)
    | Dequeue(stream: Stream)
    | Deliver(i: nat)                         // a held packet leaves the reorder buffer
    | Learn(ip: Ip)                           // another interface of the selected device
    | Expire                                  // the retry worker stopped waiting
    | Resolve(expected: Option<Ip>)           // the retry worker looked the host up again
    // The receivers restart with empty FIFOs, once their threads have ended.
    | Restart
    | Switch(expected: Option<Ip>, alt: Option<Ip>, transition: bool)

  predicate Enabled(s: State, a: Action) {
    match a
    case Receive(stream, _, _) => Arriving(s, stream) == Ready
    case Publish(stream) => Arriving(s, stream).Publishing?
    case Close(stream) => Arriving(s, stream).Closing?
    case Dequeue(stream) => Queued(s, stream) != []
    case Deliver(i) => i < |s.held|
    case Learn(_) => s.peers.expected.Some?
    case Restart => s.videoIn == s.audioIn == Ready
    case _ => true
  }

  // What the processor does with the packet at the head of a FIFO.
  predicate Drops(s: State, stream: Stream)
    requires Queued(s, stream) != []
  {
    Queued(s, stream)[0].tagged && s.peers.handover.None?
  }

  predicate Flushes(s: State, stream: Stream)
    requires Queued(s, stream) != []
  {
    !Queued(s, stream)[0].tagged && s.peers.flushPending
  }

  // The expected peer set from an address, or cleared for a host without one.
  function Resolved(p: Peers, expected: Option<Ip>): Peers {
    var changed := p.expected != expected || expected.None?;
    p.(expected := expected,
       alt := if changed then None else p.alt,
       learned := if changed then None else p.learned,
       rejected := if changed && expected.Some? then 0 else p.rejected)
  }

  // The settings update: the new peer replaces the old one, whose picture is
  // kept when a transition was recorded for a device that had been resolved.
  function Switched(p: Peers, expected: Option<Ip>, alt: Option<Ip>, transition: bool): Peers {
    Resolved(p, expected).(
      alt := if expected.Some? && alt == expected then None else alt,
      handover := if transition && p.expected.Some? && expected != p.expected then p.expected else p.handover)
  }

  // What the receive thread of a stream changes: the peers, where it is, and its FIFO.
  function Received(s: State, stream: Stream, peers: Peers, thread: Thread, pushed: seq<Item>): State {
    s.(peers := peers,
       videoIn := if stream.VideoStream? then thread else s.videoIn,
       audioIn := if stream.AudioStream? then thread else s.audioIn,
       video := if stream.VideoStream? then s.video + pushed else s.video,
       audio := if stream.AudioStream? then s.audio + pushed else s.audio)
  }

  function Next(s: State, a: Action): State
    requires Enabled(s, a)
  {
    match a
    case Receive(stream, from, fits) =>
      if Closes(s.peers, from) then Received(s, stream, s.peers, Publishing(from, fits), [])
      else
        var pushed := if Admitted(s.peers, from) && fits then [Item(from, FromHandover(s.peers, from))] else [];
        Received(s, stream, AfterAdmit(s.peers, from), Ready, pushed)
    case Publish(stream) =>
      var t := Arriving(s, stream);
      Received(s, stream, s.peers.(flushPending := true), Closing(t.from, t.fits), [])
    case Close(stream) =>
      var t := Arriving(s, stream);
      Received(s, stream, s.peers.(handover := None), Ready, if t.fits then [Item(t.from, false)] else [])
    case Dequeue(stream) =>
      var item := Queued(s, stream)[0];
      var kept := if Flushes(s, stream) then [] else s.held;
      s.(peers := if Flushes(s, stream) then s.peers.(flushPending := false) else s.peers,
         held := if Drops(s, stream) then s.held else kept + [item.from],
         video := if stream.VideoStream? then s.video[1..] else s.video,
         audio := if stream.AudioStream? then s.audio[1..] else s.audio)
    case Deliver(i) => s.(held := s.held[..i] + s.held[i + 1..])
    case Learn(ip) => s.(peers := s.peers.(learned := Some(ip)))
    case Expire => s.(peers := s.peers.(handover := None))
    case Resolve(expected) => s.(peers := Resolved(s.peers, expected))
    case Restart => s.(video := [], audio := [])
    case Switch(expected, alt, transition) => s.(peers := Switched(s.peers, expected, alt, transition))
  }

  // The steps of one thread, with nothing in between, are what PacketAdmit does.
  lemma StepsAreAdmit(s: State, stream: Stream, from: Ip, fits: bool)
    requires Arriving(s, stream) == Ready
    ensures var t := Next(s, Receive(stream, from, fits));
            var u := if Closes(s.peers, from) then Next(Next(t, Publish(stream)), Close(stream)) else t;
            && u.peers == AfterAdmit(s.peers, from) && Arriving(u, stream) == Ready
            && Queued(u, stream) == Queued(s, stream) +
                 if Admitted(s.peers, from) && fits then [Item(from, FromHandover(s.peers, from))] else []
  {
    var t := Next(s, Receive(stream, from, fits));
    if Closes(s.peers, from) {
      assert Arriving(t, stream) == Publishing(from, fits) && Queued(t, stream) == Queued(s, stream);
      var p := Next(t, Publish(stream));
      assert Arriving(p, stream) == Closing(from, fits) && Queued(p, stream) == Queued(s, stream);
    }
  }

  // Step i of the run is enabled where it is taken.
  ghost predicate Moves(states: seq<State>, acts: seq<Action>, i: nat)
    requires i < |acts| && |states| == |acts| + 1
  {
    Enabled(states[i], acts[i]) && states[i + 1] == Next(states[i], acts[i])
  }

  ghost predicate IsRun(states: seq<State>, acts: seq<Action>) {
    && |states| == |acts| + 1
    && forall i :: 0 <= i < |acts| ==> Moves(states, acts, i)
  }

  // A run between two switches.
  ghost predicate IsHandoverRun(states: seq<State>, acts: seq<Action>) {
    IsRun(states, acts) && forall i :: 0 <= i < |acts| ==> !acts[i].Switch?
  }

  // The step at which a packet of the new device ends the handover.
  ghost predicate ClosedAt(states: seq<State>, acts: seq<Action>, c: nat) {
    IsHandoverRun(states, acts) && c < |acts| && acts[c].Close? && states[c].peers.handover.Some?
  }

  lemma {:induction false} StaysClosed(states: seq<State>, acts: seq<Action>, c: nat, i: nat)
    requires IsHandoverRun(states, acts) && c <= i < |states| && states[c].peers.handover.None?
    ensures states[i].peers.handover.None?
    decreases i
  {
    if i > c {
      StaysClosed(states, acts, c, i - 1);
      assert Moves(states, acts, i - 1);
    }
  }

  // Once the handover is closed, whoever closed it, no packet tagged as the
  // previous device's is passed on.
  lemma NoTaggedPacketPasses(states: seq<State>, acts: seq<Action>, c: nat, i: nat)
    requires IsHandoverRun(states, acts) && c <= i < |acts| && states[c].peers.handover.None?
    requires acts[i].Dequeue? && Queued(states[i], acts[i].stream) != [] && Queued(states[i], acts[i].stream)[0].tagged
    ensures states[i + 1].held == states[i].held
  {
    StaysClosed(states, acts, c, i);
    assert Moves(states, acts, i);
  }

  // ------------------------------------------------------------------ the flush

  ghost predicate TakesUntagged(s: State, a: Action) {
    a.Dequeue? && Queued(s, a.stream) != [] && !Queued(s, a.stream)[0].tagged
  }

  ghost predicate SignalsFlush(s: State, a: Action) {
    TakesUntagged(s, a) && s.peers.flushPending
  }

  // Which steps of a run signal the flush.
  ghost function FlushMarks(states: seq<State>, acts: seq<Action>): (marks: seq<bool>)
    requires |states| == |acts| + 1
    ensures |marks| == |acts|
  {
    seq(|acts|, i requires 0 <= i < |acts| => SignalsFlush(states[i], acts[i]))
  }

  // Flushes among the steps c .. i-1.
  ghost function FlushCount(states: seq<State>, acts: seq<Action>, c: nat, i: nat): nat
    requires c <= i <= |acts| && |states| == |acts| + 1
  {
    Count(FlushMarks(states, acts), c, i)
  }

  ghost predicate UntaggedDequeued(states: seq<State>, acts: seq<Action>, c: nat, i: nat)
    requires |states| == |acts| + 1 && i <= |acts|
  {
    exists j :: c <= j < i && TakesUntagged(states[j], acts[j])
  }

  function IsPublishing(t: Thread): nat {
    if t.Publishing? then 1 else 0
  }

  // Flushes still to come: one published, and one of each thread about to.
  function FlushesLeft(s: State): nat {
    IsPublishing(s.videoIn) + IsPublishing(s.audioIn) + (if s.peers.flushPending then 1 else 0)
  }

  lemma FlushStep(s: State, a: Action)
    requires s.peers.handover.None? && Enabled(s, a) && !a.Switch?
    ensures FlushesLeft(Next(s, a)) + (if SignalsFlush(s, a) then 1 else 0) <= FlushesLeft(s)
    ensures s.peers.flushPending && !TakesUntagged(s, a) ==> Next(s, a).peers.flushPending
  {
  }

  lemma CloseUsesNoFlush(s: State, a: Action)
    requires a.Close? && Enabled(s, a)
    ensures FlushesLeft(Next(s, a)) == FlushesLeft(s) <= 2 && Next(s, a).peers.flushPending == s.peers.flushPending
  {
  }

  lemma {:induction false} FlushesRunOut(states: seq<State>, acts: seq<Action>, c: nat, i: nat)
    requires IsHandoverRun(states, acts) && c <= i <= |acts| && states[c].peers.handover.None?
    ensures FlushCount(states, acts, c, i) + FlushesLeft(states[i]) <= FlushesLeft(states[c])
    decreases i
  {
    if i > c {
      FlushesRunOut(states, acts, c, i - 1);
      StaysClosed(states, acts, c, i - 1);
      assert Moves(states, acts, i - 1);
      FlushStep(states[i - 1], acts[i - 1]);
    }
  }

  lemma UntaggedDequeuedStep(states: seq<State>, acts: seq<Action>, c: nat, i: nat)
    requires |states| == |acts| + 1 && c < i <= |acts|
    ensures UntaggedDequeued(states, acts, c, i) <==>
            UntaggedDequeued(states, acts, c, i - 1) || TakesUntagged(states[i - 1], acts[i - 1])
  {
    if UntaggedDequeued(states, acts, c, i - 1) {
      var j :| c <= j < i - 1 && TakesUntagged(states[j], acts[j]);
    }
  }

  // A pending flush comes with the first untagged packet dequeued, not before.
  lemma {:induction false} FlushComesWithUntagged(states: seq<State>, acts: seq<Action>, c: nat, i: nat)
    requires IsHandoverRun(states, acts) && c <= i <= |acts|
    requires states[c].peers.handover.None? && states[c].peers.flushPending
    ensures FlushCount(states, acts, c, i) > 0 <==> UntaggedDequeued(states, acts, c, i)
    ensures !UntaggedDequeued(states, acts, c, i) ==> states[i].peers.flushPending
    decreases i
  {
    if i > c {
      FlushComesWithUntagged(states, acts, c, i - 1);
      StaysClosed(states, acts, c, i - 1);
      assert Moves(states, acts, i - 1);
      FlushStep(states[i - 1], acts[i - 1]);
      UntaggedDequeuedStep(states, acts, c, i);
      if !UntaggedDequeued(states, acts, c, i - 1) {
        assert SignalsFlush(states[i - 1], acts[i - 1]) <==> TakesUntagged(states[i - 1], acts[i - 1]);
      }
    }
  }

  // However the two receive threads interleave, the flush comes at most twice
  // after the close, and one still pending then comes with the first untagged
  // packet dequeued.
  lemma FlushedAtMostTwice(states: seq<State>, acts: seq<Action>, c: nat, i: nat)
    requires ClosedAt(states, acts, c) && c < i <= |acts|
    ensures FlushCount(states, acts, c + 1, i) <= 2
    ensures states[c].peers.flushPending ==>
              (FlushCount(states, acts, c + 1, i) > 0 <==> UntaggedDequeued(states, acts, c + 1, i))
  {
    assert Moves(states, acts, c);
    CloseUsesNoFlush(states[c], acts[c]);
    FlushesRunOut(states, acts, c + 1, i);
    if states[c].peers.flushPending {
      FlushComesWithUntagged(states, acts, c + 1, i);
    }
  }

  // With a flush pending and no thread about to publish another, exactly once.
  lemma FlushedExactlyOnce(states: seq<State>, acts: seq<Action>, c: nat, i: nat)
    requires IsHandoverRun(states, acts) && c <= i <= |acts| && states[c].peers.handover.None?
    requires states[c].peers.flushPending && !states[c].videoIn.Publishing? && !states[c].audioIn.Publishing?
    ensures FlushCount(states, acts, c, i) == if UntaggedDequeued(states, acts, c, i) then 1 else 0
    ensures states[i].peers.flushPending <==> !UntaggedDequeued(states, acts, c, i)
  {
    FlushesRunOut(states, acts, c, i);
    FlushComesWithUntagged(states, acts, c, i);
  }

  ghost predicate Continues(s: State, states: seq<State>, acts: seq<Action>) {
    IsHandoverRun(states, acts) && states[0] == s
  }

  lemma Prepended(s: State, a: Action, rest: seq<State>, steps: seq<Action>)
      returns (states: seq<State>, acts: seq<Action>)
    requires Enabled(s, a) && !a.Switch? && Continues(Next(s, a), rest, steps)
    ensures states == [s] + rest && acts == [a] + steps && Continues(s, states, acts)
    ensures FlushCount(states, acts, 0, |acts|) ==
            (if SignalsFlush(s, a) then 1 else 0) + FlushCount(rest, steps, 0, |steps|)
    ensures TakesUntagged(s, a) || UntaggedDequeued(rest, steps, 0, |steps|) ==>
              UntaggedDequeued(states, acts, 0, |acts|)
  {
    states, acts := [s] + rest, [a] + steps;
    forall i | 0 <= i < |acts|
      ensures Moves(states, acts, i) && !acts[i].Switch?
    {
      if i > 0 {
        assert Moves(rest, steps, i - 1) && !steps[i - 1].Switch?;
      }
    }
    PrependedCounts(s, a, rest, steps);
  }

  lemma PrependedCounts(s: State, a: Action, rest: seq<State>, steps: seq<Action>)
    requires |rest| == |steps| + 1
    ensures var states, acts := [s] + rest, [a] + steps;
            && FlushCount(states, acts, 0, |acts|) ==
                 (if SignalsFlush(s, a) then 1 else 0) + FlushCount(rest, steps, 0, |steps|)
            && (TakesUntagged(s, a) || UntaggedDequeued(rest, steps, 0, |steps|) ==>
                  UntaggedDequeued(states, acts, 0, |acts|))
  {
    var states, acts := [s] + rest, [a] + steps;
    assert FlushMarks(states, acts) == [SignalsFlush(s, a)] + FlushMarks(rest, steps);
    CountPrepended(SignalsFlush(s, a), FlushMarks(rest, steps), |steps|);
    if UntaggedDequeued(rest, steps, 0, |steps|) {
      var j :| 0 <= j < |steps| && TakesUntagged(rest[j], steps[j]);
      assert TakesUntagged(states[j + 1], acts[j + 1]);
    } else if TakesUntagged(s, a) {
      assert TakesUntagged(states[0], acts[0]);
    }
  }

  // In every continuation the flush is signalled exactly once, with the first
  // untagged packet dequeued.
  ghost predicate FlushesOnce(s: State) {
    forall states: seq<State>, acts: seq<Action> :: Continues(s, states, acts) ==>
      FlushCount(states, acts, 0, |acts|) == if UntaggedDequeued(states, acts, 0, |acts|) then 1 else 0
  }

  // The exact condition, in any state with the handover closed: the flush is
  // pending and no thread is about to publish another.
  lemma FlushesOnceIff(s: State)
    requires s.peers.handover.None?
    ensures FlushesOnce(s) <==> s.peers.flushPending && !s.videoIn.Publishing? && !s.audioIn.Publishing?
  {
    if s.peers.flushPending && !s.videoIn.Publishing? && !s.audioIn.Publishing? {
      forall states: seq<State>, acts: seq<Action> | Continues(s, states, acts)
        ensures FlushCount(states, acts, 0, |acts|) == if UntaggedDequeued(states, acts, 0, |acts|) then 1 else 0
      {
        FlushedExactlyOnce(states, acts, 0, |acts|);
      }
    } else {
      var video := s.videoIn == Ready || (s.audioIn != Ready && s.videoIn.Closing?);
      var first := if video then VideoStream else AudioStream;
      var states, acts := FlushesOtherwise(s, first);
      assert Continues(s, states, acts);
    }
  }

  // Lets a busy receive thread finish, and then flushes not at all or twice.
  lemma {:induction false} FlushesOtherwise(s: State, first: Stream)
      returns (states: seq<State>, acts: seq<Action>)
    requires s.peers.handover.None?
    requires !(s.peers.flushPending && !s.videoIn.Publishing? && !s.audioIn.Publishing?)
    // A thread that is about to publish finishes first only if both are.
    requires Arriving(s, first).Publishing? ==> Arriving(s, Other(first)).Publishing?
    ensures Continues(s, states, acts) && UntaggedDequeued(states, acts, 0, |acts|)
    ensures FlushCount(states, acts, 0, |acts|) != 1
    decreases match Arriving(s, first) case Ready => 0 case Closing(_, _) => 1 case Publishing(_, _) => 2
  {
    if Arriving(s, first) == Ready {
      states, acts := FlushesFrom(s, first, s.peers.flushPending);
    } else {
      var a := if Arriving(s, first).Closing? then Close(first) else Publish(first);
      var rest, steps := FlushesOtherwise(Next(s, a), first);
      states, acts := Prepended(s, a, rest, steps);
    }
  }

  // The packet that closes the handover is followed by exactly one flush in
  // every continuation if and only if its own flush has not been used up by then
  // and the other thread has not found the handover open too.
  lemma CloseFlushesOnceIff(s: State, stream: Stream)
    requires Enabled(s, Close(stream))
    ensures FlushesOnce(Next(s, Close(stream))) <==> s.peers.flushPending && !Arriving(s, Other(stream)).Publishing?
  {
    FlushesOnceIff(Next(s, Close(stream)));
  }

  function Other(stream: Stream): Stream {
    if stream.VideoStream? then AudioStream else VideoStream
  }

  ghost predicate HasUntagged(q: seq<Item>) {
    exists i :: 0 <= i < |q| && !q[i].tagged
  }

  // A sender that is always expected.
  function Sender(p: Peers): (ip: Ip)
    ensures FromExpectedPeer(p, ip)
  {
    if p.expected.Some? then p.expected.value else 0
  }

  lemma ReceiveQueuesUntagged(s: State, stream: Stream)
    requires s.peers.handover.None? && Arriving(s, stream) == Ready
    ensures var t := Next(s, Receive(stream, Sender(s.peers), true));
            && t.peers == s.peers && Arriving(t, stream) == Ready
            && Arriving(t, Other(stream)) == Arriving(s, Other(stream))
            && HasUntagged(Queued(t, stream))
  {
    var t := Next(s, Receive(stream, Sender(s.peers), true));
    assert Queued(t, stream)[|Queued(s, stream)|] == Item(Sender(s.peers), false);
  }

  // A continuation that dequeues an untagged packet of a stream at rest, after
  // which the other thread, if it is to flush again, publishes another flush.
  lemma {:induction false} FlushesFrom(s: State, ready: Stream, again: bool)
      returns (states: seq<State>, acts: seq<Action>)
    requires s.peers.handover.None? && Arriving(s, ready) == Ready
    requires again ==> Arriving(s, Other(ready)).Publishing?
    ensures Continues(s, states, acts) && UntaggedDequeued(states, acts, 0, |acts|)
    ensures FlushCount(states, acts, 0, |acts|) == (if s.peers.flushPending then 1 else 0) + (if again then 1 else 0)
    decreases again, if HasUntagged(Queued(s, ready)) then 0 else 1, |Queued(s, ready)|
  {
    var a, q := Dequeue(ready), Queued(s, ready);
    var rest, steps;
    if !HasUntagged(q) {
      a := Receive(ready, Sender(s.peers), true);
      ReceiveQueuesUntagged(s, ready);
      rest, steps := FlushesFrom(Next(s, a), ready, again);
    } else if q[0].tagged {
      var i :| 0 <= i < |q| && !q[i].tagged;
      assert q[1..][i - 1] == q[i];
      rest, steps := FlushesFrom(Next(s, a), ready, again);
    } else if again {
      rest, steps := PublishesThenFlushes(Next(s, a), ready);
    } else {
      rest, steps := [Next(s, a)], [];
    }
    states, acts := Prepended(s, a, rest, steps);
  }

  lemma {:induction false} PublishesThenFlushes(s: State, ready: Stream) returns (states: seq<State>, acts: seq<Action>)
    requires s.peers.handover.None? && Arriving(s, ready) == Ready && Arriving(s, Other(ready)).Publishing?
    requires !s.peers.flushPending
    ensures Continues(s, states, acts) && UntaggedDequeued(states, acts, 0, |acts|)
    ensures FlushCount(states, acts, 0, |acts|) == 1
    decreases true, 0, 0
  {
    var a := Publish(Other(ready));
    var t := Next(s, a);
    assert Arriving(t, ready) == Ready && t.peers.flushPending;
    var rest, steps := FlushesFrom(t, ready, false);
    states, acts := Prepended(s, a, rest, steps);
  }

  // --------------------------------------------------------------------- purity

  // Senders that belong to the selected device: a set that contains every
  // sender the filter expects.
  ghost predicate Expects(p: Peers, mine: iset<Ip>) {
    forall ip :: FromExpectedPeer(p, ip) ==> ip in mine
  }

  ghost predicate Selected(states: seq<State>, mine: iset<Ip>) {
    forall i :: 0 <= i < |states| ==> Expects(states[i].peers, mine)
  }

  ghost predicate UntaggedAreMine(q: seq<Item>, mine: iset<Ip>) {
    forall i :: 0 <= i < |q| && !q[i].tagged ==> q[i].from in mine
  }

  ghost predicate ArrivesMine(t: Thread, mine: iset<Ip>) {
    t.Ready? || !t.fits || t.from in mine
  }

  // No untagged packet of another device is queued or about to be.
  ghost predicate MineComing(s: State, mine: iset<Ip>) {
    && UntaggedAreMine(s.video, mine) && UntaggedAreMine(s.audio, mine)
    && ArrivesMine(s.videoIn, mine) && ArrivesMine(s.audioIn, mine)
  }

  ghost predicate HeldAreMine(s: State, mine: iset<Ip>) {
    forall i :: 0 <= i < |s.held| ==> s.held[i] in mine
  }

  // A closed handover after which only packets of the selected device are held.
  ghost predicate Settled(s: State, mine: iset<Ip>) {
    && s.peers.handover.None? && MineComing(s, mine)
    && (s.peers.flushPending || HeldAreMine(s, mine))
  }

  lemma DequeueStaysSettled(s: State, stream: Stream, mine: iset<Ip>)
    requires Settled(s, mine) && Enabled(s, Dequeue(stream))
    ensures Settled(Next(s, Dequeue(stream)), mine)
  {
    var q := Queued(s, stream);
    assert q[0].tagged || q[0].from in mine;
    assert UntaggedAreMine(q[1..], mine);
  }

  lemma StepStaysSettled(s: State, a: Action, mine: iset<Ip>)
    requires Settled(s, mine) && Enabled(s, a) && !a.Switch? && Expects(s.peers, mine)
    ensures Settled(Next(s, a), mine)
  {
    match a
    case Receive(_, from, _) =>
      assert Admitted(s.peers, from) ==> FromExpectedPeer(s.peers, from);
    case Dequeue(stream) => DequeueStaysSettled(s, stream, mine);
    case _ =>
  }

  lemma RunStepStaysSettled(states: seq<State>, acts: seq<Action>, mine: iset<Ip>, i: nat)
    requires IsHandoverRun(states, acts) && Selected(states, mine) && 0 < i < |states| && Settled(states[i - 1], mine)
    ensures Settled(states[i], mine)
  {
    var s, a := states[i - 1], acts[i - 1];
    assert Moves(states, acts, i - 1) && Expects(s.peers, mine);
    StepStaysSettled(s, a, mine);
  }

  lemma {:induction false} RunStaysSettled(states: seq<State>, acts: seq<Action>, mine: iset<Ip>, c: nat, i: nat)
    requires IsHandoverRun(states, acts) && Selected(states, mine) && c <= i < |states| && Settled(states[c], mine)
    ensures Settled(states[i], mine)
    decreases i
  {
    if i > c {
      RunStaysSettled(states, acts, mine, c, i - 1);
      RunStepStaysSettled(states, acts, mine, i);
    }
  }

  // Every continuation holds only packets of the selected device whenever no
  // flush is pending.
  ghost predicate StaysPure(s: State, mine: iset<Ip>) {
    forall states: seq<State>, acts: seq<Action> :: Continues(s, states, acts) && Selected(states, mine) ==>
      states[|acts|].peers.flushPending || HeldAreMine(states[|acts|], mine)
  }

  // The exact condition, in any state with the handover closed.
  lemma PureIffSettled(s: State, mine: iset<Ip>)
    requires s.peers.handover.None? && Expects(s.peers, mine)
    ensures StaysPure(s, mine) <==> Settled(s, mine)
  {
    if Settled(s, mine) {
      forall states: seq<State>, acts: seq<Action> | Continues(s, states, acts) && Selected(states, mine)
        ensures states[|acts|].peers.flushPending || HeldAreMine(states[|acts|], mine)
      {
        RunStaysSettled(states, acts, mine, 0, |acts|);
      }
    } else {
      var states, acts := Spoils(s, mine);
      assert Continues(s, states, acts);
    }
  }

  // The packet that closes the handover leaves every continuation pure exactly
  // when no untagged packet of another device is queued or about to be, and
  // either its flush has not been used up or nothing foreign was held by then.
  lemma CloseIsPureIff(s: State, stream: Stream, mine: iset<Ip>)
    requires Enabled(s, Close(stream)) && Expects(s.peers, mine)
    ensures StaysPure(Next(s, Close(stream)), mine) <==>
            MineComing(s, mine) && (s.peers.flushPending || HeldAreMine(s, mine))
  {
    var t := Next(s, Close(stream));
    PureIffSettled(t, mine);
    var item := Item(Arriving(s, stream).from, false);
    if Arriving(s, stream).fits {
      assert Queued(t, stream) == Queued(s, stream) + [item];
      LastUntagged(Queued(s, stream), item, mine);
    } else {
      assert Queued(t, stream) == Queued(s, stream);
    }
  }

  lemma LastUntagged(q: seq<Item>, item: Item, mine: iset<Ip>)
    requires !item.tagged
    ensures UntaggedAreMine(q + [item], mine) <==> UntaggedAreMine(q, mine) && item.from in mine
  {
    if UntaggedAreMine(q + [item], mine) {
      assert forall i :: 0 <= i < |q| ==> (q + [item])[i] == q[i];
      assert (q + [item])[|q|] == item;
    }
  }

  // Likewise for the worker ending an open handover, which publishes no flush.
  lemma ExpiryIsPureIff(s: State, mine: iset<Ip>)
    requires Expects(s.peers, mine)
    ensures StaysPure(Next(s, Expire), mine) <==>
            MineComing(s, mine) && (s.peers.flushPending || HeldAreMine(s, mine))
  {
    PureIffSettled(Next(s, Expire), mine);
  }

  // An impure continuation of a state that is not settled.
  lemma Spoils(s: State, mine: iset<Ip>) returns (states: seq<State>, acts: seq<Action>)
    requires s.peers.handover.None? && Expects(s.peers, mine) && !Settled(s, mine)
    ensures Continues(s, states, acts) && Selected(states, mine)
    ensures !states[|acts|].peers.flushPending && !HeldAreMine(states[|acts|], mine)
  {
    if !UntaggedAreMine(s.video, mine) {
      states, acts := SpoilsFrom(s, VideoStream, mine);
    } else if !UntaggedAreMine(s.audio, mine) {
      states, acts := SpoilsFrom(s, AudioStream, mine);
    } else if !ArrivesMine(s.videoIn, mine) {
      states, acts := SpoilsOnArrival(s, VideoStream, mine);
    } else if !ArrivesMine(s.audioIn, mine) {
      states, acts := SpoilsOnArrival(s, AudioStream, mine);
    } else {
      states, acts := [s], [];
    }
  }

  // Dequeuing up to a foreign untagged packet.
  lemma {:induction false} SpoilsFrom(s: State, stream: Stream, mine: iset<Ip>)
      returns (states: seq<State>, acts: seq<Action>)
    requires s.peers.handover.None? && Expects(s.peers, mine) && !UntaggedAreMine(Queued(s, stream), mine)
    ensures Continues(s, states, acts) && Selected(states, mine)
    ensures !states[|acts|].peers.flushPending && !HeldAreMine(states[|acts|], mine)
    decreases |Queued(s, stream)|
  {
    var q := Queued(s, stream);
    var i :| 0 <= i < |q| && !q[i].tagged && q[i].from !in mine;
    var t := Next(s, Dequeue(stream));
    assert Expects(t.peers, mine);
    if i == 0 {
      assert t.held[|t.held| - 1] == q[0].from;
      states, acts := [s, t], [Dequeue(stream)];
    } else {
      assert Queued(t, stream)[i - 1] == q[i];
      var rest, steps := SpoilsFrom(t, stream, mine);
      states, acts := Prepended(s, Dequeue(stream), rest, steps);
    }
  }

  // Letting a receive thread finish with a foreign packet, then dequeuing it.
  lemma SpoilsOnArrival(s: State, stream: Stream, mine: iset<Ip>) returns (states: seq<State>, acts: seq<Action>)
    requires s.peers.handover.None? && Expects(s.peers, mine) && !ArrivesMine(Arriving(s, stream), mine)
    ensures Continues(s, states, acts) && Selected(states, mine)
    ensures !states[|acts|].peers.flushPending && !HeldAreMine(states[|acts|], mine)
  {
    if Arriving(s, stream).Publishing? {
      var t := Next(s, Publish(stream));
      assert Expects(t.peers, mine) && Arriving(t, stream).Closing?;
      var rest, steps := SpoilsOnClose(t, stream, mine);
      states, acts := Prepended(s, Publish(stream), rest, steps);
    } else {
      states, acts := SpoilsOnClose(s, stream, mine);
    }
  }

  lemma SpoilsOnClose(s: State, stream: Stream, mine: iset<Ip>) returns (states: seq<State>, acts: seq<Action>)
    requires s.peers.handover.None? && Expects(s.peers, mine)
    requires Arriving(s, stream).Closing? && !ArrivesMine(Arriving(s, stream), mine)
    ensures Continues(s, states, acts) && Selected(states, mine)
    ensures !states[|acts|].peers.flushPending && !HeldAreMine(states[|acts|], mine)
  {
    var t := Next(s, Close(stream));
    assert Expects(t.peers, mine);
    assert Queued(t, stream)[|Queued(s, stream)|] == Item(Arriving(s, stream).from, false);
    var rest, steps := SpoilsFrom(t, stream, mine);
    states, acts := Prepended(s, Close(stream), rest, steps);
  }

  // ------------------------------------------------------- the promise over runs

  ghost predicate NoneUntagged(q: seq<Item>) {
    forall i :: 0 <= i < |q| ==> q[i].tagged
  }

  // An open handover with only tagged packets queued. A thread that is about to
  // close it has published the flush, and nobody can have used that up.
  ghost predicate OpenInv(s: State, mine: iset<Ip>) {
    && NoneUntagged(s.video) && NoneUntagged(s.audio) && MineComing(s, mine)
    && (s.videoIn.Closing? || s.audioIn.Closing? ==> s.peers.flushPending)
  }

  lemma StepKeepsOpenInv(s: State, a: Action, mine: iset<Ip>)
    requires OpenInv(s, mine) && Enabled(s, a) && !a.Switch? && Expects(s.peers, mine)
    requires s.peers.expected.Some? && s.peers.handover.Some? && Next(s, a).peers.handover.Some?
    ensures OpenInv(Next(s, a), mine)
  {
  }

  lemma OnlySwitchOpens(s: State, a: Action)
    requires Enabled(s, a) && !a.Switch? && Next(s, a).peers.handover.Some?
    ensures s.peers.handover.Some?
  {
  }

  lemma OpenBefore(states: seq<State>, acts: seq<Action>, i: nat)
    requires IsHandoverRun(states, acts) && 0 < i < |states| && states[i].peers.handover.Some?
    ensures states[i - 1].peers.handover.Some?
  {
    assert Moves(states, acts, i - 1);
    OnlySwitchOpens(states[i - 1], acts[i - 1]);
  }

  lemma OpenRunStep(states: seq<State>, acts: seq<Action>, mine: iset<Ip>, i: nat)
    requires IsHandoverRun(states, acts) && Selected(states, mine) && 0 < i < |states|
    requires OpenInv(states[i - 1], mine) && states[i - 1].peers.expected.Some? && states[i].peers.handover.Some?
    ensures OpenInv(states[i], mine)
  {
    OpenBefore(states, acts, i);
    assert Moves(states, acts, i - 1) && Expects(states[i - 1].peers, mine);
    StepKeepsOpenInv(states[i - 1], acts[i - 1], mine);
  }

  // The host of the selected device keeps an address from state d to state i.
  ghost predicate StaysResolved(states: seq<State>, d: nat, i: nat) {
    d <= i <= |states| && forall k :: d <= k < i ==> states[k].peers.expected.Some?
  }

  lemma {:induction false} OpenRunsKeepInv(states: seq<State>, acts: seq<Action>, mine: iset<Ip>, d: nat, i: nat)
    requires IsHandoverRun(states, acts) && Selected(states, mine) && d <= i < |states|
    requires OpenInv(states[d], mine) && StaysResolved(states, d, i) && states[i].peers.handover.Some?
    ensures OpenInv(states[i], mine)
    decreases i
  {
    if i > d {
      OpenBefore(states, acts, i);
      OpenRunsKeepInv(states, acts, mine, d, i - 1);
      OpenRunStep(states, acts, mine, i);
    }
  }

  // If the untagged packets of before the switch have all been dequeued at some
  // point d before the handover is closed, then whenever no flush is pending
  // after it, everything held comes from the selected device.
  lemma PureAfterFlush(states: seq<State>, acts: seq<Action>, mine: iset<Ip>, d: nat, c: nat, i: nat)
    requires ClosedAt(states, acts, c) && Selected(states, mine) && d <= c < i <= |acts|
    requires OpenInv(states[d], mine) && StaysResolved(states, d, c)
    ensures states[i].peers.flushPending || HeldAreMine(states[i], mine)
  {
    OpenRunsKeepInv(states, acts, mine, d, c);
    assert Moves(states, acts, c);
    var stream := acts[c].stream;
    assert ArrivesMine(Arriving(states[c], stream), mine);
    RunStaysSettled(states, acts, mine, c + 1, i);
  }

  // In particular if nothing untagged was queued when the switch opened the handover.
  lemma PureAfterSwitch(before: State, expected: Ip, alt: Option<Ip>, states: seq<State>, acts: seq<Action>,
                        mine: iset<Ip>, c: nat, i: nat)
    requires before.peers.expected.Some? && before.peers.expected != Some(expected)
    requires NoneUntagged(before.video) && NoneUntagged(before.audio) && before.videoIn == before.audioIn == Ready
    requires ClosedAt(states, acts, c) && Selected(states, mine) && c < i <= |acts|
    requires states[0] == Next(before, Switch(Some(expected), alt, true)) && StaysResolved(states, 0, c)
    ensures states[0].peers.handover == before.peers.expected
    ensures states[i].peers.flushPending || HeldAreMine(states[i], mine)
  {
    PureAfterFlush(states, acts, mine, 0, c, i);
  }

  // ------------------------------------------------------------------ witnesses

  const OLD: Ip := 1
  const NEW: Ip := 2

  function Before(): State {
    State(Peers(Some(OLD), None, None, None, false, 0), [], [], Ready, Ready, [])
  }

  // A run with one more step.
  lemma Extended(states: seq<State>, acts: seq<Action>, a: Action) returns (longer: seq<State>, more: seq<Action>)
    requires IsRun(states, acts) && Enabled(states[|acts|], a)
    ensures IsRun(longer, more) && longer[0] == states[0] && |more| == |acts| + 1
    ensures longer[|more|] == Next(states[|acts|], a)
  {
    longer, more := states + [Next(states[|acts|], a)], acts + [a];
    forall i | 0 <= i < |more|
      ensures Moves(longer, more, i)
    {
      assert i < |acts| ==> Moves(states, acts, i);
    }
  }

  // With a packet of the previous device queued untagged before the switch, the
  // flush comes too early: its first packet uses the flush up.
  lemma QueuedPacketSpoilsFlush() returns (states: seq<State>, acts: seq<Action>)
    ensures IsRun(states, acts) && states[0] == Before()
    ensures states[|acts|].peers.handover.None? && !states[|acts|].peers.flushPending
    ensures states[|acts|].peers.expected == Some(NEW) && states[|acts|].held == [OLD, NEW]
  {
    var v := VideoStream;
    states, acts := [Before()], [];
    states, acts := Extended(states, acts, Receive(v, OLD, true));
    states, acts := Extended(states, acts, Switch(Some(NEW), None, true));
    states, acts := Extended(states, acts, Receive(v, NEW, true));
    states, acts := Extended(states, acts, Publish(v));
    states, acts := Extended(states, acts, Close(v));
    states, acts := Extended(states, acts, Dequeue(v));
    states, acts := Extended(states, acts, Dequeue(v));
  }

  // A handover that expires before the new device delivers is closed without a
  // flush: what was held of the previous device mixes with the new stream.
  lemma ExpiryMixesStreams() returns (states: seq<State>, acts: seq<Action>)
    ensures IsRun(states, acts) && states[0] == Before()
    ensures states[|acts|].peers.handover.None? && !states[|acts|].peers.flushPending
    ensures states[|acts|].peers.expected == Some(NEW) && states[|acts|].held == [OLD, NEW]
  {
    var v := VideoStream;
    states, acts := [Before()], [];
    states, acts := Extended(states, acts, Switch(Some(NEW), None, true));
    states, acts := Extended(states, acts, Receive(v, OLD, true));
    states, acts := Extended(states, acts, Dequeue(v));
    states, acts := Extended(states, acts, Expire);
    states, acts := Extended(states, acts, Receive(v, NEW, true));
    states, acts := Extended(states, acts, Dequeue(v));
  }

  // Both receive threads find the handover open: the flush comes a second time
  // and discards a packet of the new device.
  lemma FlushComesTwice() returns (states: seq<State>, acts: seq<Action>)
    ensures IsRun(states, acts) && states[0] == Before()
    ensures |acts| == 9 && SignalsFlush(states[5], acts[5]) && SignalsFlush(states[8], acts[8])
    ensures states[6].held == [NEW] && states[9].held == [NEW]
  {
    states, acts := seq(10, (i: nat) => Scene(i)), seq(9, (i: nat) => Script(i));
    forall i: nat | i < 9
      ensures Moves(states, acts, i)
    {
      ScenePlays(i);
    }
  }

  function Script(i: nat): Action {
    match i
    case 0 => Switch(Some(NEW), None, true)
    case 1 => Receive(VideoStream, NEW, true)
    case 2 => Receive(AudioStream, NEW, true)
    case 3 => Publish(VideoStream)
    case 4 => Close(VideoStream)
    case 5 => Dequeue(VideoStream)
    case 6 => Publish(AudioStream)
    case 7 => Close(AudioStream)
    case _ => Dequeue(AudioStream)
  }

  function Scene(i: nat): State {
    var during := Peers(Some(NEW), None, None, Some(OLD), false, 0);
    var after := during.(handover := None);
    var found, wrote, item := Publishing(NEW, true), Closing(NEW, true), Item(NEW, false);
    match i
    case 0 => Before()
    case 1 => State(during, [], [], Ready, Ready, [])
    case 2 => State(during, [], [], found, Ready, [])
    case 3 => State(during, [], [], found, found, [])
    case 4 => State(during.(flushPending := true), [], [], wrote, found, [])
    case 5 => State(after.(flushPending := true), [item], [], Ready, found, [])
    case 6 => State(after, [], [], Ready, found, [NEW])
    case 7 => State(after.(flushPending := true), [], [], Ready, wrote, [NEW])
    case 8 => State(after.(flushPending := true), [], [item], Ready, Ready, [NEW])
    case _ => State(after, [], [], Ready, Ready, [NEW])
  }

  lemma ScenePlays(i: nat)
    requires i < 9
    ensures Enabled(Scene(i), Script(i)) && Scene(i + 1) == Next(Scene(i), Script(i))
  {
  }
}
