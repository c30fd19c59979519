// What the reorder ring promises over whole runs: order under 16-bit
// wrap-around keys, and the fate of every accepted packet.
module RingRuns {
  import opened Words
  import opened ReorderRing

  // --------------------------------------------------------------------- order

  // Distance of a key from `base`, counted forwards around the 16-bit circle.
  function Rank(kind: Kind, base: u16, x: Packet): nat {
    if kind.Video? then UInt16(x.frame - base) * 0x8000 + x.line else UInt16(x.seqNum - base)
  }

  // The key lies in the half of the circle that starts at base, where the
  // wrap-around comparison is a total order. A parsed line is below 0x8000.
  predicate InWindow(kind: Kind, base: u16, x: Packet) {
    if kind.Video? then UInt16(x.frame - base) < 0x8000 && x.line < 0x8000 else UInt16(x.seqNum - base) < 0x8000
  }

  predicate AllInWindow(kind: Kind, base: u16, a: seq<Packet>) {
    forall i :: 0 <= i < |a| ==> InWindow(kind, base, a[i])
  }

  predicate Sorted(kind: Kind, base: u16, a: seq<Packet>) {
    forall i, j :: 0 <= i < j < |a| ==> Rank(kind, base, a[i]) <= Rank(kind, base, a[j])
  }

  lemma ComparisonIsRankOrder(kind: Kind, base: u16, x: Packet, y: Packet)
    requires InWindow(kind, base, x) && InWindow(kind, base, y)
    ensures NotOlder(kind, x, y) <==> Rank(kind, base, x) >= Rank(kind, base, y)
  {
    if kind.Video? {
      WindowDifference(base, x.frame, y.frame);
      WindowDifference(0, x.line, y.line);
      FrameThenLine(UInt16(x.frame - base), x.line, UInt16(y.frame - base), y.line);
    } else {
      WindowDifference(base, x.seqNum, y.seqNum);
    }
  }

  // Frames decide before lines.
  lemma FrameThenLine(f: nat, l: nat, g: nat, m: nat)
    requires l < 0x8000 && m < 0x8000
    ensures f * 0x8000 + l >= g * 0x8000 + m <==> f > g || (f == g && l >= m)
  {
  }

  lemma WindowDifference(base: u16, x: u16, y: u16)
    requires UInt16(x - base) < 0x8000 && UInt16(y - base) < 0x8000
    ensures Int16(x - y) == UInt16(x - base) - UInt16(y - base)
  {
    Wrapped(x - base);
    Wrapped(y - base);
    Wrapped(x - y);
  }

  lemma Wrapped(d: int)
    requires -TWO_16 < d < TWO_16
    ensures UInt16(d) == if d >= 0 then d else d + TWO_16
  {
  }

  // A caller can tell before the push whether the order survives it: the queue
  // is empty, the packet is not older than the newest, or one of the packets
  // the search compares is not newer. The oldest packet is never compared.
  ghost predicate KeepsOrder(kind: Kind, a: seq<Packet>, x: Packet) {
    |a| == 0 || NotOlder(kind, x, a[|a| - 1]) || exists j :: Candidate(kind, a, x, j)
  }

  // Where a push that keeps the order puts the packet.
  lemma InsertedBetween(kind: Kind, base: u16, a: seq<Packet>, x: Packet, i: nat)
    requires AllInWindow(kind, base, a) && InWindow(kind, base, x) && Sorted(kind, base, a)
    requires KeepsOrder(kind, a, x) && i < |a|
    ensures var k := InsertPosition(kind, a, x);
            && (i < k ==> Rank(kind, base, a[i]) <= Rank(kind, base, x))
            && (i >= k ==> Rank(kind, base, x) <= Rank(kind, base, a[i]))
  {
    var k := InsertPosition(kind, a, x);
    SearchFindsPosition(kind, a, x);
    if i < k {
      ComparisonIsRankOrder(kind, base, x, a[k - 1]);
    } else {
      NewerBehind(kind, a, x, i);
      ComparisonIsRankOrder(kind, base, x, a[i]);
    }
  }

  lemma InsertStaysSorted(kind: Kind, base: u16, a: seq<Packet>, k: nat, x: Packet)
    requires Sorted(kind, base, a) && k <= |a|
    requires forall i :: 0 <= i < k ==> Rank(kind, base, a[i]) <= Rank(kind, base, x)
    requires forall i :: k <= i < |a| ==> Rank(kind, base, x) <= Rank(kind, base, a[i])
    ensures Sorted(kind, base, Insert(a, k, x))
  {
  }

  lemma PushKeepsSortedIff(kind: Kind, base: u16, a: seq<Packet>, x: Packet)
    requires AllInWindow(kind, base, a) && InWindow(kind, base, x) && Sorted(kind, base, a)
    ensures Sorted(kind, base, Insert(a, InsertPosition(kind, a, x), x)) <==> KeepsOrder(kind, a, x)
    ensures AllInWindow(kind, base, Insert(a, InsertPosition(kind, a, x), x))
  {
    var k := InsertPosition(kind, a, x);
    if KeepsOrder(kind, a, x) {
      forall i | 0 <= i < |a|
        ensures i < k ==> Rank(kind, base, a[i]) <= Rank(kind, base, x)
        ensures i >= k ==> Rank(kind, base, x) <= Rank(kind, base, a[i])
      {
        InsertedBetween(kind, base, a, x, i);
      }
      InsertStaysSorted(kind, base, a, k, x);
    } else {
      SearchFindsPosition(kind, a, x);
      ComparisonIsRankOrder(kind, base, x, a[|a| - 1]);
      var b := Insert(a, k, x);
      assert b[|a| - 1] == a[|a| - 1] && b[|a|] == x;
    }
  }

  // Packets behind the inserted one are strictly newer, so packets with equal
  // keys stay in order of arrival.
  lemma NewerBehind(kind: Kind, a: seq<Packet>, x: Packet, i: nat)
    requires InsertPosition(kind, a, x) <= i < |a|
    ensures !NotOlder(kind, x, a[i])
  {
    SearchFindsPosition(kind, a, x);
    var k := InsertPosition(kind, a, x);
    assert Candidate(kind, a, x, k);
    assert !Candidate(kind, a, x, i + 1);
  }

  // A packet older than everything queued goes to the wrong end.
  lemma OldestArrivalIsAppended(kind: Kind, a: seq<Packet>, x: Packet)
    requires forall i :: 1 <= i < |a| ==> !NotOlder(kind, x, a[i])
    ensures InsertPosition(kind, a, x) == |a|
  {
    SearchFindsPosition(kind, a, x);
  }

  lemma LateFrontPacketWitness() returns (a: seq<Packet>, x: Packet)
    ensures Sorted(Audio, 0, a) && AllInWindow(Audio, 0, a) && InWindow(Audio, 0, x)
    ensures !Sorted(Audio, 0, Insert(a, InsertPosition(Audio, a, x), x))
  {
    a, x := [Packet([], 0, 5, 0, 0), Packet([], 0, 6, 0, 0)], Packet([], 0, 4, 0, 0);
    OldestArrivalIsAppended(Audio, a, x);
    assert Insert(a, 2, x)[1].seqNum == 6 && Insert(a, 2, x)[2].seqNum == 4;
  }

  // ---------------------------------------------------------------------- runs

  // An accepted packet with its place in the order of acceptance.
  datatype Ticket = Ticket(id: nat, packet: Packet)

  // One critical section of one thread. A delay reduction is SetDelay, then
  // Trim, then Retime, with anything in between.
  datatype Op =
    | PushOp(data: seq<byte>, ts: u64)
    | PopOp(now: u64)
    | SetDelayOp(us: nat)
    | TrimOp(keep: nat)
    | RetimeOp(ts: u64)
    | ResetOp

  datatype Run = Run(queue: seq<Ticket>, delay: nat, accepted: seq<Packet>, popped: seq<Ticket>, trimmed: seq<Ticket>,
                     flushed: seq<Ticket>)

  const START := Run([], 0, [], [], [], [])

  function Packets(q: seq<Ticket>): (a: seq<Packet>)
    ensures |a| == |q|
  {
    seq(|q|, i requires 0 <= i < |q| => q[i].packet)
  }

  function Ids(q: seq<Ticket>): (s: seq<nat>)
    ensures |s| == |q|
  {
    seq(|q|, i requires 0 <= i < |q| => q[i].id)
  }

  function NextPush(kind: Kind, s: Run, data: seq<byte>, ts: u64): Run {
    if |data| < HeaderSize(kind) || |s.queue| + 1 == Capacity(kind) then s
    else
      var x := Parse(kind, data, ts);
      Accept(s, InsertPosition(kind, Packets(s.queue), x), x)
  }

  function Accept(s: Run, k: nat, x: Packet): Run
    requires k <= |s.queue|
  {
    s.(queue := s.queue[..k] + [Ticket(|s.accepted|, x)] + s.queue[k..], accepted := s.accepted + [x])
  }

  function NextTrim(s: Run, keep: nat): Run {
    if |s.queue| <= keep then s
    else
      var d := |s.queue| - keep;
      s.(queue := s.queue[d..], trimmed := s.trimmed + s.queue[..d])
  }

  function Retime(t: Ticket, ts: u64): Ticket {
    t.(packet := t.packet.(timestamp := ts))
  }

  function NextRetime(s: Run, ts: u64): Run {
    s.(queue := seq(|s.queue|, i requires 0 <= i < |s.queue| => Retime(s.queue[i], ts)))
  }

  function NextPop(s: Run, now: u64): Run {
    if |s.queue| == 0 || !Ready(s.queue[0].packet, now, s.delay) then s
    else s.(queue := s.queue[1..], popped := s.popped + s.queue[..1])
  }

  function NextReset(s: Run): Run {
    s.(queue := [], flushed := s.flushed + s.queue)
  }

  function Next(kind: Kind, s: Run, op: Op): Run {
    match op
    case PushOp(data, ts) => NextPush(kind, s, data, ts)
    case PopOp(now) => NextPop(s, now)
    case SetDelayOp(us) => s.(delay := us)
    case TrimOp(keep) => NextTrim(s, keep)
    case RetimeOp(ts) => NextRetime(s, ts)
    case ResetOp => NextReset(s)
  }

  function After(kind: Kind, s: Run, ops: seq<Op>): Run
    decreases |ops|
  {
    if ops == [] then s else Next(kind, After(kind, s, ops[..|ops| - 1]), ops[|ops| - 1])
  }

  lemma PacketsOfSuffix(q: seq<Ticket>, d: nat)
    requires d <= |q|
    ensures Packets(q[d..]) == Packets(q)[d..]
  {
  }

  lemma PacketsOfInsert(q: seq<Ticket>, k: nat, t: Ticket)
    requires k <= |q|
    ensures Packets(q[..k] + [t] + q[k..]) == Insert(Packets(q), k, t.packet)
  {
  }

  lemma PacketsOfRetime(s: Run, ts: u64)
    ensures Packets(NextRetime(s, ts).queue) == Retimed(Packets(s.queue), ts)
  {
  }

  // A step of the run is the step the ring's methods are proved to take.
  lemma StepIsRingStep(kind: Kind, s: Run, op: Op)
    ensures var a, b := Packets(s.queue), Packets(Next(kind, s, op).queue);
            match op
            case PushOp(data, ts) => b == Pushed(kind, a, data, ts)
            case PopOp(now) => b == if |a| > 0 && Ready(a[0], now, s.delay) then a[1..] else a
            case SetDelayOp(_) => b == a
            case TrimOp(keep) => b == Newest(a, keep)
            case RetimeOp(ts) => b == Retimed(a, ts)
            case ResetOp => b == []
  {
    var a := Packets(s.queue);
    match op
    case PushOp(data, ts) =>
      if NextPush(kind, s, data, ts) != s {
        var x := Parse(kind, data, ts);
        PacketsOfInsert(s.queue, InsertPosition(kind, a, x), Ticket(|s.accepted|, x));
      }
    case PopOp(_) =>
      if |a| > 0 {
        PacketsOfSuffix(s.queue, 1);
      }
    case SetDelayOp(_) =>
    case TrimOp(keep) =>
      if |a| > keep {
        PacketsOfSuffix(s.queue, |a| - keep);
      }
    case RetimeOp(ts) => PacketsOfRetime(s, ts);
    case ResetOp =>
  }

  // The ids of four lists of tickets are the numbers below n, once each.
  ghost predicate Tallied(q: seq<Ticket>, popped: seq<Ticket>, trimmed: seq<Ticket>, flushed: seq<Ticket>, n: nat) {
    multiset(Ids(q)) + multiset(Ids(popped)) + multiset(Ids(trimmed)) + multiset(Ids(flushed)) ==
    multiset(seq(n, i => i))
  }

  // Every accepted packet is in exactly one place, once.
  ghost predicate Conserved(s: Run) {
    Tallied(s.queue, s.popped, s.trimmed, s.flushed, |s.accepted|)
  }

  // A packet differs from the one accepted at most in its timestamp.
  ghost predicate Genuine(s: Run, t: Ticket) {
    t.id < |s.accepted| && t.packet.(timestamp := 0) == s.accepted[t.id].(timestamp := 0)
  }

  // All tickets of a run.
  function Tickets(s: Run): seq<Ticket> {
    s.queue + s.popped + s.trimmed + s.flushed
  }

  ghost predicate AllGenuine(s: Run) {
    forall t :: t in Tickets(s) ==> Genuine(s, t)
  }

  lemma IdsSplit(a: seq<Ticket>, b: seq<Ticket>)
    ensures multiset(Ids(a + b)) == multiset(Ids(a)) + multiset(Ids(b))
  {
    assert Ids(a + b) == Ids(a) + Ids(b);
  }

  lemma IdsCut(a: seq<Ticket>, k: nat)
    requires k <= |a|
    ensures multiset(Ids(a)) == multiset(Ids(a[..k])) + multiset(Ids(a[k..]))
  {
    IdsSplit(a[..k], a[k..]);
    assert a == a[..k] + a[k..];
  }

  lemma MoveOldest(q: seq<Ticket>, bin: seq<Ticket>, d: nat)
    requires d <= |q|
    ensures multiset(Ids(q[d..])) + multiset(Ids(bin + q[..d])) == multiset(Ids(q)) + multiset(Ids(bin))
  {
    IdsCut(q, d);
    IdsSplit(bin, q[..d]);
  }

  lemma Regroup(a: multiset<nat>, b: multiset<nat>, c: multiset<nat>, d: multiset<nat>,
                a': multiset<nat>, c': multiset<nat>)
    requires a' + c' == a + c
    ensures a' + b + c' + d == a + b + c + d
  {
    forall x
      ensures (a' + b + c' + d)[x] == (a + b + c + d)[x]
    {
      assert (a' + c')[x] == (a + c)[x];
    }
  }

  lemma IdsOfInsert(q: seq<Ticket>, k: nat, t: Ticket)
    requires k <= |q|
    ensures multiset(Ids(q[..k] + [t] + q[k..])) == multiset(Ids(q)) + multiset{t.id}
  {
    IdsCut(q, k);
    IdsSplit(q[..k] + [t], q[k..]);
    IdsSplit(q[..k], [t]);
    assert Ids([t]) == [t.id];
  }

  lemma AcceptTallies(q: seq<Ticket>, popped: seq<Ticket>, trimmed: seq<Ticket>, flushed: seq<Ticket>, n: nat,
                      k: nat, x: Packet)
    requires Tallied(q, popped, trimmed, flushed, n) && k <= |q|
    ensures Tallied(q[..k] + [Ticket(n, x)] + q[k..], popped, trimmed, flushed, n + 1)
  {
    IdsOfInsert(q, k, Ticket(n, x));
    assert seq(n + 1, i => i) == seq(n, i => i) + [n];
    var added := multiset(Ids(q[..k] + [Ticket(n, x)] + q[k..]));
    Regroup(multiset(Ids(q)), multiset(Ids(popped)), multiset{n}, multiset(Ids(trimmed)) + multiset(Ids(flushed)),
            added, multiset{});
  }

  lemma PopTallies(q: seq<Ticket>, popped: seq<Ticket>, trimmed: seq<Ticket>, flushed: seq<Ticket>, n: nat, d: nat)
    requires Tallied(q, popped, trimmed, flushed, n) && d <= |q|
    ensures Tallied(q[d..], popped + q[..d], trimmed, flushed, n)
  {
    MoveOldest(q, popped, d);
  }

  lemma TrimTallies(q: seq<Ticket>, popped: seq<Ticket>, trimmed: seq<Ticket>, flushed: seq<Ticket>, n: nat, d: nat)
    requires Tallied(q, popped, trimmed, flushed, n) && d <= |q|
    ensures Tallied(q[d..], popped, trimmed + q[..d], flushed, n)
  {
    MoveOldest(q, trimmed, d);
    Regroup(multiset(Ids(q)), multiset(Ids(popped)), multiset(Ids(trimmed)), multiset(Ids(flushed)),
            multiset(Ids(q[d..])), multiset(Ids(trimmed + q[..d])));
  }

  lemma FlushTallies(q: seq<Ticket>, popped: seq<Ticket>, trimmed: seq<Ticket>, flushed: seq<Ticket>, n: nat)
    requires Tallied(q, popped, trimmed, flushed, n)
    ensures Tallied([], popped, trimmed, flushed + q, n)
  {
    IdsSplit(flushed, q);
  }

  lemma PushConserves(kind: Kind, s: Run, data: seq<byte>, ts: u64)
    requires Conserved(s)
    ensures Conserved(NextPush(kind, s, data, ts))
  {
    if NextPush(kind, s, data, ts) != s {
      var x := Parse(kind, data, ts);
      var k := InsertPosition(kind, Packets(s.queue), x);
      AcceptTallies(s.queue, s.popped, s.trimmed, s.flushed, |s.accepted|, k, x);
    }
  }

  lemma PopConserves(s: Run, now: u64)
    requires Conserved(s)
    ensures Conserved(NextPop(s, now))
  {
    if NextPop(s, now) != s {
      PopTallies(s.queue, s.popped, s.trimmed, s.flushed, |s.accepted|, 1);
    }
  }

  lemma TrimConserves(s: Run, keep: nat)
    requires Conserved(s)
    ensures Conserved(NextTrim(s, keep))
  {
    if |s.queue| > keep {
      var t, d := NextTrim(s, keep), |s.queue| - keep;
      TrimTallies(s.queue, s.popped, s.trimmed, s.flushed, |s.accepted|, d);
      assert t.queue == s.queue[d..] && t.trimmed == s.trimmed + s.queue[..d];
    }
  }

  lemma ResetConserves(s: Run)
    requires Conserved(s)
    ensures Conserved(NextReset(s))
  {
    FlushTallies(s.queue, s.popped, s.trimmed, s.flushed, |s.accepted|);
  }

  lemma RetimeConserves(s: Run, ts: u64)
    requires Conserved(s)
    ensures Conserved(NextRetime(s, ts))
  {
    assert Ids(NextRetime(s, ts).queue) == Ids(s.queue);
  }

  lemma StepConserves(kind: Kind, s: Run, op: Op)
    requires Conserved(s)
    ensures Conserved(Next(kind, s, op))
  {
    var t := Next(kind, s, op);
    match op
    case PushOp(data, ts) =>
      PushConserves(kind, s, data, ts);
      assert t == NextPush(kind, s, data, ts);
    case PopOp(now) =>
      PopConserves(s, now);
      assert t == NextPop(s, now);
    case SetDelayOp(_) =>
    case TrimOp(keep) =>
      TrimConserves(s, keep);
      assert t == NextTrim(s, keep);
    case RetimeOp(ts) =>
      RetimeConserves(s, ts);
      assert t == NextRetime(s, ts);
    case ResetOp =>
      ResetConserves(s);
      assert t == NextReset(s);
  }

  lemma RetimeKeepsGenuine(s: Run, ts: u64)
    requires AllGenuine(s)
    ensures AllGenuine(NextRetime(s, ts))
  {
    var t := NextRetime(s, ts);
    forall e | e in Tickets(t)
      ensures Genuine(t, e)
    {
      if e in t.queue {
        var i :| 0 <= i < |t.queue| && t.queue[i] == e;
        assert s.queue[i] in Tickets(s) && Genuine(s, s.queue[i]);
      } else {
        assert e in Tickets(s);
      }
    }
  }

  lemma AcceptKeepsGenuine(s: Run, k: nat, x: Packet)
    requires AllGenuine(s) && k <= |s.queue|
    ensures AllGenuine(Accept(s, k, x))
  {
    var t := Accept(s, k, x);
    forall e | e in Tickets(t)
      ensures Genuine(t, e)
    {
      assert e in Tickets(s) || e == Ticket(|s.accepted|, x);
    }
  }

  lemma StepKeepsGenuine(kind: Kind, s: Run, op: Op)
    requires AllGenuine(s)
    ensures AllGenuine(Next(kind, s, op))
  {
    match op
    case PushOp(data, ts) =>
      if NextPush(kind, s, data, ts) != s {
        var x := Parse(kind, data, ts);
        AcceptKeepsGenuine(s, InsertPosition(kind, Packets(s.queue), x), x);
      }
    case RetimeOp(ts) => RetimeKeepsGenuine(s, ts);
    case _ =>
      forall e | e in Tickets(Next(kind, s, op))
        ensures Genuine(Next(kind, s, op), e)
      {
        assert e in Tickets(s);
      }
  }

  // Over every run of critical sections: nothing is lost or duplicated, and no
  // payload byte or key of any packet ever changes.
  lemma {:induction false} RunsConserve(kind: Kind, ops: seq<Op>)
    ensures Conserved(After(kind, START, ops)) && AllGenuine(After(kind, START, ops))
    decreases |ops|
  {
    if ops != [] {
      RunsConserve(kind, ops[..|ops| - 1]);
      StepConserves(kind, After(kind, START, ops[..|ops| - 1]), ops[|ops| - 1]);
      StepKeepsGenuine(kind, After(kind, START, ops[..|ops| - 1]), ops[|ops| - 1]);
    }
  }

  // -------------------------------------------------------- order over the runs

  // No packet is older than one in front of it, by the ring's own comparison.
  predicate Ordered(kind: Kind, a: seq<Packet>) {
    forall i, j :: 0 <= i < j < |a| ==> NotOlder(kind, a[j], a[i])
  }

  lemma OrderedIffSorted(kind: Kind, base: u16, a: seq<Packet>)
    requires AllInWindow(kind, base, a)
    ensures Ordered(kind, a) <==> Sorted(kind, base, a)
  {
    forall i, j | 0 <= i < j < |a|
      ensures NotOlder(kind, a[j], a[i]) <==> Rank(kind, base, a[i]) <= Rank(kind, base, a[j])
    {
      ComparisonIsRankOrder(kind, base, a[j], a[i]);
    }
  }

  // The packets queued at one time, and the new one, share half of the circle.
  // Which half may change from one push to the next.
  ghost predicate ShareWindow(kind: Kind, a: seq<Packet>, x: Packet) {
    exists base: u16 :: InWindow(kind, base, x) && AllInWindow(kind, base, a)
  }

  lemma PushKeepsOrderedIff(kind: Kind, a: seq<Packet>, x: Packet)
    requires ShareWindow(kind, a, x) && Ordered(kind, a)
    ensures Ordered(kind, Insert(a, InsertPosition(kind, a, x), x)) <==> KeepsOrder(kind, a, x)
  {
    var base: u16 :| InWindow(kind, base, x) && AllInWindow(kind, base, a);
    OrderedIffSorted(kind, base, a);
    PushKeepsSortedIff(kind, base, a, x);
    OrderedIffSorted(kind, base, Insert(a, InsertPosition(kind, a, x), x));
  }

  predicate Accepts(kind: Kind, s: Run, op: Op) {
    op.PushOp? && |op.data| >= HeaderSize(kind) && |s.queue| + 1 != Capacity(kind)
  }

  ghost predicate Windowed(kind: Kind, ops: seq<Op>)
    decreases |ops|
  {
    ops == [] ||
    var s, op := After(kind, START, ops[..|ops| - 1]), ops[|ops| - 1];
    && Windowed(kind, ops[..|ops| - 1])
    && (Accepts(kind, s, op) ==> ShareWindow(kind, Packets(s.queue), Parse(kind, op.data, op.ts)))
  }

  // Every push of the run that is accepted met the condition of PushKeepsOrderedIff.
  ghost predicate Guarded(kind: Kind, ops: seq<Op>)
    decreases |ops|
  {
    ops == [] ||
    var s, op := After(kind, START, ops[..|ops| - 1]), ops[|ops| - 1];
    && Guarded(kind, ops[..|ops| - 1])
    && (Accepts(kind, s, op) ==> KeepsOrder(kind, Packets(s.queue), Parse(kind, op.data, op.ts)))
  }

  ghost predicate AlwaysOrdered(kind: Kind, ops: seq<Op>)
    decreases |ops|
  {
    Ordered(kind, Packets(After(kind, START, ops).queue)) && (ops == [] || AlwaysOrdered(kind, ops[..|ops| - 1]))
  }

  predicate SameKeys(x: Packet, y: Packet) {
    x.seqNum == y.seqNum && x.frame == y.frame && x.line == y.line
  }

  // b has the keys of the newest |b| packets of a.
  ghost predicate SuffixKeys(a: seq<Packet>, b: seq<Packet>) {
    |b| <= |a| && forall i :: 0 <= i < |b| ==> SameKeys(b[i], a[i + (|a| - |b|)])
  }

  lemma SuffixStaysOrdered(kind: Kind, a: seq<Packet>, b: seq<Packet>)
    requires SuffixKeys(a, b) && Ordered(kind, a)
    ensures Ordered(kind, b)
  {
    var d := |a| - |b|;
    forall i, j | 0 <= i < j < |b|
      ensures NotOlder(kind, b[j], b[i])
    {
      assert SameKeys(b[i], a[i + d]) && SameKeys(b[j], a[j + d]) && NotOlder(kind, a[j + d], a[i + d]);
    }
  }

  // Removing from the oldest end and retimestamping leave the keys in order.
  lemma SuffixCases(a: seq<Packet>, n: nat, ts: u64)
    ensures SuffixKeys(a, a) && SuffixKeys(a, Newest(a, n)) && SuffixKeys(a, Retimed(a, ts)) && SuffixKeys(a, [])
    ensures |a| > 0 ==> SuffixKeys(a, a[1..])
  {
  }

  lemma OtherStepsLeaveSuffix(kind: Kind, s: Run, op: Op)
    requires !Accepts(kind, s, op)
    ensures SuffixKeys(Packets(s.queue), Packets(Next(kind, s, op).queue))
  {
    StepIsRingStep(kind, s, op);
    SuffixCases(Packets(s.queue), if op.TrimOp? then op.keep else 0, if op.RetimeOp? then op.ts else 0);
  }

  // Over every run, of any length and through any number of wrap-arounds: the
  // queue is in order at all times exactly when each accepted packet found the
  // ring empty, was not older than the newest, or had a compared packet that is
  // not newer.
  lemma {:induction false} RunsStayOrderedIff(kind: Kind, ops: seq<Op>)
    requires Windowed(kind, ops)
    ensures AlwaysOrdered(kind, ops) <==> Guarded(kind, ops)
    decreases |ops|
  {
    if ops != [] {
      var before, op := ops[..|ops| - 1], ops[|ops| - 1];
      RunsStayOrderedIff(kind, before);
      if AlwaysOrdered(kind, before) {
        StepStaysOrderedIff(kind, After(kind, START, before), op);
      }
    }
  }

  lemma StepStaysOrderedIff(kind: Kind, s: Run, op: Op)
    requires Ordered(kind, Packets(s.queue))
    requires Accepts(kind, s, op) ==> ShareWindow(kind, Packets(s.queue), Parse(kind, op.data, op.ts))
    ensures Ordered(kind, Packets(Next(kind, s, op).queue)) <==>
            !Accepts(kind, s, op) || KeepsOrder(kind, Packets(s.queue), Parse(kind, op.data, op.ts))
  {
    if Accepts(kind, s, op) {
      StepIsRingStep(kind, s, op);
      PushKeepsOrderedIff(kind, Packets(s.queue), Parse(kind, op.data, op.ts));
    } else {
      OtherStepsLeaveSuffix(kind, s, op);
      SuffixStaysOrdered(kind, Packets(s.queue), Packets(Next(kind, s, op).queue));
    }
  }

  // --------------------------------------------- a delay reduced under interference

  predicate PushesAndPops(ops: seq<Op>) {
    forall i :: 0 <= i < |ops| ==> ops[i].PushOp? || ops[i].PopOp?
  }

  // The packets accepted before the n-th, in order.
  function Earlier(q: seq<Ticket>, n: nat): seq<Ticket> {
    if q == [] then []
    else Earlier(q[..|q| - 1], n) + (if q[|q| - 1].id < n then [q[|q| - 1]] else [])
  }

  lemma {:induction false} EarlierSplits(a: seq<Ticket>, b: seq<Ticket>, n: nat)
    ensures Earlier(a + b, n) == Earlier(a, n) + Earlier(b, n)
    decreases |b|
  {
    if b == [] {
      assert a + b == a;
    } else {
      EarlierSplits(a, b[..|b| - 1], n);
      assert (a + b)[..|a + b| - 1] == a + b[..|b| - 1];
    }
  }

  lemma {:induction false} AllEarlier(q: seq<Ticket>, n: nat)
    requires forall t :: t in q ==> t.id < n
    ensures Earlier(q, n) == q
    decreases |q|
  {
    if q != [] {
      AllEarlier(q[..|q| - 1], n);
    }
  }

  // What left through pops after the first `before`, oldest first, and then what
  // is queued.
  function SinceThen(before: nat, t: Run): seq<Ticket>
    requires before <= |t.popped|
  {
    t.popped[before..] + t.queue
  }

  ghost predicate KeepsThem(s: Run, t: Run, n: nat) {
    && s.popped <= t.popped && n <= |t.accepted|
    && Earlier(SinceThen(|s.popped|, t), n) == Earlier(s.queue, n)
  }

  lemma LaterArrivalUnseen(out: seq<Ticket>, q: seq<Ticket>, k: nat, x: Ticket, n: nat)
    requires k <= |q| && x.id >= n
    ensures Earlier(out + (q[..k] + [x] + q[k..]), n) == Earlier(out + q, n)
  {
    var front, back := out + q[..k], q[k..];
    assert out + q == front + back;
    assert out + (q[..k] + [x] + q[k..]) == front + [x] + back;
    EarlierSplits(front, back, n);
    EarlierSplits(front + [x], back, n);
    EarlierSplits(front, [x], n);
    assert Earlier([x], n) == [];
  }

  lemma PushKeepsThem(kind: Kind, s: Run, t: Run, data: seq<byte>, ts: u64, n: nat)
    requires KeepsThem(s, t, n)
    ensures KeepsThem(s, NextPush(kind, t, data, ts), n)
  {
    if NextPush(kind, t, data, ts) != t {
      var x := Parse(kind, data, ts);
      LaterArrivalUnseen(t.popped[|s.popped|..], t.queue, InsertPosition(kind, Packets(t.queue), x),
                         Ticket(|t.accepted|, x), n);
    }
  }

  lemma PopKeepsThem(s: Run, t: Run, now: u64, n: nat)
    requires KeepsThem(s, t, n)
    ensures KeepsThem(s, NextPop(t, now), n)
  {
    var u := NextPop(t, now);
    if u != t {
      assert u.popped[|s.popped|..] == t.popped[|s.popped|..] + t.queue[..1];
      assert SinceThen(|s.popped|, u) == SinceThen(|s.popped|, t);
    }
  }

  lemma {:induction false} RunKeepsThem(kind: Kind, s: Run, ops: seq<Op>, n: nat)
    requires PushesAndPops(ops) && n <= |s.accepted|
    ensures KeepsThem(s, After(kind, s, ops), n)
    decreases |ops|
  {
    if ops == [] {
      assert SinceThen(|s.popped|, s) == s.queue;
    } else {
      RunKeepsThem(kind, s, ops[..|ops| - 1], n);
      var t := After(kind, s, ops[..|ops| - 1]);
      match ops[|ops| - 1]
      case PushOp(data, ts) => PushKeepsThem(kind, s, t, data, ts, n);
      case PopOp(now) => PopKeepsThem(s, t, now, n);
      case _ => assert false;
    }
  }

  function Suffix(q: seq<Ticket>, n: nat): seq<Ticket> {
    if |q| <= n then q else q[|q| - n..]
  }

  lemma QueuedAreEarlier(s: Run, keep: nat)
    requires AllGenuine(s)
    ensures forall t :: t in Suffix(s.queue, keep) ==> t.id < |s.accepted|
  {
    forall t | t in Suffix(s.queue, keep)
      ensures t.id < |s.accepted|
    {
      assert t in s.queue && t in Tickets(s);
      assert Genuine(s, t);
    }
  }

  lemma TrimGives(s: Run, keep: nat)
    ensures var r := NextTrim(s, keep);
            r.queue == Suffix(s.queue, keep) && r.popped == s.popped && r.accepted == s.accepted
  {
  }

  lemma TrimmedRunKeepsNewest(kind: Kind, s: Run, r: Run, between: seq<Op>)
    requires (forall t :: t in r.queue ==> t.id < |r.accepted|) && PushesAndPops(between)
    requires r.popped == s.popped && r.accepted == s.accepted
    ensures var t := After(kind, r, between);
            s.popped <= t.popped && Earlier(SinceThen(|s.popped|, t), |s.accepted|) == r.queue
  {
    AllEarlier(r.queue, |r.accepted|);
    RunKeepsThem(kind, r, between, |r.accepted|);
  }

  // A delay reduction in any run, with any pushes and pops between its two
  // critical sections: of the packets queued before it, exactly the newest
  // `keep` have been popped since or are still queued, in their order.
  lemma ReductionKeepsNewest(kind: Kind, before: seq<Op>, keep: nat, between: seq<Op>)
    requires PushesAndPops(between)
    ensures var s := After(kind, START, before);
            var t := After(kind, NextTrim(s, keep), between);
            s.popped <= t.popped && Earlier(SinceThen(|s.popped|, t), |s.accepted|) == Suffix(s.queue, keep)
  {
    var s := After(kind, START, before);
    RunsConserve(kind, before);
    QueuedAreEarlier(s, keep);
    TrimGives(s, keep);
    TrimmedRunKeepsNewest(kind, s, NextTrim(s, keep), between);
  }

  // The second critical section touches timestamps only, and then every packet,
  // also one pushed in between, passes the age test at every later time.
  lemma ReductionMakesReady(t: Run, ms: nat, now: u64)
    requires ms <= MAX_DELAY_MS
    ensures var end := NextRetime(t, ReadyTimestamp(now, ms * 1000));
            && Ids(end.queue) == Ids(t.queue) && end.popped == t.popped
            && forall i, later: u64 :: 0 <= i < |end.queue| && now <= later <= (TWO_64 - 1) / 1000 ==>
                 Ready(end.queue[i].packet, later, ms * 1000)
  {
    var end := NextRetime(t, ReadyTimestamp(now, ms * 1000));
    forall i, later: u64 | 0 <= i < |end.queue| && now <= later <= (TWO_64 - 1) / 1000
      ensures Ready(end.queue[i].packet, later, ms * 1000)
    {
      RetimedIsReady(t.queue[i].packet, ms, now, later);
    }
  }
}
