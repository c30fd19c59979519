// The delay and reorder ring of src/network/c64-network-buffer.c.
//
// Slots live in a fixed circular array. A slot does not hold payload bytes: it
// names the payload row it owns, and insertion in the middle moves the slot
// records while the rows stay where they are.
module ReorderRing {
  import opened Words
  import opened RingIndex

  datatype Kind = Video | Audio

  const MAX_DELAY_MS: nat := 500
  const MAX_JITTER_MS: nat := 400
  const VIDEO_RATE: nat := 3590
  const AUDIO_RATE: nat := 250

  function Rate(kind: Kind): nat {
    if kind.Video? then VIDEO_RATE else AUDIO_RATE
  }

  // 10 % headroom over the packets that fit in the longest delay plus jitter.
  function Capacity(kind: Kind): nat {
    Rate(kind) * (MAX_DELAY_MS + MAX_JITTER_MS) * 11 / 10000
  }

  function PacketSize(kind: Kind): nat {
    if kind.Video? then 780 else 770
  }

  function HeaderSize(kind: Kind): nat {
    if kind.Video? then 6 else 2
  }

  // Both the search and the shift are cut off at this many slots.
  function MaxDepth(kind: Kind): nat {
    if kind.Video? then 2048 else 150
  }

  // ---------------------------------------------------------------- packets

  datatype Packet = Packet(payload: seq<byte>, timestamp: u64, seqNum: u16, frame: u16, line: u16)

  // The packet a push of `data` stores: header fields, and the payload cut or
  // zero-padded to the packet size.
  function Parse(kind: Kind, data: seq<byte>, ts: u64): Packet
    requires |data| >= HeaderSize(kind)
  {
    var size := PacketSize(kind);
    var payload := if |data| < size then data + seq(size - |data|, _ => 0) else data[..size];
    if kind.Video? then
      Packet(payload, ts, ReadLE16(data, 0), ReadLE16(data, 2), ReadLE16(data, 4) % 0x8000)
    else
      Packet(payload, ts, ReadLE16(data, 0), 0, 0)
  }

  // The wrap-around comparison of the search loop: x belongs after y.
  predicate NotOlder(kind: Kind, x: Packet, y: Packet) {
    if kind.Video? then
      var frameDiff := Int16(x.frame - y.frame);
      frameDiff > 0 || (frameDiff == 0 && Int16(x.line - y.line) >= 0)
    else
      Int16(x.seqNum - y.seqNum) >= 0
  }

  // ------------------------------------------------------ insertion position

  // Position j of the queue a is one the search can choose for x: the packet
  // in front of it was compared with x and is not newer. The oldest packet is
  // never compared (so j >= 2), and only MaxDepth packets are.
  predicate Candidate(kind: Kind, a: seq<Packet>, x: Packet, j: int) {
    2 <= j <= |a| && |a| - j < MaxDepth(kind) && NotOlder(kind, x, a[j - 1])
  }

  // x goes to the newest candidate position, or to the newest end without one.
  ghost predicate InsertsAt(kind: Kind, a: seq<Packet>, x: Packet, k: nat) {
    if exists j :: Candidate(kind, a, x, j) then
      Candidate(kind, a, x, k) && forall j :: Candidate(kind, a, x, j) ==> j <= k
    else
      k == |a|
  }

  // The position the search finds, walking from the newest end.
  function InsertPosition(kind: Kind, a: seq<Packet>, x: Packet): (k: nat)
    ensures k <= |a| && (k < |a| ==> |a| - k < MaxDepth(kind))
  {
    PositionBelow(kind, a, x, |a|)
  }

  function PositionBelow(kind: Kind, a: seq<Packet>, x: Packet, p: nat): (k: nat)
    requires p <= |a|
    ensures k <= |a| && (k < |a| ==> |a| - k < MaxDepth(kind))
    decreases p
  {
    if p < 2 || |a| - p >= MaxDepth(kind) then |a|
    else if NotOlder(kind, x, a[p - 1]) then p
    else PositionBelow(kind, a, x, p - 1)
  }

  lemma SearchFindsPosition(kind: Kind, a: seq<Packet>, x: Packet)
    ensures InsertsAt(kind, a, x, InsertPosition(kind, a, x))
  {
    SearchFindsBelow(kind, a, x, |a|);
  }

  lemma {:induction false} SearchFindsBelow(kind: Kind, a: seq<Packet>, x: Packet, p: nat)
    requires p <= |a|
    requires forall j :: Candidate(kind, a, x, j) ==> j <= p
    ensures InsertsAt(kind, a, x, PositionBelow(kind, a, x, p))
    decreases p
  {
    if 2 <= p && |a| - p < MaxDepth(kind) {
      if NotOlder(kind, x, a[p - 1]) {
        assert Candidate(kind, a, x, p);
      } else {
        SearchFindsBelow(kind, a, x, p - 1);
      }
    }
  }

  function Insert(a: seq<Packet>, k: nat, x: Packet): seq<Packet>
    requires k <= |a|
  {
    a[..k] + [x] + a[k..]
  }

  // The queue after a push of `data`: too short a packet is ignored, and a full
  // ring (one slot always stays empty) drops the new packet, not an old one.
  function Pushed(kind: Kind, a: seq<Packet>, data: seq<byte>, ts: u64): seq<Packet> {
    if |data| < HeaderSize(kind) || |a| + 1 == Capacity(kind) then a
    else
      var x := Parse(kind, data, ts);
      Insert(a, InsertPosition(kind, a, x), x)
  }

  // ------------------------------------------------------- delay and trimming

  function Age(now: u64, ts: u64): u64 {
    UInt64(now - ts)
  }

  predicate Ready(x: Packet, now: u64, delay: nat) {
    Age(now, x.timestamp) >= delay
  }

  // The timestamp a reduced delay gives to every packet it keeps.
  function ReadyTimestamp(now: u64, delay: nat): u64 {
    UInt64(now - delay - 1000)
  }

  function Retimed(a: seq<Packet>, ts: u64): (r: seq<Packet>) {
    seq(|a|, i requires 0 <= i < |a| => a[i].(timestamp := ts))
  }

  function Newest(a: seq<Packet>, n: nat): (r: seq<Packet>) {
    if |a| <= n then a else a[|a| - n..]
  }

  function Clamped(delayMs: nat): nat {
    if delayMs > MAX_DELAY_MS then MAX_DELAY_MS else delayMs
  }

  // Dropping to zero from a longer delay than this empties the ring.
  const FLUSH_ABOVE_US: nat := 50000

  predicate FlushesAll(oldUs: nat, ms: nat) {
    ms == 0 && oldUs > FLUSH_ABOVE_US
  }

  function ActiveAfter(active: nat, oldUs: nat, ms: nat): nat {
    if FlushesAll(oldUs, ms) then 0 else active
  }

  // The queue after a change of the delay from oldUs microseconds to ms milliseconds.
  function Redelayed(kind: Kind, a: seq<Packet>, oldUs: nat, ms: nat, now: u64): seq<Packet> {
    if ms * 1000 >= oldUs then a
    else if FlushesAll(oldUs, ms) then []
    else Retimed(Newest(a, SlotsFor(kind, ms)), ReadyTimestamp(now, ms * 1000))
  }

  // Slots for a delay: the ceiling of rate * ms / 1000, within the capacity.
  function SlotsFor(kind: Kind, ms: nat): nat {
    var slots := (Rate(kind) * ms + 999) / 1000;
    if slots > Capacity(kind) then Capacity(kind) else slots
  }

  // --------------------------------------------------------- slot array layout

  datatype Slot = Slot(row: nat, size: nat, timestamp: u64, seqNum: u16, frame: u16, line: u16, valid: bool)

  function Cleared(s: Slot): Slot {
    Slot(s.row, 0, 0, 0, 0, 0, false)
  }

  // Every slot names an existing payload row.
  ghost predicate Rowed(cap: nat, slots: seq<Slot>, store: seq<seq<byte>>, tail: nat, n: nat) {
    && |slots| == |store| == cap && tail < cap && n < cap
    && forall p :: 0 <= p < cap ==> slots[p].row < cap
  }

  ghost predicate Distinct(slots: seq<Slot>) {
    forall p, q :: 0 <= p < q < |slots| ==> slots[p].row != slots[q].row
  }

  // The slot array, seen from its tail, holds exactly `n` valid slots first, and
  // every slot owns a payload row of its own.
  ghost predicate Layout(cap: nat, size: nat, slots: seq<Slot>, store: seq<seq<byte>>, tail: nat, n: nat) {
    && Rowed(cap, slots, store, tail, n)
    && Distinct(slots)
    && (forall r :: 0 <= r < cap ==> |store[r]| == size)
    && (forall p :: 0 <= p < cap ==> (slots[p].valid <==> Offset(cap, tail, p) < n))
    && (forall p :: 0 <= p < cap && slots[p].valid ==> slots[p].size == size)
  }

  function SlotPacket(s: Slot, store: seq<seq<byte>>): Packet
    requires s.row < |store|
  {
    Packet(store[s.row], s.timestamp, s.seqNum, s.frame, s.line)
  }

  function PacketAt(cap: nat, slots: seq<Slot>, store: seq<seq<byte>>, tail: nat, i: nat): Packet
    requires |slots| == cap && tail < cap && i < cap && slots[Pos(cap, tail, i)].row < |store|
  {
    SlotPacket(slots[Pos(cap, tail, i)], store)
  }

  // The queue of packets, oldest first.
  ghost function View(cap: nat, slots: seq<Slot>, store: seq<seq<byte>>, tail: nat, n: nat): (a: seq<Packet>)
    requires Rowed(cap, slots, store, tail, n)
    ensures |a| == n
  {
    seq(n, i requires 0 <= i < n => PacketAt(cap, slots, store, tail, i))
  }

  // The slots with a hole opened at position k: positions k..n-1 have moved one
  // step towards the head, and `hole`, which was the head slot, is at k.
  ghost function Opened(cap: nat, slots: seq<Slot>, tail: nat, n: nat, k: nat, hole: Slot): (r: seq<Slot>)
    requires |slots| == cap && tail < cap && k <= n < cap
    ensures |r| == cap
  {
    seq(cap, p requires 0 <= p < cap =>
      var j := Offset(cap, tail, p);
      if j < k || j > n then slots[p]
      else if j == k then hole
      else slots[Pos(cap, tail, j - 1)])
  }

  lemma OpenedAtHead(cap: nat, slots: seq<Slot>, tail: nat, n: nat, hole: Slot)
    requires |slots| == cap && tail < cap && n < cap
    ensures slots[Pos(cap, tail, n) := hole] == Opened(cap, slots, tail, n, n, hole)
  {
  }

  // One swap of the shift loop moves the hole one position towards the tail.
  lemma SwapOpens(cap: nat, slots: seq<Slot>, tail: nat, n: nat, k: nat, hole: Slot)
    requires |slots| == cap && tail < cap && 1 <= k <= n < cap
    ensures var s := Opened(cap, slots, tail, n, k, hole);
            var hi, lo := Pos(cap, tail, k), Pos(cap, tail, k - 1);
            s[hi := s[lo]][lo := s[hi]] == Opened(cap, slots, tail, n, k - 1, hole)
  {
    var s := Opened(cap, slots, tail, n, k, hole);
    var hi, lo := Pos(cap, tail, k), Pos(cap, tail, k - 1);
    var t := s[hi := s[lo]][lo := s[hi]];
    var u := Opened(cap, slots, tail, n, k - 1, hole);
    forall p | 0 <= p < cap
      ensures t[p] == u[p]
    {
    }
  }

  lemma SlotInUse(cap: nat, size: nat, slots: seq<Slot>, store: seq<seq<byte>>, tail: nat, n: nat, i: nat)
    requires Layout(cap, size, slots, store, tail, n) && i < n
    ensures slots[Pos(cap, tail, i)].valid
    ensures View(cap, slots, store, tail, n)[i] == SlotPacket(slots[Pos(cap, tail, i)], store)
  {
    assert Offset(cap, tail, Pos(cap, tail, i)) == i;
  }

  // Position i of the slots holds packet i of a.
  ghost predicate HoldsAt(cap: nat, slots: seq<Slot>, store: seq<seq<byte>>, tail: nat, a: seq<Packet>, i: nat)
    requires |slots| == cap && tail < cap && i < |a| < cap
  {
    var s := slots[Pos(cap, tail, i)];
    s.valid && s.row < |store| && SlotPacket(s, store) == a[i]
  }

  ghost predicate Holds(cap: nat, slots: seq<Slot>, store: seq<seq<byte>>, tail: nat, a: seq<Packet>) {
    |slots| == cap && tail < cap && |a| < cap && forall i :: 0 <= i < |a| ==> HoldsAt(cap, slots, store, tail, a, i)
  }

  lemma SlotsHoldView(cap: nat, size: nat, slots: seq<Slot>, store: seq<seq<byte>>, tail: nat, n: nat)
    requires Layout(cap, size, slots, store, tail, n)
    ensures Holds(cap, slots, store, tail, View(cap, slots, store, tail, n))
  {
    forall i | 0 <= i < n
      ensures HoldsAt(cap, slots, store, tail, View(cap, slots, store, tail, n), i)
    {
      SlotInUse(cap, size, slots, store, tail, n, i);
    }
  }

  // One step of the backward search, from position i to the packet before it.
  lemma StepBack(cap: nat, slots: seq<Slot>, store: seq<seq<byte>>, tail: nat, a: seq<Packet>, i: nat)
    requires Holds(cap, slots, store, tail, a) && 1 <= i <= |a|
    ensures var p := Pos(cap, tail, i);
            var prev := if p == 0 then cap - 1 else p - 1;
            && prev == Pos(cap, tail, i - 1) && prev < cap && (prev == tail <==> i == 1)
            && slots[prev].valid && slots[prev].row < |store| && SlotPacket(slots[prev], store) == a[i - 1]
  {
    PrevPos(cap, tail, i);
    assert HoldsAt(cap, slots, store, tail, a, i - 1);
  }

  // Where the slot record at index p came from.
  ghost function Source(cap: nat, tail: nat, n: nat, k: nat, p: nat): (q: nat)
    requires tail < cap && k <= n < cap && p < cap
    ensures q < cap
  {
    var j := Offset(cap, tail, p);
    if j < k || j > n then p else if j == k then Pos(cap, tail, n) else Pos(cap, tail, j - 1)
  }

  lemma SourceInjective(cap: nat, tail: nat, n: nat, k: nat, p: nat, q: nat)
    requires tail < cap && k <= n < cap && p < q < cap
    ensures Source(cap, tail, n, k, p) != Source(cap, tail, n, k, q)
  {
  }

  // Slots and rows after filling the hole at position k.
  ghost function Filled(cap: nat, slots: seq<Slot>, tail: nat, n: nat, k: nat, filled: Slot): (r: seq<Slot>)
    requires |slots| == cap && tail < cap && k <= n < cap
    ensures |r| == cap
  {
    Opened(cap, slots, tail, n, k, filled)[Pos(cap, tail, k) := filled]
  }

  // Whatever the hole held, filling it gives the same slots.
  lemma HoleFilled(cap: nat, slots: seq<Slot>, tail: nat, n: nat, k: nat, hole: Slot, filled: Slot)
    requires |slots| == cap && tail < cap && k <= n < cap
    ensures Opened(cap, slots, tail, n, k, hole)[Pos(cap, tail, k) := filled] == Filled(cap, slots, tail, n, k, filled)
    ensures k == n ==> slots[Pos(cap, tail, k) := filled] == Filled(cap, slots, tail, n, k, filled)
  {
    OpenedAtHead(cap, slots, tail, n, filled);
  }

  lemma FilledSlot(cap: nat, slots: seq<Slot>, tail: nat, n: nat, k: nat, filled: Slot, p: nat)
    requires |slots| == cap && tail < cap && k <= n < cap && p < cap
    ensures Filled(cap, slots, tail, n, k, filled)[p] ==
            if Offset(cap, tail, p) == k then filled else slots[Source(cap, tail, n, k, p)]
  {
  }

  lemma FilledDistinct(cap: nat, slots: seq<Slot>, tail: nat, n: nat, k: nat, filled: Slot)
    requires |slots| == cap && tail < cap && k <= n < cap && Distinct(slots)
    requires filled.row == slots[Pos(cap, tail, n)].row
    ensures Distinct(Filled(cap, slots, tail, n, k, filled))
  {
    var slots' := Filled(cap, slots, tail, n, k, filled);
    forall p, q | 0 <= p < q < cap
      ensures slots'[p].row != slots'[q].row
    {
      FilledSlot(cap, slots, tail, n, k, filled, p);
      FilledSlot(cap, slots, tail, n, k, filled, q);
      SourceInjective(cap, tail, n, k, p, q);
    }
  }

  lemma FilledLayout(cap: nat, size: nat, slots: seq<Slot>, store: seq<seq<byte>>, tail: nat, n: nat, k: nat,
                     filled: Slot, payload: seq<byte>)
    requires Layout(cap, size, slots, store, tail, n) && k <= n && n + 1 < cap
    requires filled.row == slots[Pos(cap, tail, n)].row && filled.valid && filled.size == size == |payload|
    ensures Layout(cap, size, Filled(cap, slots, tail, n, k, filled), store[filled.row := payload], tail, n + 1)
  {
    var slots' := Filled(cap, slots, tail, n, k, filled);
    FilledDistinct(cap, slots, tail, n, k, filled);
    forall p | 0 <= p < cap
      ensures slots'[p].row < cap && (slots'[p].valid <==> Offset(cap, tail, p) < n + 1)
      ensures slots'[p].valid ==> slots'[p].size == size
    {
      FilledSlotFits(cap, size, slots, store, tail, n, k, filled, p);
    }
  }

  lemma FilledSlotFits(cap: nat, size: nat, slots: seq<Slot>, store: seq<seq<byte>>, tail: nat, n: nat, k: nat,
                       filled: Slot, p: nat)
    requires Layout(cap, size, slots, store, tail, n) && k <= n && n + 1 < cap && p < cap
    requires filled.row < cap && filled.valid && filled.size == size
    ensures var s := Filled(cap, slots, tail, n, k, filled)[p];
            s.row < cap && (s.valid <==> Offset(cap, tail, p) < n + 1) && (s.valid ==> s.size == size)
  {
    FilledSlot(cap, slots, tail, n, k, filled, p);
    var q := Source(cap, tail, n, k, p);
    assert slots[q].valid <==> Offset(cap, tail, q) < n;
  }

  // Filling the hole inserts one packet into the queue and changes no other:
  // no payload row of a queued packet is written.
  lemma FilledView(cap: nat, slots: seq<Slot>, store: seq<seq<byte>>, tail: nat, n: nat, k: nat, filled: Slot,
                   payload: seq<byte>)
    requires Rowed(cap, slots, store, tail, n) && Distinct(slots) && k <= n && n + 1 < cap
    requires filled.row == slots[Pos(cap, tail, n)].row
    requires Rowed(cap, Filled(cap, slots, tail, n, k, filled), store[filled.row := payload], tail, n + 1)
    ensures var slots', store' := Filled(cap, slots, tail, n, k, filled), store[filled.row := payload];
            View(cap, slots', store', tail, n + 1) ==
            Insert(View(cap, slots, store, tail, n), k, SlotPacket(filled, store'))
  {
    var slots', store' := Filled(cap, slots, tail, n, k, filled), store[filled.row := payload];
    var a, b := View(cap, slots, store, tail, n), View(cap, slots', store', tail, n + 1);
    forall i | 0 <= i < n + 1
      ensures b[i] == Insert(a, k, SlotPacket(filled, store'))[i]
    {
      FilledPacket(cap, slots, store, tail, n, k, filled, payload, i);
    }
  }

  // The packet at position i after filling the hole.
  lemma FilledPacket(cap: nat, slots: seq<Slot>, store: seq<seq<byte>>, tail: nat, n: nat, k: nat, filled: Slot,
                     payload: seq<byte>, i: nat)
    requires Rowed(cap, slots, store, tail, n) && Distinct(slots) && k <= n && n + 1 < cap && i <= n
    requires filled.row == slots[Pos(cap, tail, n)].row
    ensures var s := Filled(cap, slots, tail, n, k, filled)[Pos(cap, tail, i)];
            var store' := store[filled.row := payload];
            s.row < cap &&
            SlotPacket(s, store') == if i == k then SlotPacket(filled, store')
                                     else PacketAt(cap, slots, store, tail, if i < k then i else i - 1)
  {
    var p, h := Pos(cap, tail, i), Pos(cap, tail, n);
    assert Offset(cap, tail, p) == i;
    FilledSlot(cap, slots, tail, n, k, filled, p);
    if i != k {
      var q := Pos(cap, tail, if i < k then i else i - 1);
      assert Source(cap, tail, n, k, p) == q != h;
      assert slots[q].row != slots[h].row;
    }
  }

  // Clearing or releasing the tail slot drops the oldest packet.
  lemma DropOldest(cap: nat, size: nat, slots: seq<Slot>, store: seq<seq<byte>>, tail: nat, n: nat, s: Slot,
                   payload: seq<byte>)
    requires Layout(cap, size, slots, store, tail, n) && n > 0
    requires s.row == slots[tail].row && !s.valid && |payload| == size
    ensures var slots', store', tail' := slots[tail := s], store[s.row := payload], Pos(cap, tail, 1);
            Layout(cap, size, slots', store', tail', n - 1) &&
            View(cap, slots', store', tail', n - 1) == View(cap, slots, store, tail, n)[1..]
  {
    var slots', store', tail' := slots[tail := s], store[s.row := payload], Pos(cap, tail, 1);
    forall p | 0 <= p < cap
      ensures slots'[p].valid <==> Offset(cap, tail', p) < n - 1
    {
    }
    var a, b := View(cap, slots, store, tail, n), View(cap, slots', store', tail', n - 1);
    forall i | 0 <= i < n - 1
      ensures b[i] == a[1..][i]
    {
      assert Pos(cap, tail', i) == Pos(cap, tail, i + 1) != tail;
    }
  }

  ghost function RetimedSlots(slots: seq<Slot>, ts: u64): (r: seq<Slot>) {
    seq(|slots|, p requires 0 <= p < |slots| => if slots[p].valid then slots[p].(timestamp := ts) else slots[p])
  }

  lemma RetimedView(cap: nat, size: nat, slots: seq<Slot>, store: seq<seq<byte>>, tail: nat, n: nat, ts: u64)
    requires Layout(cap, size, slots, store, tail, n)
    ensures Layout(cap, size, RetimedSlots(slots, ts), store, tail, n)
    ensures View(cap, RetimedSlots(slots, ts), store, tail, n) == Retimed(View(cap, slots, store, tail, n), ts)
  {
    forall i | 0 <= i < n
      ensures View(cap, RetimedSlots(slots, ts), store, tail, n)[i] == Retimed(View(cap, slots, store, tail, n), ts)[i]
    {
      SlotInUse(cap, size, slots, store, tail, n, i);
    }
  }

  // ------------------------------------------------------------------ the ring

  class Ring {
    const kind: Kind
    const cap: nat
    const slots: array<Slot>
    const store: array<seq<byte>>
    var head: nat
    var tail: nat
    var activeSlots: nat
    var delayUs: nat
    // The consumer's copy of the packet popped last.
    var scratch: Packet

    ghost predicate Valid()
      reads this, slots, store
    {
      && cap == Capacity(kind) && slots.Length == cap && store.Length == cap
      && head < cap && tail < cap && activeSlots <= cap
      && Layout(cap, PacketSize(kind), slots[..], store[..], tail, Count(cap, tail, head))
    }

    ghost function Contents(): (a: seq<Packet>)
      requires Valid()
      reads this, slots, store
    {
      View(cap, slots[..], store[..], tail, Count(cap, tail, head))
    }

    constructor (kind: Kind)
      ensures Valid() && fresh(slots) && fresh(store)
      ensures this.kind == kind && Contents() == [] && delayUs == 0 && activeSlots == cap
    {
      this.kind := kind;
      var n := Capacity(kind);
      cap := n;
      var blank: seq<byte> := seq(PacketSize(kind), _ => 0);
      slots := new Slot[n](i requires 0 <= i => Slot(i, PacketSize(kind), 0, 0, 0, 0, false));
      store := new seq<byte>[n](_ => blank);
      head, tail, activeSlots, delayUs := 0, 0, n, 0;
      scratch := Packet(blank, 0, 0, 0, 0);
    }

    // The backward search: the physical index where x belongs.
    method FindInsertPos(x: Packet) returns (at: nat, found: bool)
      requires Valid()
      ensures at == Pos(cap, tail, InsertPosition(kind, Contents(), x))
      ensures !found ==> InsertPosition(kind, Contents(), x) == |Contents()|
    {
      SlotsHoldView(cap, PacketSize(kind), slots[..], store[..], tail, |Contents()|);
      at, found := SearchBack(x, Contents());
    }

    method SearchBack(x: Packet, ghost a: seq<Packet>) returns (at: nat, found: bool)
      requires Holds(cap, slots[..], store[..], tail, a) && head == Pos(cap, tail, |a|)
      ensures at == Pos(cap, tail, InsertPosition(kind, a, x))
      ensures !found ==> InsertPosition(kind, a, x) == |a|
    {
      ghost var k := InsertPosition(kind, a, x);
      at, found := head, false;
      var current, depth := head, 0;
      while current != tail && depth < MaxDepth(kind)
        invariant 0 <= depth <= |a| && current == Pos(cap, tail, |a| - depth)
        invariant at == head && !found
        invariant k == PositionBelow(kind, a, x, |a| - depth)
        decreases |a| - depth
      {
        StepBack(cap, slots[..], store[..], tail, a, |a| - depth);
        var prev := if current == 0 then cap - 1 else current - 1;
        if prev == tail {
          break;
        }
        if !slots[prev].valid {
          assert false;
        }
        if NotOlder(kind, x, SlotPacket(slots[prev], store[..])) {
          at, found := current, true;
          break;
        }
        current, depth := prev, depth + 1;
      }
    }

    method SwapSlots(hi: nat, lo: nat)
      requires hi < slots.Length && lo < slots.Length && hi != lo
      modifies slots
      ensures var s := old(slots[..]); slots[..] == s[hi := s[lo]][lo := s[hi]]
    {
      slots[hi], slots[lo] := slots[lo], slots[hi];
    }

    // The swap-shift loop: the head slot becomes an empty hole and travels back
    // to index `at`. No payload row is touched.
    method OpenHole(at: nat, ghost n: nat, ghost k: nat)
      requires slots.Length == cap && tail < cap && k < n < cap && n - k < MaxDepth(kind)
      requires head == Pos(cap, tail, n) && at == Pos(cap, tail, k)
      modifies slots
      ensures slots[..] == Opened(cap, old(slots[..]), tail, n, k, Cleared(old(slots[head])))
    {
      ghost var a := slots[..];
      ghost var hole := Cleared(slots[head]);
      var distance := if head >= at then head - at else head + cap - at;
      if distance > MaxDepth(kind) {
        assert false;
      }
      slots[head] := Cleared(slots[head]);
      var shiftPos := head;
      assert slots[..] == a[head := hole];
      OpenedAtHead(cap, a, tail, n, hole);
      assert distance == n - k;
      ghost var m := n;
      for i := 0 to distance
        invariant m == n - i && shiftPos == Pos(cap, tail, m)
        invariant slots[..] == Opened(cap, a, tail, n, m, hole)
      {
        SwapOpens(cap, a, tail, n, m, hole);
        PrevPos(cap, tail, m);
        var prev := if shiftPos == 0 then cap - 1 else shiftPos - 1;
        SwapSlots(shiftPos, prev);
        shiftPos, m := prev, m - 1;
      }
    }

    method Push(data: seq<byte>, ts: u64)
      requires Valid()
      modifies this`head, slots, store
      ensures Valid()
      ensures Contents() == Pushed(kind, old(Contents()), data, ts)
    {
      if |data| < HeaderSize(kind) {
        return;
      }
      var x := Parse(kind, data, ts);
      NextPos(cap, head);
      var nextHead := (head + 1) % cap;
      if nextHead == tail {
        assert |Contents()| + 1 == cap;
        return;
      }
      assert |Contents()| + 1 < cap;
      var at, found := FindInsertPos(x);
      PushAt(x, at, found && at != head, nextHead);
    }

    method PushAt(x: Packet, at: nat, shift: bool, nextHead: nat)
      requires Valid() && |Contents()| + 1 < cap && |x.payload| == PacketSize(kind)
      requires nextHead == Pos(cap, head, 1)
      requires at == Pos(cap, tail, InsertPosition(kind, Contents(), x))
      requires shift <==> InsertPosition(kind, Contents(), x) < |Contents()|
      modifies this`head, slots, store
      ensures Valid()
      ensures Contents() == Insert(old(Contents()), InsertPosition(kind, old(Contents()), x), x)
    {
      ghost var a, rows, q := slots[..], store[..], Contents();
      ghost var n, k := |q|, InsertPosition(kind, q, x);
      if shift {
        OpenHole(at, n, k);
      } else {
        OpenedAtHead(cap, a, tail, n, Cleared(a[head]));
      }
      var filled := Slot(slots[at].row, PacketSize(kind), x.timestamp, x.seqNum, x.frame, x.line, true);
      Overwrite(at, filled, x.payload);
      CountGrows(cap, tail, head);
      head := nextHead;
      HoleFilled(cap, a, tail, n, k, Cleared(a[old(head)]), filled);
      FilledLayout(cap, PacketSize(kind), a, rows, tail, n, k, filled, x.payload);
      FilledView(cap, a, rows, tail, n, k, filled, x.payload);
    }

    // Hands out the oldest packet once it has been held for the delay.
    method Pop(now: u64) returns (got: bool)
      requires Valid()
      modifies this`tail, this`scratch, slots
      ensures Valid()
      ensures got <==> old(|Contents()| > 0 && Ready(Contents()[0], now, delayUs))
      ensures got ==> Contents() == old(Contents())[1..] && scratch == old(Contents())[0]
      ensures !got ==> Contents() == old(Contents()) && scratch == old(scratch)
    {
      got := false;
      if head != tail {
        ghost var a, rows, n := slots[..], store[..], |Contents()|;
        SlotInUse(cap, PacketSize(kind), a, rows, tail, n, 0);
        var oldest := slots[tail];
        if oldest.valid && Ready(SlotPacket(oldest, store[..]), now, delayUs) {
          DropOldest(cap, PacketSize(kind), a, rows, tail, n, oldest.(valid := false), store[oldest.row]);
          got := true;
          scratch := SlotPacket(oldest, store[..]);
          NextPos(cap, tail);
          CountShrinks(cap, tail, head);
          slots[tail] := oldest.(valid := false);
          tail := (tail + 1) % cap;
          assert store[..] == rows[oldest.row := rows[oldest.row]];
        }
      }
    }

    // First critical section of a delay reduction: drops the oldest packets
    // beyond `keep` and blanks their payload rows.
    method Trim(keep: nat)
      requires Valid()
      modifies this`tail, slots, store
      ensures Valid()
      ensures Contents() == Newest(old(Contents()), keep)
    {
      ghost var q := Contents();
      var current := if head >= tail then head - tail else cap - tail + head;
      if current > keep {
        var toDiscard := current - keep;
        var discarded := 0;
        while discarded < toDiscard && tail != head
          invariant Valid() && 0 <= discarded <= toDiscard
          invariant Contents() == q[discarded..]
          decreases toDiscard - discarded
        {
          DiscardTail();
          discarded := discarded + 1;
        }
      }
    }

    // Replaces a slot and the payload row it owns.
    method Overwrite(p: nat, s: Slot, payload: seq<byte>)
      requires p < slots.Length && s.row < store.Length
      modifies slots, store
      ensures slots[..] == old(slots[..])[p := s] && store[..] == old(store[..])[s.row := payload]
    {
      slots[p] := s;
      store[s.row] := payload;
    }

    method DiscardTail()
      requires Valid() && head != tail
      modifies this`tail, slots, store
      ensures Valid() && Contents() == old(Contents())[1..]
    {
      ghost var a, rows, n := slots[..], store[..], |Contents()|;
      SlotInUse(cap, PacketSize(kind), a, rows, tail, n, 0);
      var slot := slots[tail];
      if !slot.valid {
        assert false;
      }
      var blank: seq<byte> := seq(PacketSize(kind), _ => 0);
      DropOldest(cap, PacketSize(kind), a, rows, tail, n, Cleared(slot), blank);
      Overwrite(tail, Cleared(slot), blank);
      NextPos(cap, tail);
      CountShrinks(cap, tail, head);
      tail := (tail + 1) % cap;
    }

    // Second critical section: every packet still queued becomes due.
    method Retimestamp(ts: u64)
      requires Valid()
      modifies slots
      ensures Valid()
      ensures Contents() == Retimed(old(Contents()), ts)
    {
      ghost var a, n := slots[..], |Contents()|;
      for i := 0 to cap
        invariant forall p :: 0 <= p < cap ==> slots[p] == if p < i then RetimedSlots(a, ts)[p] else a[p]
      {
        if slots[i].valid {
          slots[i] := slots[i].(timestamp := ts);
        }
      }
      assert slots[..] == RetimedSlots(a, ts);
      RetimedView(cap, PacketSize(kind), a, store[..], tail, n, ts);
    }

    method Reset(active: nat)
      requires Valid()
      modifies this`head, this`tail, this`activeSlots, slots
      ensures Valid() && Contents() == []
      ensures activeSlots == if active > cap then cap else active
    {
      ghost var a := slots[..];
      activeSlots := if active > cap then cap else active;
      head, tail := 0, 0;
      for i := 0 to cap
        invariant head == tail == 0 && activeSlots == if active > cap then cap else active
        invariant forall p :: 0 <= p < cap ==> slots[p] == if p < i then a[p].(valid := false) else a[p]
      {
        slots[i] := slots[i].(valid := false);
      }
    }

    // A delay change without interference between its two critical sections.
    method SetDelay(delayMs: nat, now: u64)
      requires Valid()
      modifies this`head, this`tail, this`activeSlots, this`delayUs, slots, store
      ensures Valid()
      ensures delayUs == Clamped(delayMs) * 1000
      ensures Contents() == Redelayed(kind, old(Contents()), old(delayUs), Clamped(delayMs), now)
      ensures activeSlots == ActiveAfter(old(activeSlots), old(delayUs), Clamped(delayMs))
    {
      var ms := Clamped(delayMs);
      var active := SlotsFor(kind, ms);
      var oldDelay, newDelay := delayUs, ms * 1000;
      delayUs := newDelay;
      if newDelay < oldDelay {
        if FlushesAll(oldDelay, ms) {
          Reset(active);
        } else {
          Trim(active);
          Retimestamp(ReadyTimestamp(now, newDelay));
        }
      }
    }
  }

  // ------------------------------------------------- what the queue promises

  // A packet given the timestamp of a reduced delay passes the age test at every
  // later time, although both subtractions are done modulo 2^64.
  lemma RetimedIsReady(x: Packet, ms: nat, now: u64, later: u64)
    requires ms <= MAX_DELAY_MS && now <= later <= (TWO_64 - 1) / 1000
    ensures Ready(x.(timestamp := ReadyTimestamp(now, ms * 1000)), later, ms * 1000)
  {
    var delay := ms * 1000;
    var ts := ReadyTimestamp(now, delay);
    assert ts == now - delay - 1000 || ts == now - delay - 1000 + TWO_64;
    assert Age(later, ts) == later - now + delay + 1000;
  }

  // The payload rows named by the slots are always a permutation of all rows.
  lemma RowsArePermutation(cap: nat, size: nat, slots: seq<Slot>, store: seq<seq<byte>>, tail: nat, n: nat)
    requires Layout(cap, size, slots, store, tail, n)
    ensures multiset(Rows(slots)) == multiset(seq(cap, i => i))
  {
    InjectionIsPermutation(Rows(slots));
  }

  lemma {:induction false} InjectionIsPermutation(s: seq<nat>)
    requires forall i :: 0 <= i < |s| ==> s[i] < |s|
    requires forall i, j :: 0 <= i < j < |s| ==> s[i] != s[j]
    ensures multiset(s) == multiset(seq(|s|, i => i))
  {
    var all := seq(|s|, i => i);
    DistinctElements(s);
    DistinctElements(all);
    var elems, range := set x | x in s, set x | x in all;
    assert forall x :: x in s ==> all[x] == x;
    assert elems <= range;
    assert |range - elems| == |range| - |elems|;
    assert elems == range;
  }

  lemma {:induction false} DistinctElements(s: seq<nat>)
    requires forall i, j :: 0 <= i < j < |s| ==> s[i] != s[j]
    ensures multiset(s) == multiset(set x | x in s)
    ensures |set x | x in s| == |s|
  {
    if s != [] {
      var last := |s| - 1;
      DistinctElements(s[..last]);
      assert s == s[..last] + [s[last]];
      assert (set x | x in s) == (set x | x in s[..last]) + {s[last]};
    }
  }

  function Rows(slots: seq<Slot>): seq<nat> {
    seq(|slots|, i requires 0 <= i < |slots| => slots[i].row)
  }
}
