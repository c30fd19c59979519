// The audio timeline of src/audio/c64-audio-timeline.c: 16-bit wrap-around
// sequence numbers onto a growing packet index.
module AudioTimeline {
  import opened Words

  const WAV_FILL_MAX_PACKETS: int := 1250
  const RESYNC_THRESHOLD: int := 250

  // What to do with a packet: play it at an index, after concealing a gap of
  // packets or not, or drop it.
  datatype Verdict = Play(index: u64) | Drop | Conceal(index: u64, gap: nat) | Resync(index: u64)

  datatype Clock = Clock(
    started: bool, lastSeq: u16, index: u64,
    lost: nat, concealed: nat, late: nat, duplicates: nat, resyncs: nat)

  const FRESH := Clock(false, 0, 0, 0, 0, 0, 0, 0)

  function Max(a: int, b: int): int {
    if a > b then a else b
  }

  datatype Step = Step(clock: Clock, verdict: Verdict)

  function Advance(c: Clock, seqNum: u16, nowSlot: u64): Step {
    var delta := Int16(seqNum - c.lastSeq);
    if !c.started then
      Step(c.(started := true, lastSeq := seqNum, index := 0), Play(0))
    else if delta == 1 then
      var index := UInt64(c.index + 1);
      Step(c.(index := index, lastSeq := seqNum), Play(index))
    else if -RESYNC_THRESHOLD < delta <= 0 then
      Step(if delta == 0 then c.(duplicates := c.duplicates + 1) else c.(late := c.late + 1), Drop)
    else if delta > 1 && delta - 1 <= WAV_FILL_MAX_PACKETS then
      var gap := delta - 1;
      var index := UInt64(c.index + delta);
      Step(c.(lost := c.lost + gap, concealed := c.concealed + gap, index := index, lastSeq := seqNum),
           Conceal(index, gap))
    else
      var lost := if delta > 1 then c.lost + delta - 1 else c.lost;
      var index := Max(UInt64(c.index + 1), nowSlot);
      Step(c.(lost := lost, resyncs := c.resyncs + 1, index := index, lastSeq := seqNum), Resync(index))
  }

  class Timeline {
    var seqSet: bool
    var lastSeq: u16
    var packetIndex: u64
    var packetsLost: nat
    var concealed: nat
    var lateDropped: nat
    var duplicates: nat
    var resyncs: nat

    function State(): Clock
      reads this
    {
      Clock(seqSet, lastSeq, packetIndex, packetsLost, concealed, lateDropped, duplicates, resyncs)
    }

    constructor ()
      ensures State() == FRESH
    {
      seqSet, lastSeq, packetIndex := false, 0, 0;
      packetsLost, concealed, lateDropped, duplicates, resyncs := 0, 0, 0, 0, 0;
    }

    method Reset()
      modifies this
      ensures State() == FRESH
    {
      seqSet, lastSeq, packetIndex := false, 0, 0;
      packetsLost, concealed, lateDropped, duplicates, resyncs := 0, 0, 0, 0, 0;
    }

    method AdvanceTo(seqNum: u16, nowSlot: u64) returns (verdict: Verdict)
      modifies this
      ensures Step(State(), verdict) == Advance(old(State()), seqNum, nowSlot)
    {
      if !seqSet {
        seqSet, lastSeq, packetIndex := true, seqNum, 0;
        return Play(0);
      }
      var delta := Int16(seqNum - lastSeq);
      if delta == 1 {
        packetIndex, lastSeq := UInt64(packetIndex + 1), seqNum;
        return Play(packetIndex);
      }
      if delta <= 0 && delta > -RESYNC_THRESHOLD {
        if delta == 0 {
          duplicates := duplicates + 1;
        } else {
          lateDropped := lateDropped + 1;
        }
        return Drop;
      }
      if delta > 1 && delta - 1 <= WAV_FILL_MAX_PACKETS {
        var gap := delta - 1;
        packetsLost, concealed := packetsLost + gap, concealed + gap;
        packetIndex, lastSeq := UInt64(packetIndex + delta), seqNum;
        return Conceal(packetIndex, gap);
      }
      if delta > 1 {
        packetsLost := packetsLost + delta - 1;
      }
      resyncs := resyncs + 1;
      var nextIndex := UInt64(packetIndex + 1);
      if nowSlot > nextIndex {
        nextIndex := nowSlot;
      }
      packetIndex, lastSeq := nextIndex, seqNum;
      return Resync(packetIndex);
    }
  }

  // ------------------------------------------------- the unbounded reference

  // True packet numbers count without wrapping; the stream carries them modulo
  // 2^16. A run is the true numbers in order of arrival.
  function Newest(arrivals: seq<int>): int
    requires arrivals != []
  {
    if |arrivals| == 1 then arrivals[0]
    else Max(Newest(arrivals[..|arrivals| - 1]), arrivals[|arrivals| - 1])
  }

  function ClockAfter(arrivals: seq<int>, slots: seq<u64>): Clock
    requires |slots| == |arrivals|
  {
    if arrivals == [] then FRESH
    else
      var i := |arrivals| - 1;
      Advance(ClockAfter(arrivals[..i], slots[..i]), UInt16(arrivals[i]), slots[i]).clock
  }

  // The verdict on the last arrival.
  function LastVerdict(arrivals: seq<int>, slots: seq<u64>): Verdict
    requires |slots| == |arrivals| > 0
  {
    var i := |arrivals| - 1;
    Advance(ClockAfter(arrivals[..i], slots[..i]), UInt16(arrivals[i]), slots[i]).verdict
  }

  // Each arrival is less than one resync threshold behind, and at most one
  // fillable gap ahead of, the newest packet so far.
  ghost predicate Steady(arrivals: seq<int>) {
    forall i :: 1 <= i < |arrivals| ==>
      Newest(arrivals[..i]) - RESYNC_THRESHOLD < arrivals[i] <= Newest(arrivals[..i]) + WAV_FILL_MAX_PACKETS + 1
  }

  // How many arrivals exceeded everything before them.
  ghost function Played(arrivals: seq<int>): nat {
    if arrivals == [] then 0
    else
      var i := |arrivals| - 1;
      Played(arrivals[..i]) + (if i == 0 || arrivals[i] > Newest(arrivals[..i]) then 1 else 0)
  }

  lemma SteadyPrefix(arrivals: seq<int>, i: nat)
    requires Steady(arrivals) && i <= |arrivals|
    ensures Steady(arrivals[..i])
  {
    forall j | 1 <= j < i
      ensures arrivals[..i][..j] == arrivals[..j]
    {
    }
  }

  // The wrap-around difference to the newest number is the true difference.
  lemma DeltaIsTrue(newest: int, t: int)
    requires -0x8000 <= t - newest < 0x8000
    ensures Int16(UInt16(t) - UInt16(newest)) == t - newest
  {
  }

  lemma WrapAdd(x: int, d: int)
    ensures UInt64(UInt64(x) + d) == UInt64(x + d)
  {
  }

  // c is the clock of a stream that began with `first` and reached `newest`.
  ghost predicate Tracks(c: Clock, first: int, newest: int) {
    c.started && c.lastSeq == UInt16(newest) && c.index == UInt64(newest - first)
  }

  // One packet, seen by the 16-bit clock and by the unbounded one.
  lemma AdvanceTracks(c: Clock, first: int, newest: int, t: int, slot: u64)
    requires Tracks(c, first, newest)
    requires newest - RESYNC_THRESHOLD < t <= newest + WAV_FILL_MAX_PACKETS + 1
    ensures var s := Advance(c, UInt16(t), slot);
            && Tracks(s.clock, first, Max(newest, t))
            && s.verdict == (if t <= newest then Drop
                             else if t == newest + 1 then Play(UInt64(t - first))
                             else Conceal(UInt64(t - first), t - newest - 1))
            && s.clock.resyncs == c.resyncs
            && s.clock.lost == c.lost + Max(0, t - newest - 1)
            && s.clock.concealed == c.concealed + Max(0, t - newest - 1)
            && s.clock.late + s.clock.duplicates == c.late + c.duplicates + (if t <= newest then 1 else 0)
  {
    DeltaIsTrue(newest, t);
    WrapAdd(newest - first, t - newest);
  }

  // The 16-bit timeline refines the unbounded one, across any number of
  // wrap-arounds: its index is the newest true number, counted from the first,
  // and the counters balance.
  lemma {:induction false} ClockTracksNewest(arrivals: seq<int>, slots: seq<u64>)
    requires |slots| == |arrivals| > 0 && Steady(arrivals)
    ensures var c := ClockAfter(arrivals, slots);
            && Tracks(c, arrivals[0], Newest(arrivals))
            && c.resyncs == 0 && c.lost == c.concealed
            && Played(arrivals) + c.lost == Newest(arrivals) - arrivals[0] + 1
            && Played(arrivals) + c.late + c.duplicates == |arrivals|
    decreases |arrivals|
  {
    var i := |arrivals| - 1;
    if i > 0 {
      SteadyPrefix(arrivals, i);
      ClockTracksNewest(arrivals[..i], slots[..i]);
      AdvanceTracks(ClockAfter(arrivals[..i], slots[..i]), arrivals[0], Newest(arrivals[..i]), arrivals[i], slots[i]);
    } else {
      assert arrivals[..0] == [];
      FirstPacket(arrivals[0], slots[0]);
      assert ClockAfter(arrivals, slots) == Advance(FRESH, UInt16(arrivals[0]), slots[0]).clock;
    }
  }

  lemma FirstPacket(t: int, slot: u64)
    ensures var c := Advance(FRESH, UInt16(t), slot).clock;
            Tracks(c, t, t) && c.resyncs == c.lost == c.concealed == c.late == c.duplicates == 0
  {
  }

  // A packet is played exactly when its true number exceeds all before it, at
  // the index of that number, after concealing exactly the numbers skipped.
  lemma VerdictIsTrueOrder(arrivals: seq<int>, slots: seq<u64>)
    requires |slots| == |arrivals| > 1 && Steady(arrivals)
    ensures var i := |arrivals| - 1;
            var newest, index := Newest(arrivals[..i]), UInt64(arrivals[i] - arrivals[0]);
            LastVerdict(arrivals, slots) ==
            if arrivals[i] <= newest then Drop
            else if arrivals[i] == newest + 1 then Play(index)
            else Conceal(index, arrivals[i] - newest - 1)
  {
    var i := |arrivals| - 1;
    SteadyPrefix(arrivals, i);
    ClockTracksNewest(arrivals[..i], slots[..i]);
    AdvanceTracks(ClockAfter(arrivals[..i], slots[..i]), arrivals[0], Newest(arrivals[..i]), arrivals[i], slots[i]);
  }

  // Outside the window the numbers are ambiguous and the clock re-anchors: it
  // drops, plays or conceals exactly inside it.
  lemma ResyncExactlyOutsideWindow(c: Clock, newest: int, t: int, slot: u64)
    requires c.started && c.lastSeq == UInt16(newest) && -0x8000 <= t - newest < 0x8000
    ensures Advance(c, UInt16(t), slot).verdict.Resync? <==>
            !(newest - RESYNC_THRESHOLD < t <= newest + WAV_FILL_MAX_PACKETS + 1)
  {
    DeltaIsTrue(newest, t);
  }

  // Whatever arrives, the index of a packet that is not dropped is larger than
  // every index before it, as long as 64 bits suffice.
  lemma IndexGrows(c: Clock, seqNum: u16, slot: u64)
    requires c.started && c.index + WAV_FILL_MAX_PACKETS + 1 < TWO_64
    ensures var s := Advance(c, seqNum, slot);
            if s.verdict.Drop? then s.clock.index == c.index
            else s.clock.index == s.verdict.index > c.index
    ensures var s := Advance(c, seqNum, slot);
            s.verdict.Play? ==> s.verdict.index == c.index + 1
    ensures var s := Advance(c, seqNum, slot);
            s.verdict.Conceal? ==>
              1 <= s.verdict.gap <= WAV_FILL_MAX_PACKETS && s.verdict.index == c.index + s.verdict.gap + 1
  {
  }
}
