// Delivery of audio packets: c64_process_audio_packet and c64_audio_conceal_gap
// of src/audio/c64-audio.c. OBS and the WAV recorder are the lists of what was
// handed to them.
module AudioOutput {
  import opened Words
  import opened AudioTimeline
  import opened Concealment

  datatype Submission = Submission(timestamp: u64, pcm: seq<byte>)

  // ------------------------------------------------------------ specification

  // The delivery so far: the indices submitted to OBS, and how many packets the
  // recorder got. `anchorIndex` and `anchorCount` are the index and the number
  // of recorded packets when the timeline last re-anchored.
  datatype Log = Log(clock: Clock, primed: bool, indices: seq<u64>, recorded: nat, anchorIndex: u64, anchorCount: nat)

  const EMPTY_LOG := Log(FRESH, false, [], 0, 0, 0)

  // Indices of the fill packets OBS gets: at most 25 of a gap.
  function FillIndices(index: u64, gap: nat): seq<u64> {
    seq<u64>(if gap < CONCEAL_MAX_PACKETS then gap else CONCEAL_MAX_PACKETS, k => UInt64(index - gap + k))
  }

  // How many packets are synthesised in front of a packet: none before the
  // first real one.
  function GapToFill(verdict: Verdict, primed: bool): nat {
    if verdict.Conceal? && primed then verdict.gap else 0
  }

  // The indices a packet that is not dropped adds.
  function Emits(verdict: Verdict, primed: bool): seq<u64>
    requires !verdict.Drop?
  {
    FillIndices(verdict.index, GapToFill(verdict, primed)) + [verdict.index]
  }

  function Deliver(log: Log, seqNum: u16, slot: u64): Log {
    var s := Advance(log.clock, seqNum, slot);
    if s.verdict.Drop? then log.(clock := s.clock)
    else
      log.(clock := s.clock, primed := true,
           indices := log.indices + Emits(s.verdict, log.primed),
           recorded := log.recorded + GapToFill(s.verdict, log.primed) + 1,
           anchorIndex := if s.verdict.Resync? then s.verdict.index else log.anchorIndex,
           anchorCount := if s.verdict.Resync? then log.recorded else log.anchorCount)
  }

  function Stamp(start: u64, interval: u64, index: u64): u64 {
    UInt64(start + index * interval)
  }

  // Submissions of the first |indices| of the packets.
  function Submissions(start: u64, interval: u64, indices: seq<u64>, pcm: seq<seq<byte>>): (r: seq<Submission>)
    requires |indices| <= |pcm|
    ensures |r| == |indices|
  {
    seq(|indices|, k requires 0 <= k < |indices| => Submission(Stamp(start, interval, indices[k]), pcm[k]))
  }

  lemma SubmissionsGrow(start: u64, interval: u64, indices: seq<u64>, pcm: seq<seq<byte>>, p: seq<byte>)
    requires |pcm| < |indices|
    ensures Submissions(start, interval, indices[..|pcm| + 1], pcm + [p]) ==
            Submissions(start, interval, indices[..|pcm|], pcm) +
            [Submission(Stamp(start, interval, indices[|pcm|]), p)]
  {
  }

  lemma SubmissionsEnd(start: u64, interval: u64, indices: seq<u64>, pcm: seq<seq<byte>>, p: seq<byte>)
    requires |indices| <= |pcm|
    ensures Submissions(start, interval, indices, pcm + [p]) == Submissions(start, interval, indices, pcm)
  {
  }

  // pcm are the first packets of a fill of n packets.
  ghost predicate AreFill(fill: Fill, n: nat, pcm: seq<seq<byte>>) {
    forall k :: 0 <= k < |pcm| ==> IsFillPacket(fill, k, n, pcm[k])
  }

  lemma AreFillGrow(fill: Fill, n: nat, pcm: seq<seq<byte>>, p: seq<byte>)
    requires AreFill(fill, n, pcm) && IsFillPacket(fill, |pcm|, n, p)
    ensures AreFill(fill, n, pcm + [p])
  {
  }

  // What OBS gets for a packet that is not dropped.
  function Emitted(start: u64, interval: u64, verdict: Verdict, fill: seq<seq<byte>>, samples: seq<byte>)
      : seq<Submission>
    requires !verdict.Drop?
  {
    Submissions(start, interval, FillIndices(verdict.index, |fill|), fill)
    + [Submission(Stamp(start, interval, verdict.index), samples)]
  }

  ghost predicate Stamped(start: u64, interval: u64, subs: seq<Submission>, indices: seq<u64>) {
    |subs| == |indices| &&
    forall i :: 0 <= i < |subs| ==> subs[i].timestamp == Stamp(start, interval, indices[i])
  }

  lemma EmittedIsStamped(start: u64, interval: u64, subs: seq<Submission>, indices: seq<u64>, verdict: Verdict,
                         primed: bool, fill: seq<seq<byte>>, samples: seq<byte>)
    requires Stamped(start, interval, subs, indices) && !verdict.Drop? && |fill| == GapToFill(verdict, primed)
    ensures Stamped(start, interval, subs + Emitted(start, interval, verdict, fill, samples),
                    indices + Emits(verdict, primed))
  {
  }

  datatype Arrival = Arrival(seqNum: u16, slot: u64)

  function LogAfter(arrivals: seq<Arrival>): Log {
    if arrivals == [] then EMPTY_LOG
    else
      var i := |arrivals| - 1;
      Deliver(LogAfter(arrivals[..i]), arrivals[i].seqNum, arrivals[i].slot)
  }

  ghost predicate Increasing(s: seq<u64>) {
    forall i, j :: 0 <= i < j < |s| ==> s[i] < s[j]
  }

  ghost predicate LogInv(log: Log) {
    && (log.clock.started <==> log.primed)
    && Increasing(log.indices)
    && (forall i :: 0 <= i < |log.indices| ==> log.clock.started && log.indices[i] <= log.clock.index)
    && log.anchorCount <= log.recorded
    && (log.clock.started ==> log.recorded - log.anchorCount == log.clock.index - log.anchorIndex + 1)
    && (!log.clock.started ==> log.recorded == 0 && log.anchorIndex == 0)
    && (log.clock.resyncs == 0 ==> log.anchorIndex == 0 && log.anchorCount == 0)
  }

  // The index leaves room for one more gap below 2^64.
  predicate Fits(c: Clock) {
    c.index + WAV_FILL_MAX_PACKETS + 1 < TWO_64
  }

  lemma DeliverKeepsInv(log: Log, seqNum: u16, slot: u64)
    requires LogInv(log) && Fits(log.clock)
    ensures LogInv(Deliver(log, seqNum, slot))
  {
    if log.clock.started {
      IndexGrows(log.clock, seqNum, slot);
    }
    var s := Advance(log.clock, seqNum, slot);
    if s.verdict.Conceal? {
      var fill := FillIndices(s.verdict.index, s.verdict.gap);
      forall k | 0 <= k < |fill|
        ensures fill[k] == log.clock.index + 1 + k
      {
        assert fill[k] == UInt64(s.verdict.index - s.verdict.gap + k);
      }
    }
  }

  // Over every run: the indices handed to OBS, real and concealed, strictly
  // increase, across resyncs too, and between resyncs the recorder gets exactly
  // as many packets as the index advances.
  lemma {:induction false} RunsDeliverInOrder(arrivals: seq<Arrival>)
    requires forall i :: 0 <= i < |arrivals| ==> Fits(LogAfter(arrivals[..i]).clock)
    ensures LogInv(LogAfter(arrivals))
  {
    if arrivals != [] {
      var i := |arrivals| - 1;
      forall j | 0 <= j < i
        ensures arrivals[..i][..j] == arrivals[..j]
      {
      }
      RunsDeliverInOrder(arrivals[..i]);
      DeliverKeepsInv(LogAfter(arrivals[..i]), arrivals[i].seqNum, arrivals[i].slot);
    }
  }

  lemma ProductsOrdered(a: nat, b: nat, interval: nat)
    requires a <= b
    ensures a * interval <= b * interval && (a < b && interval > 0 ==> a * interval < b * interval)
  {
    assert b * interval == a * interval + (b - a) * interval;
    if a < b && interval > 0 {
      MulMonotone(interval, 1, b - a);
    }
  }

  lemma NoWrap(x: nat)
    requires x < TWO_64
    ensures UInt64(x) == x
  {
  }

  lemma StampIs(start: u64, interval: u64, index: u64, product: nat)
    requires product == index * interval && start + product < TWO_64
    ensures Stamp(start, interval, index) == start + product
  {
    NoWrap(start + product);
  }

  lemma StampsIncrease(start: u64, interval: u64, a: u64, b: u64, top: u64)
    requires interval > 0 && a < b <= top && start + top * interval < TWO_64
    ensures Stamp(start, interval, a) < Stamp(start, interval, b)
  {
    ProductsOrdered(b, top, interval);
    ProductsOrdered(a, b, interval);
    StampIs(start, interval, a, a * interval);
    StampIs(start, interval, b, b * interval);
  }

  // With a fixed stream start and interval the timestamps increase too.
  lemma TimestampsStrictlyIncrease(arrivals: seq<Arrival>, start: u64, interval: u64, i: nat, j: nat)
    requires forall n :: 0 <= n < |arrivals| ==> Fits(LogAfter(arrivals[..n]).clock)
    requires interval > 0 && i < j < |LogAfter(arrivals).indices|
    requires start + LogAfter(arrivals).clock.index * interval < TWO_64
    ensures var indices := LogAfter(arrivals).indices;
            Stamp(start, interval, indices[i]) < Stamp(start, interval, indices[j])
  {
    RunsDeliverInOrder(arrivals);
    var log := LogAfter(arrivals);
    StampsIncrease(start, interval, log.indices[i], log.indices[j], log.clock.index);
  }

  // Without a resync the recording is exactly as long as the timeline.
  lemma RecordingMatchesTimeline(arrivals: seq<Arrival>)
    requires forall n :: 0 <= n < |arrivals| ==> Fits(LogAfter(arrivals[..n]).clock)
    requires LogAfter(arrivals).clock.started && LogAfter(arrivals).clock.resyncs == 0
    ensures LogAfter(arrivals).recorded == LogAfter(arrivals).clock.index + 1
  {
    RunsDeliverInOrder(arrivals);
  }

  // ------------------------------------------------------------ the processor

  class Processor {
    const timeline: Timeline
    const start: u64
    const interval: u64
    var lastLeft: i16
    var lastRight: i16
    var lastSampleSet: bool
    var submitted: seq<Submission>
    var recorded: seq<seq<byte>>
    ghost var log: Log

    ghost predicate Valid()
      reads this, timeline
    {
      && interval > 0
      && log.clock == timeline.State() && log.primed == lastSampleSet
      && log.recorded == |recorded|
      && Stamped(start, interval, submitted, log.indices)
    }

    constructor (start: u64, interval: u64)
      requires interval > 0
      ensures Valid() && fresh(timeline) && log == EMPTY_LOG && this.start == start && this.interval == interval
    {
      this.start, this.interval := start, interval;
      timeline := new Timeline();
      lastLeft, lastRight, lastSampleSet, submitted, recorded := 0, 0, false, [], [];
      log := EMPTY_LOG;
    }

    method Submit(pcm: seq<byte>, index: u64)
      modifies this`submitted
      ensures submitted == old(submitted) + [Submission(Stamp(start, interval, index), pcm)]
    {
      submitted := submitted + [Submission(Stamp(start, interval, index), pcm)];
    }

    // Fill packet k of a gap: to the recording, and to OBS if it has an index.
    method EmitFill(fill: Fill, k: nat, index: u64, gap: nat, out: array<byte>)
      requires out.Length == 768 && k < gap
      modifies this`submitted, this`recorded, out
      ensures IsFillPacket(fill, k, gap, out[..]) && recorded == old(recorded) + [out[..]]
      ensures submitted == old(submitted) +
        (if k < CONCEAL_MAX_PACKETS then [Submission(Stamp(start, interval, UInt64(index - gap + k)), out[..])] else [])
    {
      FillPacket(fill, k, gap, out);
      if k < CONCEAL_MAX_PACKETS {
        Submit(out[..], UInt64(index - gap + k));
      }
      recorded := recorded + [out[..]];
    }

    // Materialises a gap: the first 25 fill packets go to OBS, all go to the WAV.
    method ConcealGap(next: seq<byte>, index: u64, gap: nat) returns (ghost pcm: seq<seq<byte>>)
      requires |next| >= 768
      modifies this`submitted, this`recorded
      ensures |pcm| == if lastSampleSet then gap else 0
      ensures AreFill(Fill(lastLeft, lastRight, Decode(next, 0), Decode(next, 2)), gap, pcm)
      ensures recorded == old(recorded) + pcm
      ensures submitted ==
        old(submitted) + (if lastSampleSet then Submissions(start, interval, FillIndices(index, gap), pcm) else [])
    {
      pcm := [];
      if !lastSampleSet || gap == 0 {
        return;
      }
      var fill := Fill(lastLeft, lastRight, Decode(next, 0), Decode(next, 2));
      ghost var indices := FillIndices(index, gap);
      var out := new byte[768](_ => 0);
      for k := 0 to gap
        invariant |pcm| == k && recorded == old(recorded) + pcm
        invariant AreFill(fill, gap, pcm)
        invariant submitted == old(submitted) +
          Submissions(start, interval, indices[..if k < |indices| then k else |indices|], pcm)
      {
        EmitFill(fill, k, index, gap, out);
        AreFillGrow(fill, gap, pcm, out[..]);
        if k < |indices| {
          SubmissionsGrow(start, interval, indices, pcm, out[..]);
        } else {
          assert indices[..|indices|] == indices;
          SubmissionsEnd(start, interval, indices, pcm, out[..]);
        }
        pcm := pcm + [out[..]];
      }
      assert indices[..|indices|] == indices;
    }

    // Hands one packet on, after the fill of the gap before it.
    method PlayPacket(samples: seq<byte>, verdict: Verdict) returns (ghost fill: seq<seq<byte>>)
      requires |samples| >= 768 && !verdict.Drop?
      modifies this`submitted, this`recorded, this`lastLeft, this`lastRight, this`lastSampleSet
      ensures |fill| == GapToFill(verdict, old(lastSampleSet))
      ensures AreFill(Fill(old(lastLeft), old(lastRight), Decode(samples, 0), Decode(samples, 2)), |fill|, fill)
      ensures recorded == old(recorded) + fill + [samples]
      ensures submitted == old(submitted) + Emitted(start, interval, verdict, fill, samples)
      ensures lastSampleSet && lastLeft == Decode(samples, 764) && lastRight == Decode(samples, 766)
    {
      fill := [];
      if verdict.Conceal? {
        fill := ConcealGap(samples, verdict.index, verdict.gap);
      }
      Submit(samples, verdict.index);
      recorded := recorded + [samples];
      lastLeft, lastRight := Decode(samples, 191 * 4), Decode(samples, 191 * 4 + 2);
      lastSampleSet := true;
    }

    // A packet that is too short or late is neither submitted nor recorded. Any
    // other is, byte for byte, after a fill that starts from the frame played last.
    method Process(packet: seq<byte>, now: u64) returns (ghost fill: seq<seq<byte>>)
      requires Valid()
      modifies this, timeline
      ensures Valid()
      ensures |packet| < 770 ==> log == old(log)
      ensures |packet| >= 770 ==> log == Deliver(old(log), ReadLE16(packet, 0), Slot(now))
      ensures |packet| < 770 || Advance(old(log.clock), ReadLE16(packet, 0), Slot(now)).verdict.Drop? ==>
        unchanged(this`submitted, this`recorded, this`lastLeft, this`lastRight)
      ensures |packet| >= 770 ==>
        var verdict := Advance(old(log.clock), ReadLE16(packet, 0), Slot(now)).verdict;
        !verdict.Drop? ==>
          && |fill| == GapToFill(verdict, old(lastSampleSet))
          && AreFill(Fill(old(lastLeft), old(lastRight), Decode(packet[2..], 0), Decode(packet[2..], 2)), |fill|, fill)
          && recorded == old(recorded) + fill + [packet[2..]]
          && submitted == old(submitted) + Emitted(start, interval, verdict, fill, packet[2..])
    {
      fill := [];
      if |packet| < 2 {
        return;
      }
      var samples := packet[2..];
      if |samples| < 768 {
        return;
      }
      var seqNum := ReadLE16(packet, 0);
      var verdict := timeline.AdvanceTo(seqNum, Slot(now));
      ghost var before := log;
      log := Deliver(before, seqNum, Slot(now));
      if verdict.Drop? {
        return;
      }
      fill := PlayPacket(samples, verdict);
      EmittedIsStamped(start, interval, old(submitted), before.indices, verdict, before.primed, fill, samples);
    }

    // The packet slot the wall clock has reached.
    function Slot(now: u64): u64
      requires interval > 0
    {
      if now > start then (now - start) / interval else 0
    }
  }
}
