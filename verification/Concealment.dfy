// The fill synthesised for a gap in the audio stream: conceal_held_value and
// c64_audio_conceal_fill_packet of src/audio/c64-audio-timeline.c.
module Concealment {
  import opened Words

  const CONCEAL_MAX_PACKETS: nat := 25
  const FRAMES_PER_PACKET: nat := 192
  const FADE_SAMPLES: nat := CONCEAL_MAX_PACKETS * FRAMES_PER_PACKET
  const RAMP_SAMPLES: nat := 128
  // The step size the click detector reports.
  const CLICK_LIMIT: int := 600

  // The last frame before the gap and the first frame after it.
  datatype Fill = Fill(lastLeft: i16, lastRight: i16, nextLeft: i16, nextRight: i16)

  function Held(last: i16, s: nat): int {
    if s >= FADE_SAMPLES then 0 else TruncDiv(last * (FADE_SAMPLES - s), FADE_SAMPLES)
  }

  // One channel at frame s of a fill of n packets.
  function Sample(last: i16, next: i16, n: nat, s: nat): int {
    var total := n * FRAMES_PER_PACKET;
    var rampLen := if total < RAMP_SAMPLES then total else RAMP_SAMPLES;
    var rampStart := total - rampLen;
    var held := Held(last, s);
    if s >= rampStart && rampLen > 0 then held + TruncDiv((next - held) * (s - rampStart + 1), rampLen) else held
  }

  // --------------------------------------------------------------- arithmetic

  lemma ScaledBetween(x: int, num: int, den: int)
    requires 0 <= num <= den && den > 0
    ensures x >= 0 ==> 0 <= x * num <= x * den
    ensures x <= 0 ==> x * den <= x * num <= 0
  {
    if x >= 0 {
      MulMonotone(x, num, den);
    } else {
      MulMonotone(-x, num, den);
    }
  }

  lemma MulMonotone(x: int, a: int, b: int)
    requires x >= 0 && 0 <= a <= b
    ensures 0 <= x * a <= x * b
  {
    assert x * b - x * a == x * (b - a);
  }

  lemma DivBetween(a: int, x: int, m: int)
    requires m > 0 && ((x >= 0 && 0 <= a <= x * m) || (x <= 0 && x * m <= a <= 0))
    ensures 0 <= TruncDiv(a, m) <= x || x <= TruncDiv(a, m) <= 0
  {
    if a > 0 && x >= 0 {
      DivUpper(a, x, m);
    } else if a < 0 && x <= 0 {
      DivUpper(-a, -x, m);
    }
  }

  lemma DivUpper(a: nat, x: nat, m: int)
    requires m > 0 && a <= x * m
    ensures 0 <= a / m <= x
  {
    var q := a / m;
    if q > x {
      MulMonotone(m, x + 1, q);
      assert false;
    }
  }

  // A quotient by m moves by at most one more than a step of the dividend over m.
  lemma QuotientStep(a: int, b: int, bound: nat)
    requires -(RAMP_SAMPLES * bound) <= a - b <= RAMP_SAMPLES * bound
    ensures -(bound + 1) <= TruncDiv(a, RAMP_SAMPLES) - TruncDiv(b, RAMP_SAMPLES) <= bound + 1
  {
  }

  // ------------------------------------------------------------ the held value

  lemma HeldBetween(last: i16, s: nat)
    ensures 0 <= Held(last, s) <= last || last <= Held(last, s) <= 0
  {
    if s < FADE_SAMPLES {
      ScaledBetween(last, FADE_SAMPLES - s, FADE_SAMPLES);
      DivBetween(last * (FADE_SAMPLES - s), last, FADE_SAMPLES);
    }
  }

  lemma HeldStep(last: i16, s: nat)
    ensures -8 <= Held(last, s + 1) - Held(last, s) <= 8
  {
    if s < FADE_SAMPLES {
      var a := last * (FADE_SAMPLES - s);
      assert last * (FADE_SAMPLES - (s + 1)) == a - last;
    }
  }

  // ----------------------------------------------------------------- the ramp

  // The crossfade stays between the held value and the next real sample.
  lemma RampBetween(held: int, next: int, pos: nat)
    requires 1 <= pos <= RAMP_SAMPLES
    ensures var v := held + TruncDiv((next - held) * pos, RAMP_SAMPLES);
            (held <= v <= next || next <= v <= held) && (pos == RAMP_SAMPLES ==> v == next)
  {
    ScaledBetween(next - held, pos, RAMP_SAMPLES);
    DivBetween((next - held) * pos, next - held, RAMP_SAMPLES);
  }

  lemma RampStep(held: i16, held': i16, next: i16, pos: nat)
    requires 0 <= pos < RAMP_SAMPLES && -8 <= held' - held <= 8
    ensures var v := held + TruncDiv((next - held) * pos, RAMP_SAMPLES);
            var v' := held' + TruncDiv((next - held') * (pos + 1), RAMP_SAMPLES);
            -CLICK_LIMIT < v' - v < CLICK_LIMIT
  {
    var a, b := (next - held') * (pos + 1), (next - held) * pos;
    assert a - b == (next - held') - (held' - held) * pos;
    ScaledBetween(held' - held, pos, RAMP_SAMPLES);
    QuotientStep(a, b, 520);
  }

  // ------------------------------------------------------------------ theorems

  // For all endpoints and every gap length, the fill of n >= 1 packets starts
  // at the last real sample, ends at the next one, never leaves the int16 range
  // and never steps by the click limit or more.
  lemma FillStartsAndEndsExactly(last: i16, next: i16, n: nat)
    requires n >= 1
    ensures Sample(last, next, n, 0) == last
    ensures Sample(last, next, n, n * FRAMES_PER_PACKET - 1) == next
  {
    assert last * FADE_SAMPLES == last * (FADE_SAMPLES - 0);
    RampBetween(Held(last, n * FRAMES_PER_PACKET - 1), next, RAMP_SAMPLES);
  }

  lemma FillStaysInRange(last: i16, next: i16, n: nat, s: nat)
    requires s < n * FRAMES_PER_PACKET
    ensures -0x8000 <= Sample(last, next, n, s) < 0x8000
  {
    HeldBetween(last, s);
    var rampStart := n * FRAMES_PER_PACKET - RAMP_SAMPLES;
    if s >= rampStart {
      RampBetween(Held(last, s), next, s - rampStart + 1);
    }
  }

  // The two cases of a sample: before the ramp, and on it.
  lemma SampleHeld(last: i16, next: i16, n: nat, s: nat)
    requires s < n * FRAMES_PER_PACKET - RAMP_SAMPLES
    ensures Sample(last, next, n, s) == Held(last, s)
  {
  }

  lemma SampleRamped(last: i16, next: i16, n: nat, s: nat, pos: nat)
    requires n >= 1 && s == n * FRAMES_PER_PACKET - RAMP_SAMPLES + pos
    ensures Sample(last, next, n, s) ==
            Held(last, s) + TruncDiv((next - Held(last, s)) * (pos + 1), RAMP_SAMPLES)
  {
  }

  lemma FillHasNoClick(last: i16, next: i16, n: nat, s: nat)
    requires s + 1 < n * FRAMES_PER_PACKET
    ensures -CLICK_LIMIT < Sample(last, next, n, s + 1) - Sample(last, next, n, s) < CLICK_LIMIT
  {
    var rampStart := n * FRAMES_PER_PACKET - RAMP_SAMPLES;
    HeldBetween(last, s);
    HeldBetween(last, s + 1);
    HeldStep(last, s);
    if s + 1 < rampStart {
      SampleHeld(last, next, n, s);
      SampleHeld(last, next, n, s + 1);
    } else {
      RampStep(Held(last, s), Held(last, s + 1), next, s + 1 - rampStart);
      SampleRamped(last, next, n, s + 1, s + 1 - rampStart);
      if s >= rampStart {
        SampleRamped(last, next, n, s, s - rampStart);
      } else {
        SampleHeld(last, next, n, s);
      }
    }
  }

  // ----------------------------------------------------------------- the bytes

  function Decode(bytes: seq<byte>, at: nat): i16
    requires at + 1 < |bytes|
  {
    Int16(ReadLE16(bytes, at))
  }

  // The two bytes the fill writes for a sample.
  function LowByte(v: int): byte {
    UInt16(Int16(v)) % TWO_8
  }

  function HighByte(v: int): byte {
    UInt16(Int16(v)) / TWO_8
  }

  lemma BytesRoundTrip(v: i16)
    ensures Int16(LowByte(v) + TWO_8 * HighByte(v)) == v
  {
  }

  // Packet k of a fill of n packets holds frames k*192 .. k*192+191 of the signal.
  ghost predicate IsFillPacket(fill: Fill, k: nat, n: nat, out: seq<byte>) {
    |out| == 768 &&
    forall i :: 0 <= i < FRAMES_PER_PACKET ==>
      && Decode(out, i * 4) == Sample(fill.lastLeft, fill.nextLeft, n, k * FRAMES_PER_PACKET + i)
      && Decode(out, i * 4 + 2) == Sample(fill.lastRight, fill.nextRight, n, k * FRAMES_PER_PACKET + i)
  }

  // The packets of a fill in sequence.
  ghost function Joined(packets: seq<seq<byte>>): seq<byte> {
    if packets == [] then [] else Joined(packets[..|packets| - 1]) + packets[|packets| - 1]
  }

  lemma DecodeJoined(a: seq<byte>, b: seq<byte>, at: nat)
    requires at + 1 < |a| + |b| && at + 1 != |a|
    ensures Decode(a + b, at) == if at < |a| then Decode(a, at) else Decode(b, at - |a|)
  {
  }

  lemma FillPacketAt(fill: Fill, k: nat, n: nat, out: seq<byte>, i: nat)
    requires IsFillPacket(fill, k, n, out) && i < FRAMES_PER_PACKET
    ensures Decode(out, i * 4) == Sample(fill.lastLeft, fill.nextLeft, n, k * FRAMES_PER_PACKET + i)
    ensures Decode(out, i * 4 + 2) == Sample(fill.lastRight, fill.nextRight, n, k * FRAMES_PER_PACKET + i)
  {
  }

  // The n packets together are one signal of n * 192 frames per channel.
  lemma {:induction false} PacketsFormOneSignal(fill: Fill, n: nat, packets: seq<seq<byte>>, s: nat)
    requires |packets| <= n && s < |packets| * FRAMES_PER_PACKET
    requires forall k :: 0 <= k < |packets| ==> IsFillPacket(fill, k, n, packets[k])
    ensures |Joined(packets)| == |packets| * 768
    ensures Decode(Joined(packets), s * 4) == Sample(fill.lastLeft, fill.nextLeft, n, s)
    ensures Decode(Joined(packets), s * 4 + 2) == Sample(fill.lastRight, fill.nextRight, n, s)
    decreases |packets|
  {
    var k := |packets| - 1;
    var rest := Joined(packets[..k]);
    JoinedLength(packets[..k]);
    assert IsFillPacket(fill, k, n, packets[k]);
    if s < k * FRAMES_PER_PACKET {
      PacketsFormOneSignal(fill, n, packets[..k], s);
      DecodeJoined(rest, packets[k], s * 4);
      DecodeJoined(rest, packets[k], s * 4 + 2);
    } else {
      var i := s - k * FRAMES_PER_PACKET;
      DecodeJoined(rest, packets[k], s * 4);
      DecodeJoined(rest, packets[k], s * 4 + 2);
      FillPacketAt(fill, k, n, packets[k], i);
    }
  }

  lemma {:induction false} JoinedLength(packets: seq<seq<byte>>)
    requires forall k :: 0 <= k < |packets| ==> |packets[k]| == 768
    ensures |Joined(packets)| == |packets| * 768
    decreases |packets|
  {
    if packets != [] {
      JoinedLength(packets[..|packets| - 1]);
    }
  }

  // Frame i of a packet: two little-endian samples. The rest stays as it is.
  method WriteFrame(out: array<byte>, i: nat, left: i16, right: i16)
    requires out.Length == 768 && i < FRAMES_PER_PACKET
    modifies out
    ensures Decode(out[..], i * 4) == left && Decode(out[..], i * 4 + 2) == right
    ensures forall j :: 0 <= j < 768 && !(i * 4 <= j < i * 4 + 4) ==> out[j] == old(out[j])
  {
    BytesRoundTrip(left);
    BytesRoundTrip(right);
    out[i * 4], out[i * 4 + 1] := LowByte(left), HighByte(left);
    out[i * 4 + 2], out[i * 4 + 3] := LowByte(right), HighByte(right);
  }

  method FillPacket(fill: Fill, k: nat, n: nat, out: array<byte>)
    requires out.Length == 768
    modifies out
    ensures k < n ==> IsFillPacket(fill, k, n, out[..])
    ensures k >= n ==> out[..] == seq(768, _ => 0)
  {
    if k >= n {
      for i := 0 to 768
        invariant forall j :: 0 <= j < i ==> out[j] == 0
      {
        out[i] := 0;
      }
      return;
    }
    for i := 0 to FRAMES_PER_PACKET
      invariant forall j :: 0 <= j < i ==>
        && Decode(out[..], j * 4) == Sample(fill.lastLeft, fill.nextLeft, n, k * FRAMES_PER_PACKET + j)
        && Decode(out[..], j * 4 + 2) == Sample(fill.lastRight, fill.nextRight, n, k * FRAMES_PER_PACKET + j)
    {
      var s := k * FRAMES_PER_PACKET + i;
      var left := Sample(fill.lastLeft, fill.nextLeft, n, s);
      var right := Sample(fill.lastRight, fill.nextRight, n, s);
      FillStaysInRange(fill.lastLeft, fill.nextLeft, n, s);
      FillStaysInRange(fill.lastRight, fill.nextRight, n, s);
      WriteFrame(out, i, left, right);
    }
  }
}
