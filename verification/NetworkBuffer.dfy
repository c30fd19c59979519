// The public operations of src/network/c64-network-buffer.c on the pair of rings.
module NetworkBuffer {
  import opened Words
  import opened Options
  import opened ReorderRing

  // What a ring hands out at time `now`.
  function PopOf(a: seq<Packet>, now: u64, delay: nat): Option<Packet> {
    if |a| > 0 && Ready(a[0], now, delay) then Some(a[0]) else None
  }

  function RestOf(a: seq<Packet>, now: u64, delay: nat): seq<Packet> {
    if PopOf(a, now, delay).Some? then a[1..] else a
  }

  // The timestamp reported for a pop of either or both streams.
  function PopTimestamp(v: Option<Packet>, a: Option<Packet>): u64 {
    match (v, a)
    case (Some(x), Some(y)) => if y.timestamp < x.timestamp then y.timestamp else x.timestamp
    case (None, Some(y)) => y.timestamp
    case (Some(x), None) => x.timestamp
    case (None, None) => 0
  }

  class Buffer {
    const video: Ring
    const audio: Ring

    ghost predicate Valid()
      reads this, video, audio, video.slots, video.store, audio.slots, audio.store
    {
      && video.kind == Video && audio.kind == Audio
      && video != audio && video.slots != audio.slots && video.store != audio.store
      && video.Valid() && audio.Valid()
    }

    constructor ()
      ensures Valid() && fresh(video) && fresh(audio)
      ensures fresh(video.slots) && fresh(video.store) && fresh(audio.slots) && fresh(audio.store)
      ensures video.Contents() == [] && audio.Contents() == []
    {
      video := new Ring(Video);
      audio := new Ring(Audio);
    }

    // Network timestamps are nanoseconds; the rings keep microseconds.
    method PushVideo(data: seq<byte>, timestampNs: u64)
      requires Valid()
      modifies video`head, video.slots, video.store
      ensures Valid() && audio.Contents() == old(audio.Contents())
      ensures video.Contents() == Pushed(Video, old(video.Contents()), data, timestampNs / 1000)
    {
      video.Push(data, timestampNs / 1000);
    }

    method PushAudio(data: seq<byte>, timestampNs: u64)
      requires Valid()
      modifies audio`head, audio.slots, audio.store
      ensures Valid() && video.Contents() == old(video.Contents())
      ensures audio.Contents() == Pushed(Audio, old(audio.Contents()), data, timestampNs / 1000)
    {
      audio.Push(data, timestampNs / 1000);
    }

    // The two streams are delivered independently: neither waits for the other,
    // and each ring reads the clock for itself.
    method Pop(videoNow: u64, audioNow: u64) returns (v: Option<Packet>, a: Option<Packet>, timestamp: u64)
      requires Valid()
      modifies video`tail, video`scratch, video.slots, audio`tail, audio`scratch, audio.slots
      ensures Valid()
      ensures v == PopOf(old(video.Contents()), videoNow, old(video.delayUs))
      ensures a == PopOf(old(audio.Contents()), audioNow, old(audio.delayUs))
      ensures video.Contents() == RestOf(old(video.Contents()), videoNow, old(video.delayUs))
      ensures audio.Contents() == RestOf(old(audio.Contents()), audioNow, old(audio.delayUs))
      ensures timestamp == PopTimestamp(v, a)
    {
      var gotVideo := video.Pop(videoNow);
      var gotAudio := audio.Pop(audioNow);
      v := if gotVideo then Some(video.scratch) else None;
      a := if gotAudio then Some(audio.scratch) else None;
      timestamp := PopTimestamp(v, a);
    }

    method SetDelay(videoMs: nat, audioMs: nat, videoNow: u64, audioNow: u64)
      requires Valid()
      modifies video`head, video`tail, video`activeSlots, video`delayUs, video.slots, video.store
      modifies audio`head, audio`tail, audio`activeSlots, audio`delayUs, audio.slots, audio.store
      ensures Valid()
      ensures video.Contents() ==
        Redelayed(Video, old(video.Contents()), old(video.delayUs), Clamped(videoMs), videoNow)
      ensures audio.Contents() ==
        Redelayed(Audio, old(audio.Contents()), old(audio.delayUs), Clamped(audioMs), audioNow)
      ensures video.delayUs == Clamped(videoMs) * 1000 && audio.delayUs == Clamped(audioMs) * 1000
      ensures video.activeSlots == ActiveAfter(old(video.activeSlots), old(video.delayUs), Clamped(videoMs))
      ensures audio.activeSlots == ActiveAfter(old(audio.activeSlots), old(audio.delayUs), Clamped(audioMs))
    {
      video.SetDelay(videoMs, videoNow);
      audio.SetDelay(audioMs, audioNow);
    }

    method Flush()
      requires Valid()
      modifies video`head, video`tail, video`activeSlots, video.slots
      modifies audio`head, audio`tail, audio`activeSlots, audio.slots
      ensures Valid() && video.Contents() == [] && audio.Contents() == []
      ensures unchanged(video`activeSlots) && unchanged(audio`activeSlots)
    {
      video.Reset(video.activeSlots);
      audio.Reset(audio.activeSlots);
    }
  }
}
