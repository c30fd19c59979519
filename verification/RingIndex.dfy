// Index arithmetic of the circular buffers: `tail` is the oldest entry, `head`
// the free one after the newest, and one entry always stays free.
module RingIndex {
  // Physical index of the i-th position from the tail, and the way back.
  function Pos(cap: nat, tail: nat, i: nat): nat {
    if tail + i < cap then tail + i else tail + i - cap
  }

  lemma NextPos(cap: nat, p: nat)
    requires p < cap
    ensures (p + 1) % cap == Pos(cap, p, 1)
  {
  }

  // One step towards the tail, as the loops compute it.
  lemma PrevPos(cap: nat, tail: nat, i: nat)
    requires tail < cap && 1 <= i < cap
    ensures var p := Pos(cap, tail, i); Pos(cap, tail, i - 1) == if p == 0 then cap - 1 else p - 1
    ensures Pos(cap, tail, i) != Pos(cap, tail, i - 1) && (Pos(cap, tail, i - 1) == tail <==> i == 1)
  {
  }

  function Offset(cap: nat, tail: nat, p: nat): nat
    requires tail <= cap
  {
    if p >= tail then p - tail else p + cap - tail
  }

  function Count(cap: nat, tail: nat, head: nat): nat
    requires tail <= cap
  {
    if head >= tail then head - tail else cap - tail + head
  }

  lemma CountGrows(cap: nat, tail: nat, head: nat)
    requires tail < cap && head < cap && Count(cap, tail, head) + 1 < cap
    ensures Count(cap, tail, Pos(cap, head, 1)) == Count(cap, tail, head) + 1
    ensures head == Pos(cap, tail, Count(cap, tail, head))
  {
  }

  lemma CountShrinks(cap: nat, tail: nat, head: nat)
    requires tail < cap && head < cap && tail != head
    ensures Count(cap, Pos(cap, tail, 1), head) == Count(cap, tail, head) - 1
  {
  }
}
