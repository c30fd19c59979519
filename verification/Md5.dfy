// The streaming MD5 of src/automation/c64-automation-hvsc.c. The compression
// function is a parameter: everything here holds for any of them.
module Md5 {
  import opened Words

  datatype Chain = Chain(a: u32, b: u32, c: u32, d: u32)

  type Compression = (Chain, seq<byte>) -> Chain

  // Section 3.3 of RFC 1321.
  const INIT := Chain(0x67452301, 0xefcdab89, 0x98badcfe, 0x10325476)

  // ------------------------------------------------------ the whole-message form

  // The compression function folded over the 64-byte blocks of m.
  ghost function Fold(compress: Compression, m: seq<byte>): Chain
    requires |m| % 64 == 0
  {
    if m == [] then INIT else compress(Fold(compress, m[..|m| - 64]), m[|m| - 64..])
  }

  function BytePower(i: nat): (p: nat)
    ensures p > 0
  {
    if i == 0 then 1 else TWO_8 * BytePower(i - 1)
  }

  // The first n bytes of a number, least significant first.
  function LittleEndian(x: nat, n: nat): (r: seq<byte>)
    ensures |r| == n
  {
    seq(n, i requires 0 <= i < n => (x / BytePower(i)) % TWO_8)
  }

  function Zeros(n: nat): (r: seq<byte>)
    ensures |r| == n
  {
    seq(n, _ => 0)
  }

  // Sections 3.1 and 3.2 of RFC 1321: one bit, zeros up to 56 modulo 64 bytes,
  // and the low 64 bits of the length in bits.
  function Pad(m: seq<byte>): seq<byte> {
    m + [0x80] + Zeros((55 - |m|) % 64) + LittleEndian(UInt64(8 * |m|), 8)
  }

  function DigestOf(s: Chain): seq<byte> {
    LittleEndian(s.a, 4) + LittleEndian(s.b, 4) + LittleEndian(s.c, 4) + LittleEndian(s.d, 4)
  }

  lemma PadFillsBlocks(m: seq<byte>)
    ensures |Pad(m)| % 64 == 0 && |m| + 9 <= |Pad(m)| < |m| + 9 + 64
  {
    PaddedLength(|m|);
    assert |Pad(m)| == |m| + 9 + (55 - |m|) % 64;
  }

  lemma PaddedLength(n: nat)
    ensures (n + 9 + (55 - n) % 64) % 64 == 0
  {
    PadGap(n);
    var q, r := n / 64, n % 64;
    assert n == 64 * q + r;
    RemainderIs(n + 9 + (55 - n) % 64, if r <= 55 then q + 1 else q + 2, 0);
  }

  // The zeros that bring a message to 56 modulo 64 bytes.
  lemma PadGap(n: nat)
    ensures (55 - n) % 64 == if n % 64 <= 55 then 55 - n % 64 else 119 - n % 64
  {
    var q, r := n / 64, n % 64;
    assert n == 64 * q + r;
    if r <= 55 {
      RemainderIs(55 - n, -q, 55 - r);
    } else {
      RemainderIs(55 - n, -q - 1, 119 - r);
    }
  }

  lemma RemainderIs(a: int, q: int, r: nat)
    requires a == 64 * q + r && r < 64
    ensures a % 64 == r
  {
  }

  ghost function Digest(compress: Compression, m: seq<byte>): seq<byte> {
    PadFillsBlocks(m);
    DigestOf(Fold(compress, Pad(m)))
  }

  // ------------------------------------------------------------------- buffering

  // The whole 64-byte blocks of a message, and what is left after them.
  function Whole(m: seq<byte>): (r: seq<byte>)
    ensures |r| % 64 == 0
  {
    m[..64 * (|m| / 64)]
  }

  function Remainder(m: seq<byte>): (r: seq<byte>)
    ensures |r| == |m| % 64
  {
    m[64 * (|m| / 64)..]
  }

  lemma SixtyFourth(n: nat, k: int)
    ensures (n - 64 * k) % 64 == n % 64
  {
    var r := n / 64;
    assert n == 64 * r + n % 64;
    assert n - 64 * k == 64 * (r - k) + n % 64;
  }

  // The buffer index survives the wrap of the 64-bit bit counter.
  lemma CountGivesIndex(n: nat)
    ensures UInt64(8 * n) / 8 % 64 == n % 64
  {
    var q := 8 * n / TWO_64;
    var low := UInt64(8 * n);
    assert 8 * n == q * TWO_64 + low;
    assert low == 8 * (n - q * 0x2000_0000_0000_0000);
    SixtyFourth(n, q * 0x80_0000_0000_0000);
  }

  lemma CountAdds(n: nat, k: nat)
    ensures UInt64(UInt64(8 * n) + UInt64(8 * k)) == UInt64(8 * (n + k))
  {
    var p, q := 8 * n / TWO_64, 8 * k / TWO_64;
    var x, y := UInt64(8 * n), UInt64(8 * k);
    assert 8 * n == TWO_64 * p + x && 8 * k == TWO_64 * q + y;
    if x + y < TWO_64 {
      WordIs(x + y, 0, x + y);
      WordIs(8 * (n + k), p + q, x + y);
    } else {
      WordIs(x + y, 1, x + y - TWO_64);
      WordIs(8 * (n + k), p + q + 1, x + y - TWO_64);
    }
  }

  lemma WordIs(a: int, q: int, r: u64)
    requires a == TWO_64 * q + r
    ensures UInt64(a) == r
  {
  }

  lemma FoldExtends(compress: Compression, m: seq<byte>, block: seq<byte>)
    requires |m| % 64 == 0 && |block| == 64
    ensures |m + block| % 64 == 0 && Fold(compress, m + block) == compress(Fold(compress, m), block)
  {
    assert (m + block)[..|m|] == m;
    assert (m + block)[|m|..] == block;
  }

  // Where a message splits into whole blocks and remainder.
  lemma SplitAt(m: seq<byte>, p: nat)
    requires p % 64 == 0 && p <= |m| < p + 64
    ensures Whole(m) == m[..p] && Remainder(m) == m[p..] && |m| % 64 == |m| - p
  {
  }

  class Context {
    const compress: Compression
    const buffer: array<byte>
    var state: Chain
    var count: u64
    // Everything hashed so far.
    ghost var message: seq<byte>

    ghost predicate Valid()
      reads this, buffer
    {
      && buffer.Length == 64
      && count == UInt64(8 * |message|)
      && state == Fold(compress, Whole(message))
      && buffer[..|message| % 64] == Remainder(message)
    }

    constructor (compress: Compression)
      ensures Valid() && message == [] && fresh(buffer) && this.compress == compress
    {
      this.compress := compress;
      buffer := new byte[64](_ => 0);
      count, state, message := 0, INIT, [];
    }

    // memcpy(&buffer[at], src, |src|)
    method CopyIn(at: nat, src: seq<byte>)
      requires at + |src| <= buffer.Length
      modifies buffer
      ensures buffer[..] == old(buffer[..at]) + src + old(buffer[at + |src|..])
      ensures buffer[..at + |src|] == old(buffer[..at]) + src
    {
      for j := 0 to |src|
        invariant forall k :: 0 <= k < buffer.Length ==>
          buffer[k] == if at <= k < at + j then src[k - at] else old(buffer[k])
      {
        buffer[at + j] := src[j];
      }
    }

    // The block loop of update: compresses input from offset `from` while 64
    // bytes are left.
    method AbsorbBlocks(input: seq<byte>, from: nat, ghost prefix: seq<byte>) returns (i: nat, ghost blocks: nat)
      requires from <= |input| && |prefix| % 64 == 0 && state == Fold(compress, prefix)
      modifies this`state
      ensures i == from + 64 * blocks <= |input| < i + 64
      ensures |prefix + input[from..i]| % 64 == 0 && state == Fold(compress, prefix + input[from..i])
    {
      i, blocks := from, 0;
      ghost var done := prefix;
      while i + 63 < |input|
        invariant i == from + 64 * blocks <= |input|
        invariant |done| == |prefix| + (i - from)
        invariant done == prefix + input[from..i] && |done| % 64 == 0 && state == Fold(compress, done)
      {
        var block := input[i..i + 64];
        FoldExtends(compress, done, block);
        state := compress(state, block);
        done, i, blocks := done + block, i + 64, blocks + 1;
      }
    }

    // The part of update that completes the buffered block and goes on to the
    // blocks of the input. What is left starts at offset i.
    method CompleteBlock(input: seq<byte>, index: nat) returns (i: nat)
      requires buffer.Length == 64 && index == |message| % 64 && index + |input| >= 64
      requires state == Fold(compress, Whole(message)) && buffer[..index] == Remainder(message)
      modifies this`state, buffer
      ensures i <= |input| < i + 64 && input[i..] == Remainder(message + input)
      ensures state == Fold(compress, Whole(message + input))
    {
      var partLen := 64 - index;
      CopyIn(index, input[..partLen]);
      ghost var block := Remainder(message) + input[..partLen];
      assert buffer[..] == block;
      FoldExtends(compress, Whole(message), block);
      state := compress(state, buffer[..]);
      ghost var blocks;
      i, blocks := AbsorbBlocks(input, partLen, Whole(message) + block);
      FullSplit(message, input, partLen, i, blocks);
    }

    // Counts the bits of the input. The result is where the buffer was filled to.
    method CountInput(input: seq<byte>) returns (index: nat)
      requires Valid()
      modifies this`count
      ensures index == |message| % 64 && count == UInt64(8 * |message + input|)
    {
      CountGivesIndex(|message|);
      CountAdds(|message|, |input|);
      index := count / 8 % 64;
      count := UInt64(count + UInt64(8 * |input|));
    }

    method Update(input: seq<byte>)
      requires Valid()
      modifies this, buffer
      ensures Valid() && message == old(message) + input
    {
      var index := CountInput(input);
      var i := 0;
      if |input| >= 64 - index {
        i := CompleteBlock(input, index);
        index := 0;
      } else {
        ShortSplit(message, input);
      }
      BufferRemainder(input, index, i);
    }

    // The last part of update: what is left of the input goes into the buffer.
    method BufferRemainder(input: seq<byte>, index: nat, i: nat)
      requires buffer.Length == 64 && i <= |input| && index <= 64
      requires count == UInt64(8 * |message + input|) && state == Fold(compress, Whole(message + input))
      requires buffer[..index] + input[i..] == Remainder(message + input)
      modifies this`message, buffer
      ensures Valid() && message == old(message) + input
    {
      assert |input[i..]| + index == |message + input| % 64;
      CopyIn(index, input[i..]);
      message := message + input;
    }

    // Pads what was hashed and returns the digest of all of it.
    method Final() returns (digest: seq<byte>)
      requires Valid()
      modifies this, buffer
      ensures digest == Digest(compress, old(message))
    {
      ghost var m := message;
      var bits := LittleEndian(count, 8);
      CountGivesIndex(|message|);
      var index := count / 8 % 64;
      var padLen := if index < 56 then 56 - index else 120 - index;
      Update([0x80] + Zeros(padLen - 1));
      Update(bits);
      PadBuilt(m, padLen);
      WholeOfPad(m);
      digest := DigestOf(state);
    }
  }

  // The padding `final` appends is that of RFC 1321.
  lemma PadBuilt(m: seq<byte>, padLen: nat)
    requires padLen == if |m| % 64 < 56 then 56 - |m| % 64 else 120 - |m| % 64
    ensures m + ([0x80] + Zeros(padLen - 1)) + LittleEndian(UInt64(8 * |m|), 8) == Pad(m)
  {
    assert padLen - 1 == (55 - |m|) % 64;
  }

  lemma WholeOfPad(m: seq<byte>)
    ensures |Pad(m)| % 64 == 0 && Whole(Pad(m)) == Pad(m)
  {
    PadFillsBlocks(m);
  }

  // The message after an update that completed no block.
  lemma ShortSplit(message: seq<byte>, input: seq<byte>)
    requires |message| % 64 + |input| < 64
    ensures Whole(message + input) == Whole(message)
    ensures Remainder(message + input) == Remainder(message) + input
    ensures |message + input| % 64 == |message| % 64 + |input|
  {
    SplitAt(message + input, 64 * (|message| / 64));
  }

  // The message after an update that completed a block, split where the block
  // loop stopped.
  lemma FullSplit(message: seq<byte>, input: seq<byte>, partLen: nat, i: nat, blocks: nat)
    requires partLen == 64 - |message| % 64 && partLen <= i == partLen + 64 * blocks <= |input| < i + 64
    ensures Whole(message + input) == Whole(message) + (Remainder(message) + input[..partLen]) + input[partLen..i]
    ensures Remainder(message + input) == input[i..] && |message + input| % 64 == |input| - i
  {
    SplitAt(message + input, |message| + i);
  }

  // ---------------------------------------------------------------- whole files

  function Concat(chunks: seq<seq<byte>>): seq<byte> {
    if chunks == [] then [] else Concat(chunks[..|chunks| - 1]) + chunks[|chunks| - 1]
  }

  // The read loop: however the file arrives in chunks, the digest is that of
  // the whole file.
  method HashFile(compress: Compression, chunks: seq<seq<byte>>) returns (digest: seq<byte>)
    ensures digest == Digest(compress, Concat(chunks))
  {
    var context := new Context(compress);
    for i := 0 to |chunks|
      invariant context.Valid() && fresh(context) && fresh(context.buffer) && context.compress == compress
      invariant context.message == Concat(chunks[..i])
    {
      context.Update(chunks[i]);
      assert chunks[..i + 1][..i] == chunks[..i];
    }
    assert chunks[..|chunks|] == chunks;
    digest := context.Final();
  }
}
