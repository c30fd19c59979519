// Machine integers of the C sources, as ranges of the mathematical integers,
// and the operations on them that differ from Dafny's.
module Words {
  const TWO_8 := 0x100
  const TWO_16 := 0x1_0000
  const TWO_32 := 0x1_0000_0000
  const TWO_64 := 0x1_0000_0000_0000_0000

  type byte = x: int | 0 <= x < TWO_8
  type u16 = x: int | 0 <= x < TWO_16
  type u32 = x: int | 0 <= x < TWO_32
  type u64 = x: int | 0 <= x < TWO_64
  type i16 = x: int | -0x8000 <= x < 0x8000

  // The C conversion (int16_t)x of an integer of any size.
  function Int16(x: int): (r: i16) {
    var m := x % TWO_16;
    if m < 0x8000 then m else m - TWO_16
  }

  // The C conversion (uint16_t)x.
  function UInt16(x: int): u16 {
    x % TWO_16
  }

  // The C conversion (uint64_t)x: unsigned subtraction and addition wrap.
  function UInt64(x: int): u64 {
    x % TWO_64
  }

  // C integer division: truncation towards zero.
  function TruncDiv(a: int, b: int): int
    requires b > 0
  {
    if a >= 0 then a / b else -((-a) / b)
  }

  // A 16-bit little-endian field of a packet header.
  function ReadLE16(bytes: seq<byte>, at: nat): u16
    requires at + 1 < |bytes|
  {
    bytes[at] + TWO_8 * bytes[at + 1]
  }
}

// A value that may be absent.
module Options {
  datatype Option<T> = None | Some(value: T)
}

// Counting the marked steps of a run.
module Counts {
  function Count(marks: seq<bool>, m: nat, n: nat): nat
    requires m <= n <= |marks|
    decreases n
  {
    if n == m then 0 else Count(marks, m, n - 1) + (if marks[n - 1] then 1 else 0)
  }

  lemma {:induction false} CountPrepended(first: bool, marks: seq<bool>, n: nat)
    requires n <= |marks|
    ensures Count([first] + marks, 0, n + 1) == (if first then 1 else 0) + Count(marks, 0, n)
  {
    if n > 0 {
      CountPrepended(first, marks, n - 1);
    }
  }
}
