/** Fixed-width words: the 16 and 32 bit wrap-around the stack relies on for timers,
    sequence counts and identifiers, and the Option type shared by every module. */
module Words {

  datatype Option<+T> = None | Some(value: T)

  const TWO8 := 0x100
  const TWO15 := 0x8000
  const TWO16 := 0x1_0000
  const TWO31 := 0x8000_0000
  const TWO32 := 0x1_0000_0000

  /** An unsigned 32 bit value, after truncation. */
  function U32(x: int): (r: nat)
    ensures r < TWO32
  {
    x % TWO32
  }

  function U16(x: int): (r: nat)
    ensures r < TWO16
  {
    x % TWO16
  }

  /** The value of `(int)(a - b)` for 32 bit words a and b. */
  function Diff32(a: int, b: int): (d: int)
    ensures -TWO31 <= d < TWO31
  {
    var d := (a - b) % TWO32;
    if d < TWO31 then d else d - TWO32
  }

  /** The value of `(short)(a - b)` for 16 bit words a and b. */
  function Diff16(a: int, b: int): (d: int)
    ensures -TWO15 <= d < TWO15
  {
    var d := (a - b) % TWO16;
    if d < TWO15 then d else d - TWO16
  }

  /** Reading a wrapped difference back gives the true one, as long as it fits. */
  lemma Diff32IsTrueDifference(a: int, b: int)
    requires -TWO31 <= a - b < TWO31
    ensures Diff32(U32(a), U32(b)) == a - b
  {
    var d := a - b;
    assert (U32(a) - U32(b)) % TWO32 == d % TWO32 by {
      WrapMinus(a, b);
    }
  }

  lemma WrapMinus(a: int, b: int)
    ensures (a % TWO32 - b % TWO32) % TWO32 == (a - b) % TWO32
  {
    var qa, qb := a / TWO32, b / TWO32;
    assert a % TWO32 - b % TWO32 == (a - b) - (qa - qb) * TWO32;
    WrapShift(a - b, qa - qb);
  }

  lemma WrapShift(x: int, k: int)
    ensures (x - k * TWO32) % TWO32 == x % TWO32
  {
    var r := x % TWO32;
    var q := x / TWO32;
    assert x - k * TWO32 == (q - k) * TWO32 + r;
  }

  /** Adding to a wrapped word and wrapping again is wrapping the true sum. */
  lemma WrapPlus(a: int, b: int)
    ensures U32(U32(a) + b) == U32(a + b)
  {
    var q := a / TWO32;
    assert U32(a) + b == (a + b) - q * TWO32;
    WrapShift(a + b, q);
  }
}
