/** 64-bit words as the runtime uses them: bit l of a word belongs to lane l.  A word is
    the sequence of its bits, least significant first, and the C operators act bit by bit. */
module Words {

  const LANES: nat := 64

  type Word = w: seq<bool> | |w| == LANES witness Zero()

  type Byte = b: seq<bool> | |b| == 8 witness ZeroByte()

  function ZeroByte(): seq<bool> { [false, false, false, false, false, false, false, false] }

  function Zero(): seq<bool> { seq(LANES, _ => false) }

  function Make(f: nat -> bool): (w: Word)
    ensures forall i :: 0 <= i < LANES ==> w[i] == f(i)
  {
    seq(LANES, i requires 0 <= i < LANES => f(i))
  }

  function And(a: Word, b: Word): (w: Word)
    ensures forall i :: 0 <= i < LANES ==> w[i] == (a[i] && b[i])
  {
    seq(LANES, i requires 0 <= i < LANES => a[i] && b[i])
  }

  function Or(a: Word, b: Word): (w: Word)
    ensures forall i :: 0 <= i < LANES ==> w[i] == (a[i] || b[i])
  {
    seq(LANES, i requires 0 <= i < LANES => a[i] || b[i])
  }

  function Xor(a: Word, b: Word): (w: Word)
    ensures forall i :: 0 <= i < LANES ==> w[i] == (a[i] != b[i])
  {
    seq(LANES, i requires 0 <= i < LANES => a[i] != b[i])
  }

  function Not(a: Word): (w: Word)
    ensures forall i :: 0 <= i < LANES ==> w[i] == !a[i]
  {
    seq(LANES, i requires 0 <= i < LANES => !a[i])
  }

  function Shr(a: Word, n: nat): (w: Word)
    ensures forall i :: 0 <= i < LANES ==> w[i] == (i + n < LANES && a[i + n])
  {
    seq(LANES, i requires 0 <= i < LANES => i + n < LANES && a[i + n])
  }

  function Shl(a: Word, n: nat): (w: Word)
    ensures forall i :: 0 <= i < LANES ==> w[i] == (i >= n && a[i - n])
  {
    seq(LANES, i requires 0 <= i < LANES => i >= n && a[i - n])
  }

  /** The constant with the low `n` bits set. */
  function Low(n: nat): (w: Word)
    ensures forall i :: 0 <= i < LANES ==> w[i] == (i < n)
  {
    seq(LANES, i requires 0 <= i < LANES => i < n)
  }

  /** A narrower field placed in the low bits of a word. */
  function Widen(bits: seq<bool>): (w: Word)
    requires |bits| <= LANES
    ensures forall i :: 0 <= i < LANES ==> w[i] == (i < |bits| && bits[i])
  {
    seq(LANES, i requires 0 <= i < LANES => i < |bits| && bits[i])
  }
}
