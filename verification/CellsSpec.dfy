/** What the word-level cells of tools/bstm-cc/bstm_cc/cells.py mean on bit lists. */
module CellsSpec {
  import opened Arith
  import opened Numbers
  import opened IrWords

  // ---- shifts ----

  /** Shift by `k` places; what comes in on the right shift is `fill`, on the left shift zero. */
  function Shifted(A: seq<bool>, k: nat, right: bool, fill: bool): (r: seq<bool>)
    ensures |r| == |A|
  {
    seq(|A|, i requires 0 <= i < |A| =>
      if right then (if i + k < |A| then A[i + k] else fill) else i >= k && A[i - k])
  }

  lemma {:induction false} ShiftedTwice(A: seq<bool>, k: nat, j: nat, right: bool, fill: bool)
    ensures Shifted(Shifted(A, k, right, fill), j, right, fill) == Shifted(A, k + j, right, fill)
  {
  }

  /** Past the width nothing of the operand is left. */
  lemma {:induction false} OverShift(A: seq<bool>, k: nat, right: bool, fill: bool)
    requires k >= |A|
    ensures Shifted(A, k, right, fill) == seq(|A|, _ => right && fill)
  {
  }

  lemma {:induction false} NumBelow(n: nat, t: seq<bool>)
    ensures Num(Zeroes(n) + t) == Num(t) * Pow2(n)
    decreases n
  {
    if n == 0 {
      assert Zeroes(0) + t == t;
    } else {
      var s := Zeroes(n) + t;
      assert s[1..] == Zeroes(n - 1) + t;
      NumBelow(n - 1, t);
      MulTwo(Num(t), Pow2(n - 1));
    }
  }

  /** Left shift multiplies modulo 2^w. */
  lemma {:induction false} LeftIsTimes(A: seq<bool>, k: nat, fill: bool)
    ensures Num(Shifted(A, k, false, fill)) == (Num(A) * Pow2(k)) % Pow2(|A|)
  {
    hide Num; hide Shifted; hide Pow2;
    if k >= |A| { LeftOver(A, k, fill); } else { LeftWithin(A, k, fill); }
  }

  lemma {:induction false} LeftOver(A: seq<bool>, k: nat, fill: bool)
    requires k >= |A|
    ensures Num(Shifted(A, k, false, fill)) == (Num(A) * Pow2(k)) % Pow2(|A|)
  {
    hide Num; hide Pow2;
    var w := |A|;
    OverShift(A, k, false, fill);
    NumZero(Shifted(A, k, false, fill));
    Pow2Quotient(w, k);
    MulAssoc(Num(A), Pow2(k - w), Pow2(w), Pow2(k));
    DivExact(Num(A) * Pow2(k - w), Pow2(w));
  }

  lemma {:induction false} LeftWithin(A: seq<bool>, k: nat, fill: bool)
    requires k < |A|
    ensures Num(Shifted(A, k, false, fill)) == (Num(A) * Pow2(k)) % Pow2(|A|)
  {
    hide Num; hide Pow2;
    var w := |A|;
    var r, t := Shifted(A, k, false, fill), A[..w - k];
    assert r == Zeroes(k) + t;
    NumBelow(k, t);
    NumSplit(A, w - k);
    Pow2Quotient(k, w);
    NumBound(r);
    Carried(Num(A), Num(t), Num(A[w - k..]), Pow2(w - k), Pow2(k), Pow2(w));
  }

  /** Multiplying by `b` pushes the high part out of the word. */
  lemma {:induction false} Carried(n: nat, t: nat, hi: nat, a: nat, b: nat, c: nat)
    requires n == t + hi * a && c == a * b && t * b < c
    ensures (n * b) % c == t * b
  {
    Distribute(t, hi * a, 0, b);
    MulAssoc(hi, a, b, c);
    RemainderIs(n * b, hi, t * b, c);
  }

  /** Right shift with zeroes divides. */
  lemma {:induction false} RightIsDivide(A: seq<bool>, k: nat)
    ensures Num(Shifted(A, k, true, false)) == Num(A) / Pow2(k)
  {
    var w := |A|;
    var r := Shifted(A, k, true, false);
    if k >= w {
      OverShift(A, k, true, false);
      NumZero(r);
      NumBound(A);
      Pow2Mono(w, k);
      QuotientIs(Num(A), Pow2(k), 0, Num(A));
    } else {
      assert r == A[k..] + seq(k, _ => false);
      NumFill(A[k..], k, false);
      NumSplit(A, k);
      NumBound(A[..k]);
      QuotientIs(Num(A), Pow2(k), Num(A[k..]), Num(A[..k]));
    }
  }

  /** Right shift with the sign divides the two's-complement number, rounding down. */
  lemma {:induction false} RightIsDivideSigned(A: seq<bool>, k: nat)
    requires A != []
    ensures SNum(Shifted(A, k, true, A[|A| - 1])) == SNum(A) / Pow2(k)
  {
    hide Num; hide SNum; hide Shifted;
    ValueRange(A, |A|, true);
    if k >= |A| { SignedOver(A, k); } else { SignedWithin(A, k); }
  }

  lemma {:induction false} SignedOver(A: seq<bool>, k: nat)
    requires A != [] && k >= |A|
    ensures SNum(Shifted(A, k, true, A[|A| - 1])) == SNum(A) / Pow2(k)
  {
    hide Num;
    var w, x := |A|, A[|A| - 1];
    OverShift(A, k, true, x);
    var none: seq<bool> := [];
    assert seq(w, _ => x) == none + seq(w, _ => x);
    NumFill(none, w, x);
    NumZero(none);
    NumBound(A);
    Pow2Mono(w, k);
    FloorIs(SNum(A), Pow2(k), if x then -1 else 0);
  }

  lemma {:induction false} SignedWithin(A: seq<bool>, k: nat)
    requires k < |A|
    ensures SNum(Shifted(A, k, true, A[|A| - 1])) == SNum(A) / Pow2(k)
  {
    hide Num;
    var w, x, p := |A|, A[|A| - 1], Pow2(k);
    var hi := A[k..];
    assert Shifted(A, k, true, x) == hi + seq(k, _ => x);
    NumFill(hi, k, x);
    NumSplit(A, k);
    NumBound(A[..k]);
    Pow2Quotient(k, w);
    var top: int := if x then Pow2(w - k) else 0;
    Spread(Num(hi), top, p);
    FloorIs(SNum(A), p, Num(hi) - top);
  }

  lemma {:induction false} FloorIs(x: int, m: nat, q: int)
    requires m > 0 && q * m <= x < q * m + m
    ensures x / m == q
  {
    RemainderIs(x, q, x - q * m, m);
    var k := x / m;
    assert x == k * m + x % m;
    if k < q { StepApart(k, q, m); } else if q < k { StepApart(q, k, m); }
  }

  // ---- choosing ----

  /** Piece `k` of pieces of `w` bits each. */
  function Chunk(A: seq<bool>, k: nat, w: nat): (r: seq<bool>)
    ensures |r| == w
  {
    seq(w, i requires 0 <= i < w => k * w + i < |A| && A[k * w + i])
  }

  /** The last position that is set. */
  function Highest(S: seq<bool>): (r: int)
    ensures -1 <= r < |S|
    ensures r >= 0 ==> S[r]
    ensures forall k :: r < k < |S| ==> !S[k]
  {
    if S == [] then -1 else if S[|S| - 1] then |S| - 1 else Highest(S[..|S| - 1])
  }

  /** `$pmux`: the piece of B at the last set select, A when none is set. */
  function PmuxValue(A: seq<bool>, B: seq<bool>, S: seq<bool>): (r: seq<bool>)
    ensures |r| == |A|
  {
    var j := Highest(S);
    if j < 0 then A else Chunk(B, j, |A|)
  }

  lemma {:induction false} PmuxStep(A: seq<bool>, B: seq<bool>, S: seq<bool>, j: nat)
    requires j < |S|
    ensures PmuxValue(A, B, S[..j + 1]) == if S[j] then Chunk(B, j, |A|) else PmuxValue(A, B, S[..j])
  {
    assert S[..j + 1][..j] == S[..j];
  }
}
