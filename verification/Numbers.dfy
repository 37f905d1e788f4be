/** Bit lists and the numbers they spell, least significant bit first; ripple-carry sums. */
module Numbers {
  import opened Arith

  /** The unsigned number a bit list spells, least significant bit first. */
  function Num(bs: seq<bool>): nat {
    if bs == [] then 0 else (if bs[0] then 1 else 0) + 2 * Num(bs[1..])
  }

  /** The two's-complement number a bit list spells. */
  function SNum(s: seq<bool>): int {
    Num(s) - if s != [] && s[|s| - 1] then Pow2(|s|) else 0
  }

  function Value(s: seq<bool>, signed: bool): int { if signed then SNum(s) else Num(s) }

  lemma {:induction false} NumSnoc(s: seq<bool>, x: bool)
    ensures Num(s + [x]) == Num(s) + if x then Pow2(|s|) else 0
    decreases |s|
  {
    if s != [] {
      assert (s + [x])[1..] == s[1..] + [x];
      NumSnoc(s[1..], x);
    }
  }

  lemma {:induction false} NumBound(s: seq<bool>)
    ensures Num(s) < Pow2(|s|)
    decreases |s|
  {
    if s != [] { NumBound(s[1..]); }
  }

  /** Two lists of one length that spell the same number are equal. */
  lemma {:induction false} NumInjective(s: seq<bool>, t: seq<bool>)
    requires |s| == |t| && Num(s) == Num(t)
    ensures s == t
    decreases |s|
  {
    if s != [] {
      NumInjective(s[1..], t[1..]);
      assert s == [s[0]] + s[1..] && t == [t[0]] + t[1..];
    }
  }

  lemma {:induction false} ValueZero(s: seq<bool>, signed: bool)
    ensures Value(s, signed) == 0 <==> Num(s) == 0
  {
    NumBound(s);
    NumZero(s);
  }

  /** Lists of one length with the same value are equal. */
  lemma {:induction false} ValueInjective(s: seq<bool>, t: seq<bool>, signed: bool)
    requires |s| == |t|
    ensures Value(s, signed) == Value(t, signed) <==> s == t
  {
    NumBound(s);
    NumBound(t);
    if Value(s, signed) == Value(t, signed) { NumInjective(s, t); }
  }

  /** The high part of a list counts in units of the power of two where it starts. */
  lemma {:induction false} NumSplit(s: seq<bool>, i: nat)
    requires i <= |s|
    ensures Num(s) == Num(s[..i]) + Num(s[i..]) * Pow2(i)
    decreases i
  {
    if i == 0 {
      assert s[..0] == [] && s[0..] == s;
    } else {
      NumSplit(s[1..], i - 1);
      assert s[1..][..i - 1] == s[..i][1..] && s[1..][i - 1..] == s[i..];
      MulTwo(Num(s[i..]), Pow2(i - 1));
    }
  }

  lemma {:induction false} MulTwo(h: nat, p: nat)
    ensures h * (2 * p) == 2 * (h * p)
  {
  }

  lemma {:induction false} NumZero(s: seq<bool>)
    ensures Num(s) == 0 <==> forall i :: 0 <= i < |s| ==> !s[i]
    decreases |s|
  {
    if s != [] {
      NumZero(s[1..]);
      assert forall i :: 0 < i < |s| ==> s[i] == s[1..][i - 1];
    }
  }

  function Zeroes(n: nat): (r: seq<bool>)
    ensures |r| == n && forall i :: 0 <= i < n ==> !r[i]
  {
    seq(n, _ => false)
  }

  function Flip(s: seq<bool>): (r: seq<bool>)
    ensures |r| == |s| && forall i :: 0 <= i < |s| ==> r[i] == !s[i]
  {
    seq(|s|, i requires 0 <= i < |s| => !s[i])
  }

  lemma {:induction false} NumFlip(s: seq<bool>)
    ensures Num(Flip(s)) == Pow2(|s|) - 1 - Num(s)
    decreases |s|
  {
    if s != [] {
      assert Flip(s)[1..] == Flip(s[1..]);
      NumFlip(s[1..]);
    }
  }

  /** B at the width of the sum. */
  function Fit(s: seq<bool>, w: nat): (r: seq<bool>)
    ensures |r| == w && forall i :: 0 <= i < w ==> r[i] == (i < |s| && s[i])
  {
    seq(w, i => 0 <= i < |s| && s[i])
  }

  /** Fitting changes the number by a multiple of 2^w. */
  lemma {:induction false} NumFit(s: seq<bool>, w: nat) returns (q: nat)
    ensures Num(s) == Num(Fit(s, w)) + q * Pow2(w)
  {
    if |s| <= w {
      q := 0;
      NumSplit(Fit(s, w), |s|);
      assert Fit(s, w)[..|s|] == s;
      NumZero(Fit(s, w)[|s|..]);
    } else {
      q := Num(s[w..]);
      NumSplit(s, w);
      assert Fit(s, w) == s[..w];
    }
  }

  // ---- ripple carry ----

  function CarryAt(A: seq<bool>, B: seq<bool>, c0: bool, i: nat): bool
    requires i <= |A| && i <= |B|
  {
    if i == 0 then c0
    else
      var c := CarryAt(A, B, c0, i - 1);
      (A[i - 1] && B[i - 1]) || (c && A[i - 1] != B[i - 1])
  }

  function SumBit(A: seq<bool>, B: seq<bool>, c0: bool, i: nat): bool
    requires i < |A| && i < |B|
  {
    (A[i] != B[i]) != CarryAt(A, B, c0, i)
  }

  function Sum(A: seq<bool>, B: seq<bool>, c0: bool): (r: seq<bool>)
    requires |A| == |B|
    ensures |r| == |A| && forall i :: 0 <= i < |A| ==> r[i] == SumBit(A, B, c0, i)
  {
    seq(|A|, i requires 0 <= i < |A| => SumBit(A, B, c0, i))
  }

  lemma {:induction false} SumUpTo(A: seq<bool>, B: seq<bool>, c0: bool, i: nat)
    requires |A| == |B| && i <= |A|
    ensures Num(Sum(A, B, c0)[..i]) + (if CarryAt(A, B, c0, i) then Pow2(i) else 0)
            == Num(A[..i]) + Num(B[..i]) + if c0 then 1 else 0
    decreases i
  {
    if i > 0 {
      var r := Sum(A, B, c0);
      SumUpTo(A, B, c0, i - 1);
      assert r[..i] == r[..i - 1] + [r[i - 1]] && A[..i] == A[..i - 1] + [A[i - 1]] && B[..i] == B[..i - 1] + [B[i - 1]];
      NumSnoc(r[..i - 1], r[i - 1]);
      NumSnoc(A[..i - 1], A[i - 1]);
      NumSnoc(B[..i - 1], B[i - 1]);
      assert r[i - 1] == ((A[i - 1] != B[i - 1]) != CarryAt(A, B, c0, i - 1));
    }
  }

  /** Ripple carry with B at the width of the sum adds modulo 2^w. */
  lemma {:induction false} SumIsAdd(A: seq<bool>, B: seq<bool>, w: nat)
    requires w <= |A|
    ensures Num(Sum(A[..w], Fit(B, w), false)) == (Num(A) + Num(B)) % Pow2(w)
  {
    var a, b := A[..w], Fit(B, w);
    var r, p := Sum(a, b, false), Pow2(w);
    SumUpTo(a, b, false, w);
    assert r[..w] == r && a[..w] == a && b[..w] == b;
    NumSplit(A, w);
    var q := NumFit(B, w);
    NumBound(r);
    var k := if CarryAt(a, b, false, w) then 1 else 0;
    Distribute(k, Num(A[w..]), q, p);
    RemainderIs(Num(A) + Num(B), k + Num(A[w..]) + q, Num(r), p);
  }

  /** Ripple carry with B inverted and the carry set subtracts modulo 2^w. */
  lemma {:induction false} SumIsSub(A: seq<bool>, B: seq<bool>, w: nat)
    requires w <= |A|
    ensures Num(Sum(A[..w], Flip(Fit(B, w)), true)) == (Num(A) - Num(B)) % Pow2(w)
  {
    var a, b := A[..w], Flip(Fit(B, w));
    var r, p := Sum(a, b, true), Pow2(w);
    SumUpTo(a, b, true, w);
    assert r[..w] == r && a[..w] == a && b[..w] == b;
    NumFlip(Fit(B, w));
    NumSplit(A, w);
    var q := NumFit(B, w);
    NumBound(r);
    var k := if CarryAt(a, b, true, w) then 0 else -1;
    Borrow(k, Num(A[w..]), q, p);
    RemainderIs(Num(A) - Num(B), k + Num(A[w..]) - q, Num(r), p);
  }

  lemma {:induction false} Distribute(a: int, b: int, c: int, p: int)
    ensures (a + b + c) * p == a * p + b * p + c * p
  {
  }

  lemma {:induction false} Borrow(a: int, b: int, c: int, p: int)
    ensures (a + b - c) * p == a * p + b * p - c * p
  {
  }

  lemma {:induction false} Spread(p: int, q: int, m: int)
    ensures (p - q) * m == p * m - q * m && (p + q) * m == p * m + q * m
  {
  }

  /** The remainder does not see multiples of the modulus. */
  lemma {:induction false} ModShift(x: int, q: int, p: nat)
    requires p > 0
    ensures (x + q * p) % p == x % p
  {
    var d := x / p;
    assert x == d * p + x % p;
    assert (d + q) * p == d * p + q * p;
    RemainderIs(x + q * p, d + q, x % p, p);
  }

  /** Sign and zero reading of a list differ by a multiple of 2^w, if the list reaches w. */
  lemma {:induction false} ValueShift(s: seq<bool>, signed: bool, w: nat) returns (q: int)
    requires !signed || |s| >= w || s == []
    ensures Num(s) == Value(s, signed) + q * Pow2(w)
  {
    if signed && s != [] && s[|s| - 1] {
      Pow2Quotient(w, |s|);
      q := Pow2(|s| - w);
    } else {
      q := 0;
    }
  }

  /** A difference between 0 and the modulus shows in the remainder. */
  lemma {:induction false} ModApart(x: int, y: int, p: nat)
    requires p > 0 && 0 < y - x < p
    ensures x % p != y % p
  {
    var d := y / p - x / p;
    assert d * p == (y / p) * p - (x / p) * p;
    if d <= 0 { LessMul(d, 0, p); } else { LessMul(1, d, p); }
  }

  lemma {:induction false} LessMul(a: int, b: int, p: nat)
    requires a <= b
    ensures a * p <= b * p
  {
    var d: nat := b - a;
    assert b * p == a * p + d * p;
  }
}
