/** The 64x64 bit-matrix transpose (lib/runtime/transpose.c): six in-place rounds of
    block swaps, and the packers built on it. */
module Transpose {
  import opened Arith
  import opened Words

  predicate IsStep(j: nat) { j == 32 || j == 16 || j == 8 || j == 4 || j == 2 || j == 1 }

  type Matrix = a: seq<Word> | |a| == LANES witness seq(LANES, _ => Zero())

  /** The bit of an index that round `j` works on. */
  predicate Upper(i: nat, j: nat)
    requires j > 0
  {
    (i / j) % 2 == 1
  }

  /** The round's mask constant: 0x00000000FFFFFFFF for 32, ..., 0x5555555555555555 for 1. */
  function BlockMask(j: nat): (w: Word)
    requires j > 0
    ensures forall i :: 0 <= i < LANES ==> w[i] == !Upper(i, j)
  {
    seq(LANES, i requires 0 <= i < LANES => !Upper(i, j))
  }

  function Partner(i: nat, j: nat): (p: nat)
    requires IsStep(j) && i < LANES
    ensures p < LANES
  {
    if Upper(i, j) then i - j else i + j
  }

  /** What one round does: it exchanges the off-diagonal blocks of every 2j x 2j tile. */
  function RoundBit(a: Matrix, j: nat, r: nat, c: nat): bool
    requires IsStep(j) && r < LANES && c < LANES
  {
    if Upper(r, j) != Upper(c, j) then a[Partner(r, j)][Partner(c, j)] else a[r][c]
  }

  function Round(a: Matrix, j: nat): (b: Matrix)
    requires IsStep(j)
    ensures forall r, c :: 0 <= r < LANES && 0 <= c < LANES ==> b[r][c] == RoundBit(a, j, r, c)
  {
    seq(LANES, r requires 0 <= r < LANES => RoundRow(a, j, r))
  }

  function RoundRow(a: Matrix, j: nat, r: nat): (w: Word)
    requires IsStep(j) && r < LANES
    ensures forall c :: 0 <= c < LANES ==> w[c] == RoundBit(a, j, r, c)
  {
    seq(LANES, c requires 0 <= c < LANES => RoundBit(a, j, r, c))
  }

  function Butterfly(a: Matrix): Matrix {
    Round(Round(Round(Round(Round(Round(a, 32), 16), 8), 4), 2), 1)
  }

  function Transposed(a: Matrix): (b: Matrix)
    ensures forall r, c :: 0 <= r < LANES && 0 <= c < LANES ==> b[r][c] == a[c][r]
  {
    seq(LANES, r requires 0 <= r < LANES => Column(a, r))
  }

  function Column(a: Matrix, r: nat): (w: Word)
    requires r < LANES
    ensures forall c :: 0 <= c < LANES ==> w[c] == a[c][r]
  {
    seq(LANES, c requires 0 <= c < LANES => a[c][r])
  }

  // ---- the six rounds are the transpose ----

  /** Index `i` with everything above the low `j` block taken from `k`. */
  function Splice(k: nat, i: nat, j: nat): nat
    requires j > 0
  {
    k / j * j + i % j
  }

  /** All index bits worth `j` or more have been exchanged. */
  ghost predicate Exchanged(a: Matrix, b: Matrix, j: nat)
    requires j > 0
  {
    forall r, c :: 0 <= r < LANES && 0 <= c < LANES ==>
      Splice(c, r, j) < LANES && Splice(r, c, j) < LANES && b[r][c] == a[Splice(c, r, j)][Splice(r, c, j)]
  }

  /** The 64 indices are a whole number of 2j-wide tiles. */
  lemma {:induction false} Tiles(j: nat) returns (k: nat)
    requires IsStep(j)
    ensures k * j == LANES && k % 2 == 0
  {
    k := if j == 32 then 2 else if j == 16 then 4 else if j == 8 then 8 else if j == 4 then 16 else if j == 2 then 32 else 64;
  }

  lemma {:induction false} BlockBelow(i: nat, j: nat)
    requires IsStep(j) && i < LANES
    ensures i / j * j + j <= LANES
    ensures !Upper(i, j) ==> i + j < LANES
  {
    var k := Tiles(j);
    var q := i / j;
    InTiles(i, j, k);
    NextTiles(q, j);
    MulMono(q + 1, k, j);
    if q % 2 == 0 { MulMono(q + 2, k, j); }
  }

  lemma {:induction false} InTiles(i: nat, j: nat, k: nat)
    requires j > 0 && i < k * j
    ensures i / j < k && i == i / j * j + i % j && i % j < j
  {
    var q := i / j;
    assert i == q * j + i % j;
    if q >= k { MulMono(k, q, j); }
  }

  lemma {:induction false} NextTiles(q: nat, j: nat)
    ensures (q + 1) * j == q * j + j && (q + 2) * j == q * j + 2 * j
  {
  }

  lemma {:induction false} UpperShift(i: nat, j: nat)
    requires IsStep(j) && i < LANES
    ensures Upper(i + j, j) == !Upper(i, j)
    ensures (i + j) / j == i / j + 1 && (i + j) % j == i % j
    ensures !Upper(i, j) ==> i + j < LANES
  {
    ShiftDiv(i, j);
    BlockBelow(i, j);
  }

  /** Halving the step splits an index into its tile and the bit worth `j`. */
  lemma {:induction false} Halve(i: nat, j: nat)
    requires j > 0
    ensures i / (2 * j) == i / j / 2
    ensures i % (2 * j) == i / j % 2 * j + i % j
  {
    var q := i / j;
    var h, b := q / 2, q % 2;
    assert i == q * j + i % j;
    assert q * j == h * (2 * j) + b * j by { assert q == 2 * h + b; }
    QuotientIs(i, 2 * j, h, b * j + i % j);
  }

  lemma {:induction false} PartnerSplits(i: nat, j: nat)
    requires IsStep(j) && i < LANES
    ensures Partner(i, j) / j / 2 == i / j / 2
    ensures Partner(i, j) / j % 2 == 1 - i / j % 2
    ensures Partner(i, j) % j == i % j
  {
    if Upper(i, j) {
      var p := i - j;
      UpperShift(p, j);
    } else {
      UpperShift(i, j);
    }
  }

  lemma {:induction false} SpliceStep(r: nat, c: nat, j: nat)
    requires IsStep(j) && r < LANES && c < LANES
    ensures Splice(c, r, j) < LANES
    ensures Upper(r, j) != Upper(c, j) ==> Splice(Partner(c, j), Partner(r, j), 2 * j) == Splice(c, r, j)
    ensures Upper(r, j) == Upper(c, j) ==> Splice(c, r, 2 * j) == Splice(c, r, j)
  {
    BlockBelow(c, j);
    if Upper(r, j) == Upper(c, j) {
      SpliceSame(c, c, r, r, j);
    } else {
      PartnerSplits(r, j);
      PartnerSplits(c, j);
      SpliceSame(Partner(c, j), c, Partner(r, j), r, j);
    }
  }

  /** A splice at 2j sees only the tile of one index and the low bits of the other. */
  lemma {:induction false} SpliceSame(k': nat, k: nat, i': nat, i: nat, j: nat)
    requires j > 0
    requires k' / j / 2 == k / j / 2 && i' % j == i % j && i' / j % 2 == k / j % 2
    ensures Splice(k', i', 2 * j) == Splice(k, i, j)
  {
    Halve(k', j);
    Halve(i', j);
    var h, b := k / j / 2, k / j % 2;
    assert k / j * j == h * (2 * j) + b * j by { assert k / j == 2 * h + b; }
  }

  lemma {:induction false} RoundExchanges(a: Matrix, b: Matrix, j: nat)
    requires IsStep(j) && Exchanged(a, b, 2 * j)
    ensures Exchanged(a, Round(b, j), j)
  {
    hide Splice; hide Upper; hide Partner;
    var d := Round(b, j);
    forall r, c | 0 <= r < LANES && 0 <= c < LANES
      ensures Splice(c, r, j) < LANES && Splice(r, c, j) < LANES
      ensures d[r][c] == a[Splice(c, r, j)][Splice(r, c, j)]
    {
      SpliceStep(r, c, j);
      SpliceStep(c, r, j);
    }
  }

  lemma {:induction false} ButterflyIsTranspose(a: Matrix)
    ensures Butterfly(a) == Transposed(a)
  {
    hide Round; hide Transposed; hide Exchanged;
    SelfExchanged(a);
    var b5 := Round(a, 32);
    RoundExchanges(a, a, 32);
    var b4 := Round(b5, 16);
    RoundExchanges(a, b5, 16);
    var b3 := Round(b4, 8);
    RoundExchanges(a, b4, 8);
    var b2 := Round(b3, 4);
    RoundExchanges(a, b3, 4);
    var b1 := Round(b2, 2);
    RoundExchanges(a, b2, 2);
    var b0 := Round(b1, 1);
    RoundExchanges(a, b1, 1);
    FullyExchanged(a, b0);
  }

  lemma {:induction false} SelfExchanged(a: Matrix)
    ensures Exchanged(a, a, LANES)
  {
    hide Splice;
    forall r, c | 0 <= r < LANES && 0 <= c < LANES
      ensures Splice(c, r, LANES) < LANES && Splice(r, c, LANES) < LANES
              && a[r][c] == a[Splice(c, r, LANES)][Splice(r, c, LANES)]
    {
      SpliceWhole(c, r);
      SpliceWhole(r, c);
    }
  }

  lemma {:induction false} SpliceWhole(k: nat, i: nat)
    requires k < LANES && i < LANES
    ensures Splice(k, i, LANES) == i
  {
  }

  lemma {:induction false} FullyExchanged(a: Matrix, b: Matrix)
    requires Exchanged(a, b, 1)
    ensures b == Transposed(a)
  {
    hide Exchanged; hide Splice;
    forall r | 0 <= r < LANES
      ensures b[r] == Transposed(a)[r]
    {
      forall c | 0 <= c < LANES
        ensures b[r][c] == a[c][r]
      {
        ExchangedAt(a, b, 1, r, c);
        SpliceOne(c, r);
        SpliceOne(r, c);
      }
    }
  }

  lemma {:induction false} ExchangedAt(a: Matrix, b: Matrix, j: nat, r: nat, c: nat)
    requires j > 0 && Exchanged(a, b, j) && r < LANES && c < LANES
    ensures Splice(c, r, j) < LANES && Splice(r, c, j) < LANES
    ensures b[r][c] == a[Splice(c, r, j)][Splice(r, c, j)]
  {
  }

  lemma {:induction false} SpliceOne(k: nat, i: nat)
    ensures Splice(k, i, 1) == k
  {
  }

  lemma {:induction false} TransposeInvolutive(a: Matrix)
    ensures Butterfly(Butterfly(a)) == a
  {
    hide Butterfly;
    ButterflyIsTranspose(a);
    ButterflyIsTranspose(Butterfly(a));
    var b := Transposed(Transposed(a));
    forall r | 0 <= r < LANES ensures b[r] == a[r] {
      assert forall c :: 0 <= c < LANES ==> b[r][c] == a[r][c];
    }
  }

  // ---- in place ----

  /** The exchange of one row pair: t = ((x >> j) ^ y) & m; y ^= t; x ^= t << j. */
  function SwapWords(x: Word, y: Word, j: nat): (Word, Word)
    requires j > 0
  {
    var t := And(Xor(Shr(x, j), y), BlockMask(j));
    (Xor(x, Shl(t, j)), Xor(y, t))
  }

  lemma {:induction false} PairSwap(a: Matrix, j: nat, i: nat)
    requires IsStep(j) && i < LANES && !Upper(i, j)
    requires i + j < LANES
    ensures SwapWords(a[i], a[i + j], j) == (RoundRow(a, j, i), RoundRow(a, j, i + j))
  {
    hide And; hide Xor; hide Shr; hide Shl; hide BlockMask; hide RoundRow;
    var (x, y) := SwapWords(a[i], a[i + j], j);
    forall c | 0 <= c < LANES ensures y[c] == RoundBit(a, j, i + j, c) {
      LowerWord(a, j, i, c);
    }
    forall c | 0 <= c < LANES ensures x[c] == RoundBit(a, j, i, c) {
      UpperWord(a, j, i, c);
    }
    assert x == RoundRow(a, j, i);
    assert y == RoundRow(a, j, i + j);
  }

  lemma {:induction false} LowerWord(a: Matrix, j: nat, i: nat, c: nat)
    requires IsStep(j) && i < LANES && !Upper(i, j) && i + j < LANES && c < LANES
    ensures SwapWords(a[i], a[i + j], j).1[c] == RoundBit(a, j, i + j, c)
  {
    hide And; hide Xor; hide Shr; hide Shl; hide BlockMask; hide Upper;
    UpperShift(i, j);
    UpperShift(c, j);
  }

  lemma {:induction false} UpperWord(a: Matrix, j: nat, i: nat, c: nat)
    requires IsStep(j) && i < LANES && !Upper(i, j) && i + j < LANES && c < LANES
    ensures SwapWords(a[i], a[i + j], j).0[c] == RoundBit(a, j, i, c)
  {
    hide And; hide Xor; hide Shr; hide Shl; hide BlockMask; hide Upper;
    UpperShift(i, j);
    if c >= j { UpperShift(c - j, j); } else { UpperLow(c, j); }
  }

  lemma {:induction false} UpperLow(i: nat, j: nat)
    requires j > 0 && i < j
    ensures !Upper(i, j)
  {
  }

  /** Swaps the off-diagonal blocks of the tile of rows that starts at `kk`. */
  method SwapTile(A: array<Word>, kk: nat, j: nat, ghost a0: Matrix)
    requires A.Length == LANES && IsStep(j) && kk + 2 * j <= LANES && kk % j == 0 && !Upper(kk, j)
    requires forall r :: kk <= r < kk + 2 * j ==> A[r] == a0[r]
    modifies A
    ensures forall r :: kk <= r < kk + 2 * j ==> A[r] == RoundRow(a0, j, r)
    ensures forall r :: 0 <= r < kk || kk + 2 * j <= r < LANES ==> A[r] == old(A[r])
  {
    hide RoundRow; hide Upper; hide SwapWords;
    var ii := kk;
    while ii < kk + j
      invariant kk <= ii <= kk + j
      invariant forall r :: kk <= r < ii || kk + j <= r < ii + j ==> A[r] == RoundRow(a0, j, r)
      invariant forall r :: ii <= r < kk + j || ii + j <= r < kk + 2 * j ==> A[r] == a0[r]
      invariant forall r :: 0 <= r < kk || kk + 2 * j <= r < LANES ==> A[r] == old(A[r])
    {
      InTile(kk, ii, j);
      PairSwap(a0, j, ii);
      var (x, y) := SwapWords(A[ii], A[ii + j], j);
      A[ii], A[ii + j] := x, y;
      ii := ii + 1;
    }
  }

  method RoundInPlace(A: array<Word>, j: nat)
    requires A.Length == LANES && IsStep(j)
    modifies A
    ensures A[..] == Round(old(A[..]), j)
  {
    hide Upper;
    ghost var a0 := A[..];
    var kk := 0;
    while kk < LANES
      invariant kk <= LANES && kk % (2 * j) == 0
      invariant forall r :: 0 <= r < kk ==> A[r] == RoundRow(a0, j, r)
      invariant forall r :: kk <= r < LANES ==> A[r] == a0[r]
    {
      TileFits(kk, j);
      SwapTile(A, kk, j, a0);
      kk := kk + 2 * j;
    }
    forall r | 0 <= r < LANES ensures A[..][r] == Round(a0, j)[r] { }
  }

  /** Tiles start at even multiples of `j`, and stay inside the matrix. */
  lemma {:induction false} TileFits(kk: nat, j: nat)
    requires IsStep(j) && kk < LANES && kk % (2 * j) == 0
    ensures kk + 2 * j <= LANES && (kk + 2 * j) % (2 * j) == 0
    ensures kk % j == 0 && !Upper(kk, j)
  {
    var h := TileNumber(kk, j);
    var k := Tiles(j);
    Regroup(h, j);
    TileAt(kk, h, j, k);
    DivExact(h + 1, 2 * j);
  }

  lemma {:induction false} TileNumber(kk: nat, j: nat) returns (h: nat)
    requires j > 0 && kk % (2 * j) == 0
    ensures kk == h * (2 * j)
  {
    h := kk / (2 * j);
  }

  lemma {:induction false} TileAt(kk: nat, h: nat, j: nat, k: nat)
    requires j > 0 && kk == (2 * h) * j && kk < k * j && k % 2 == 0
    ensures kk + 2 * j <= k * j && kk % j == 0 && kk / j == 2 * h
  {
    QuotientIs(kk, j, 2 * h, 0);
    if 2 * h >= k { MulMono(k, 2 * h, j); }
    MulMono(2 * h + 2, k, j);
    NextTiles(2 * h, j);
  }

  lemma {:induction false} Regroup(h: nat, j: nat)
    ensures h * (2 * j) == (2 * h) * j
    ensures (h + 1) * (2 * j) == h * (2 * j) + 2 * j == (2 * h + 2) * j
  {
  }

  lemma {:induction false} InTile(kk: nat, i: nat, j: nat)
    requires IsStep(j) && kk % j == 0 && !Upper(kk, j) && kk <= i < kk + j
    ensures !Upper(i, j)
  {
    QuotientIs(i, j, kk / j, i - kk);
  }

  method Transpose64(A: array<Word>)
    requires A.Length == LANES
    modifies A
    ensures A[..] == Transposed(old(A[..]))
  {
    hide Round;
    ghost var a := A[..];
    RoundInPlace(A, 32);
    RoundInPlace(A, 16);
    RoundInPlace(A, 8);
    RoundInPlace(A, 4);
    RoundInPlace(A, 2);
    RoundInPlace(A, 1);
    assert A[..] == Butterfly(a);
    ButterflyIsTranspose(a);
  }
}
