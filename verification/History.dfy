/** Global and folded branch history (preprocess/frontend/predictors.hpp, `HistReg` and
    `Folded`): the incremental register against the definition of folding. */
module History {
  import opened Arith
  import opened Words

  const NW: nat := 8
  const HIST_BITS: nat := 512

  /** The last 512 outcomes, newest first. */
  type Hist = h: seq<bool> | |h| == HIST_BITS witness seq(HIST_BITS, _ => false)

  function Reset(): Hist { seq(HIST_BITS, _ => false) }

  /** Out-of-range positions read as 0. */
  function HistBit(h: Hist, i: nat): bool { i < HIST_BITS && h[i] }

  function PushHist(h: Hist, taken: bool): Hist { [taken] + h[..HIST_BITS - 1] }

  // ---- the register as eight words ----

  class HistReg {
    const w: array<Word>

    ghost predicate Valid()
      reads this
    {
      w.Length == NW
    }

    /** Bit `i` of the register is bit i mod 64 of word i / 64. */
    ghost function Bits(): (h: Hist)
      requires Valid()
      reads this, w
      ensures forall i :: 0 <= i < HIST_BITS ==> h[i] == w[i / 64][i % 64]
    {
      seq(HIST_BITS, i requires 0 <= i < HIST_BITS reads this, w requires Valid() => w[i / 64][i % 64])
    }

    constructor ()
      ensures Valid() && fresh(w) && Bits() == Reset()
    {
      w := new Word[NW](_ => Zero());
    }

    method Bit(i: nat) returns (b: bool)
      requires Valid()
      ensures b == HistBit(Bits(), i)
    {
      if i >= NW * 64 {
        return false;
      }
      b := And(Shr(w[i / 64], i % 64), Low(1))[0];
    }

    static function ShiftIn64(x: Word, bit: bool): (r: Word)
      ensures forall b :: 0 <= b < LANES ==> r[b] == if b == 0 then bit else x[b - 1]
    {
      Or(Shl(x, 1), if bit then Low(1) else Zero())
    }

    /** Word `x` shifted up by one, taking in the top bit of word `y`. */
    static function ShiftWord(x: Word, y: Word): (r: Word)
      ensures forall b :: 0 <= b < LANES ==> r[b] == if b == 0 then y[LANES - 1] else x[b - 1]
    {
      Or(Shl(x, 1), Shr(y, 63))
    }

    /** Shifts the whole register by one across its words. */
    method Push(taken: bool)
      requires Valid()
      modifies w
      ensures Bits() == PushHist(old(Bits()), taken)
    {
      hide ShiftWord; hide ShiftIn64;
      var i := NW - 1;
      while i > 0
        invariant 0 <= i < NW
        invariant forall k :: i < k < NW ==> w[k] == ShiftWord(old(w[k]), old(w[k - 1]))
        invariant forall k :: 0 <= k <= i ==> w[k] == old(w[k])
      {
        w[i] := ShiftWord(w[i], w[i - 1]);
        i := i - 1;
      }
      w[0] := ShiftIn64(w[0], taken);
      WordsPushed(old(w[..]), w[..], taken);
      assert Bits() == Flat(w[..]);
      assert old(Bits()) == Flat(old(w[..]));
    }
  }

  /** The bits of eight words, lowest word first. */
  ghost function Flat(ws: seq<Word>): (h: Hist)
    requires |ws| == NW
    ensures forall i :: 0 <= i < HIST_BITS ==> h[i] == ws[i / 64][i % 64]
  {
    seq(HIST_BITS, i requires 0 <= i < HIST_BITS => ws[i / 64][i % 64])
  }

  lemma {:induction false} WordsPushed(a: seq<Word>, b: seq<Word>, taken: bool)
    requires |a| == NW && |b| == NW
    requires b[0] == HistReg.ShiftIn64(a[0], taken)
    requires forall k :: 0 < k < NW ==> b[k] == HistReg.ShiftWord(a[k], a[k - 1])
    ensures Flat(b) == PushHist(Flat(a), taken)
  {
    hide HistReg.ShiftWord; hide HistReg.ShiftIn64; hide Flat;
    var x, y := Flat(b), PushHist(Flat(a), taken);
    forall k | 0 <= k < HIST_BITS ensures x[k] == y[k] {
      var q, m := k / 64, k % 64;
      assert x[k] == b[q][m];
      if q == 0 {
        assert b[0][m] == if m == 0 then taken else a[0][m - 1];
      } else {
        assert b[q] == HistReg.ShiftWord(a[q], a[q - 1]);
        assert b[q][m] == if m == 0 then a[q - 1][LANES - 1] else a[q][m - 1];
      }
      if k > 0 {
        assert y[k] == Flat(a)[k - 1];
        assert Flat(a)[k - 1] == a[(k - 1) / 64][(k - 1) % 64];
        assert if m > 0 then (k - 1) / 64 == q && (k - 1) % 64 == m - 1 else (k - 1) / 64 == q - 1 && (k - 1) % 64 == 63;
      }
    }
  }

  // ---- folding by definition ----

  /** Bit `b` of the folded history: the parity of the history bits i < olen with
      i mod tlen == b. */
  function FoldBit(h: Hist, olen: nat, tlen: nat, b: nat): bool
    requires tlen > 0
  {
    if olen == 0 then false
    else FoldBit(h, olen - 1, tlen, b) != ((olen - 1) % tlen == b && HistBit(h, olen - 1))
  }

  function Fold(h: Hist, olen: nat, tlen: nat): (f: Word)
    requires 0 < tlen <= LANES
    ensures forall b :: 0 <= b < LANES ==> f[b] == (b < tlen && FoldBit(h, olen, tlen, b))
  {
    seq(LANES, b requires 0 <= b < LANES => b < tlen && FoldBit(h, olen, tlen, b))
  }

  // ---- folding by update ----

  /** f = (f << 1) | bit, in 32 bits. */
  function ShiftIn(f: Word, bit: bool): (r: Word)
    ensures forall b :: 0 <= b < LANES ==> r[b] == ((0 < b < 32 && f[b - 1]) || (b == 0 && bit))
  {
    Or(And(Shl(f, 1), Low(32)), if bit then Low(1) else Zero())
  }

  /** f ^= bit << outp. */
  function MixOut(f: Word, bit: bool, outp: nat): (r: Word)
    ensures forall b :: 0 <= b < LANES ==> r[b] == (f[b] != (bit && b == outp && b < 32))
  {
    Xor(f, And(Shl(if bit then Low(1) else Zero(), outp), Low(32)))
  }

  /** f ^= f >> tlen; f &= mask. */
  function FoldBack(f: Word, tlen: nat): (r: Word)
    ensures forall b :: 0 <= b < LANES ==>
              r[b] == (b < (if tlen >= 32 then 32 else tlen) && (f[b] != (b + tlen < LANES && f[b + tlen])))
  {
    And(Xor(f, Shr(f, tlen)), if tlen >= 32 then Low(32) else Low(tlen))
  }

  /** The register update, `h` being the history after the push. */
  function UpdateFold(f: Word, h: Hist, olen: nat, tlen: nat): Word
    requires tlen > 0
  {
    FoldBack(MixOut(ShiftIn(f, HistBit(h, 0)), HistBit(h, olen), olen % tlen), tlen)
  }

  predicate Foldable(olen: nat, tlen: nat) { olen < HIST_BITS && 0 < tlen < 32 }

  function Prev(b: nat, tlen: nat): nat
    requires b < tlen
  {
    if b == 0 then tlen - 1 else b - 1
  }

  lemma {:induction false} PrevMod(i: nat, tlen: nat, b: nat)
    requires b < tlen && i > 0
    ensures (i - 1) % tlen == Prev(b, tlen) <==> i % tlen == b
  {
    var q, m := (i - 1) / tlen, (i - 1) % tlen;
    assert i - 1 == q * tlen + m;
    if m == tlen - 1 {
      assert (q + 1) * tlen == q * tlen + tlen;
      QuotientIs(i, tlen, q + 1, 0);
    } else {
      QuotientIs(i, tlen, q, m + 1);
    }
  }

  /** Pushing rotates the folded history by one, brings the new bit in and adds the bit
      that moves to position `o`. */
  lemma {:induction false} FoldPush(h: Hist, taken: bool, o: nat, tlen: nat, b: nat)
    requires o < HIST_BITS && b < tlen
    ensures FoldBit(PushHist(h, taken), o + 1, tlen, b)
            == (FoldBit(h, o, tlen, Prev(b, tlen)) != (b == 0 && taken))
  {
    var h' := PushHist(h, taken);
    if o == 0 {
      QuotientIs(0, tlen, 0, 0);
      assert FoldBit(h', 0, tlen, b) == false;
    } else {
      FoldPush(h, taken, o - 1, tlen, b);
      PrevMod(o, tlen, b);
      assert h'[o] == h[o - 1];
    }
  }

  /** The bits of one update of a register that holds `tlen` bits. */
  lemma {:induction false} UpdateBits(f: Word, h: Hist, olen: nat, tlen: nat, b: nat)
    requires Foldable(olen, tlen) && b < tlen
    requires forall k :: tlen <= k < LANES ==> !f[k]
    ensures UpdateFold(f, h, olen, tlen)[b]
            == ((f[Prev(b, tlen)] != (b == 0 && HistBit(h, 0))) != (b == olen % tlen && HistBit(h, olen)))
  {
    hide ShiftIn; hide MixOut; hide FoldBack; hide HistBit;
    var f1 := ShiftIn(f, HistBit(h, 0));
    var f2 := MixOut(f1, HistBit(h, olen), olen % tlen);
    assert olen % tlen < tlen;
    if b + tlen < LANES {
      assert f2[b + tlen] == f1[b + tlen];
      assert f1[b + tlen] == (b + tlen < 32 && f[b + tlen - 1]);
    }
    assert f1[b] == if b == 0 then HistBit(h, 0) else f[b - 1];
  }

  /** One push keeps register and definition in step. */
  lemma {:induction false} UpdateIsFold(h: Hist, taken: bool, olen: nat, tlen: nat)
    requires Foldable(olen, tlen)
    ensures UpdateFold(Fold(h, olen, tlen), PushHist(h, taken), olen, tlen) == Fold(PushHist(h, taken), olen, tlen)
  {
    hide UpdateFold; hide FoldBit; hide HistBit;
    var h' := PushHist(h, taken);
    var x, y := UpdateFold(Fold(h, olen, tlen), h', olen, tlen), Fold(h', olen, tlen);
    forall b | 0 <= b < LANES ensures x[b] == y[b] {
      if b < tlen {
        UpdateBits(Fold(h, olen, tlen), h', olen, tlen, b);
        FoldPush(h, taken, olen, tlen, b);
        FoldLast(h', olen, tlen, b);
        NewestBit(h, taken);
      } else {
        UpdateHigh(Fold(h, olen, tlen), h', olen, tlen, b);
      }
    }
  }

  lemma {:induction false} NewestBit(h: Hist, taken: bool)
    ensures HistBit(PushHist(h, taken), 0) == taken
  {
  }

  lemma {:induction false} FoldLast(h: Hist, olen: nat, tlen: nat, b: nat)
    requires tlen > 0
    ensures FoldBit(h, olen + 1, tlen, b) == (FoldBit(h, olen, tlen, b) != (olen % tlen == b && HistBit(h, olen)))
  {
  }

  lemma {:induction false} UpdateHigh(f: Word, h: Hist, olen: nat, tlen: nat, b: nat)
    requires Foldable(olen, tlen) && tlen <= b < LANES
    ensures !UpdateFold(f, h, olen, tlen)[b]
  {
  }

  // ---- every run ----

  /** The register after a sequence of outcomes, oldest first. */
  function HistAfter(outcomes: seq<bool>): Hist {
    if outcomes == [] then Reset()
    else PushHist(HistAfter(outcomes[..|outcomes| - 1]), outcomes[|outcomes| - 1])
  }

  function FoldAfter(outcomes: seq<bool>, olen: nat, tlen: nat): Word
    requires tlen > 0
  {
    if outcomes == [] then Zero()
    else UpdateFold(FoldAfter(outcomes[..|outcomes| - 1], olen, tlen), HistAfter(outcomes), olen, tlen)
  }

  /** The history register holds the last 512 outcomes. */
  lemma {:induction false} HistIsRecent(outcomes: seq<bool>, i: nat)
    requires i < HIST_BITS
    ensures HistBit(HistAfter(outcomes), i) == (i < |outcomes| && outcomes[|outcomes| - 1 - i])
    decreases |outcomes|
  {
    if outcomes != [] && i > 0 {
      HistIsRecent(outcomes[..|outcomes| - 1], i - 1);
    }
  }

  lemma {:induction false} FoldEmpty(olen: nat, tlen: nat, b: nat)
    requires tlen > 0
    ensures !FoldBit(Reset(), olen, tlen, b)
  {
    if olen > 0 { FoldEmpty(olen - 1, tlen, b); }
  }

  /** After any outcomes the folded register equals its definition over the history. */
  lemma {:induction false} FoldedIsExact(outcomes: seq<bool>, olen: nat, tlen: nat)
    requires Foldable(olen, tlen)
    ensures FoldAfter(outcomes, olen, tlen) == Fold(HistAfter(outcomes), olen, tlen)
    decreases |outcomes|
  {
    hide UpdateFold; hide PushHist;
    if outcomes == [] {
      var x := Fold(Reset(), olen, tlen);
      forall b | 0 <= b < LANES ensures !x[b] { FoldEmpty(olen, tlen, b); }
      assert x == Zero();
    } else {
      var p := outcomes[..|outcomes| - 1];
      FoldedIsExact(p, olen, tlen);
      UpdateIsFold(HistAfter(p), outcomes[|outcomes| - 1], olen, tlen);
    }
  }

  class Folded {
    const olen: nat
    const tlen: nat
    const outp: nat
    var f: Word

    constructor (o: nat, t: nat)
      ensures olen == o && tlen == (if t < 1 then 1 else t) && outp == olen % tlen && f == Zero()
    {
      olen := o;
      tlen := if t < 1 then 1 else t;
      outp := o % (if t < 1 then 1 else t);
      f := Zero();
    }

    /** To be called after the push; keeps the register folded. */
    method Update(h: HistReg, ghost before: Hist, ghost taken: bool)
      requires Foldable(olen, tlen) && outp == olen % tlen && h.Valid()
      requires h.Bits() == PushHist(before, taken) && f == Fold(before, olen, tlen)
      modifies this
      ensures f == Fold(h.Bits(), olen, tlen)
    {
      hide ShiftIn; hide MixOut; hide FoldBack; hide Fold;
      var b0 := h.Bit(0);
      var bo := h.Bit(olen);
      f := ShiftIn(f, b0);
      f := MixOut(f, bo, outp);
      f := FoldBack(f, tlen);
      UpdateIsFold(before, taken, olen, tlen);
    }
  }
}
