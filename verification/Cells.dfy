/** The lowering of word-level cells to the bitwise IR (tools/bstm-cc/bstm_cc/cells.py): each
    method builds nodes, and what they compute in every lane is what the cell means. */
module Cells {
  import opened Arith
  import opened Numbers
  import opened Builder
  import opened IrWords
  import opened CellsSpec

  datatype Outcome<T> = Lowered(value: T) | Unsupported

  // ---- multiplexers, elementwise ----

  /** One `v_mux` a bit: s ? ys : xs. */
  method MuxAll(d: Dag, s: nat, xs: seq<nat>, ys: seq<nat>, w: nat) returns (r: seq<nat>)
    requires d.Valid() && s < |d.nodes| && InGraph(d.nodes, xs) && InGraph(d.nodes, ys)
    requires |xs| >= w && |ys| >= w
    modifies d
    ensures d.Valid() && Extends(old(d.nodes), d.nodes)
    ensures |r| == w && InGraph(d.nodes, r)
    ensures forall e :: Bools(d.nodes, r, e)
                        == if Val(old(d.nodes), s, e) then Bools(old(d.nodes), ys, e)[..w] else Bools(old(d.nodes), xs, e)[..w]
  {
    hide Graph; hide Val;
    PrefixExtends(d.nodes, d.nodes);
    r := [];
    for i := 0 to w
      invariant d.Valid() && Extends(old(d.nodes), d.nodes)
      invariant |r| == i && InGraph(d.nodes, r)
      invariant forall e, k :: 0 <= k < i ==>
                  Bools(d.nodes, r, e)[k]
                  == if Val(old(d.nodes), s, e) then Val(old(d.nodes), ys[k], e) else Val(old(d.nodes), xs[k], e)
    {
      ghost var before := d.nodes;
      var x := d.VMux(s, xs[i], ys[i]);
      ExtendsTrans(old(d.nodes), before, d.nodes);
      BoolsExtend(before, d.nodes, r);
      MuxStep(old(d.nodes), d.nodes, s, xs[i], ys[i], x);
      r := r + [x];
    }
    MuxFrom(old(d.nodes), d.nodes, s, xs, ys, w, r);
  }

  lemma {:induction false} MuxStep(ns: seq<Node>, ns': seq<Node>, s: nat, a: nat, b: nat, x: nat)
    requires Graph(ns) && Graph(ns') && Extends(ns, ns')
    requires s < |ns| && a < |ns| && b < |ns| && x < |ns'|
    requires forall e :: Val(ns', x, e) == if Val(ns', s, e) then Val(ns', b, e) else Val(ns', a, e)
    ensures forall e :: Val(ns', x, e) == if Val(ns, s, e) then Val(ns, b, e) else Val(ns, a, e)
  {
    hide Graph; hide Val;
  }

  lemma {:induction false} MuxFrom(ns: seq<Node>, ns': seq<Node>, s: nat, xs: seq<nat>, ys: seq<nat>, w: nat, r: seq<nat>)
    requires Graph(ns) && Graph(ns') && InGraph(ns, xs) && InGraph(ns, ys) && InGraph(ns', r)
    requires s < |ns| && |r| == w && |xs| >= w && |ys| >= w
    requires forall e, k :: 0 <= k < w ==>
               Bools(ns', r, e)[k] == if Val(ns, s, e) then Val(ns, ys[k], e) else Val(ns, xs[k], e)
    ensures forall e :: Bools(ns', r, e) == if Val(ns, s, e) then Bools(ns, ys, e)[..w] else Bools(ns, xs, e)[..w]
  {
    hide Graph; hide Val;
    forall e
      ensures Bools(ns', r, e) == if Val(ns, s, e) then Bools(ns, ys, e)[..w] else Bools(ns, xs, e)[..w]
    {
      var l, m := Bools(ns', r, e), if Val(ns, s, e) then Bools(ns, ys, e)[..w] else Bools(ns, xs, e)[..w];
      assert forall k :: 0 <= k < w ==> l[k] == m[k];
    }
  }

  // ---- shifts ----

  function BitLength(n: nat): nat { if n == 0 then 0 else 1 + BitLength(n / 2) }

  /** How many low bits of the amount can shift by part of the width. Python's bit_length of
      -1 is 1, as that of 1. */
  function Useful(w: nat): nat {
    var l := if w == 0 then 1 else BitLength(w - 1);
    if l < 1 then 1 else l
  }

  lemma {:induction false} BitLengthIs(n: nat)
    requires n > 0
    ensures BitLength(n) >= 1 && Pow2(BitLength(n) - 1) <= n < Pow2(BitLength(n))
    decreases n
  {
    if n > 1 { BitLengthIs(n / 2); }
  }

  /** A power of two below the useful bits fits in the width, and all of them together
      reach it. */
  lemma {:induction false} UsefulCovers(w: nat, j: nat)
    requires j < Useful(w)
    ensures w == 0 || Pow2(j) <= w
    ensures Pow2(Useful(w)) >= w
  {
    if w >= 2 {
      BitLengthIs(w - 1);
      Pow2Mono(j, Useful(w) - 1);
    }
  }

  /** Python's `s[n:]` for n >= 0 and `s[:n]` for any n. */
  function From(s: seq<nat>, n: nat): seq<nat> { if n <= |s| then s[n..] else [] }

  function Until(s: seq<nat>, n: int): seq<nat> {
    if n >= |s| then s else if n >= 0 then s[..n] else if |s| + n >= 0 then s[..|s| + n] else []
  }

  function Repeat(v: nat, n: nat): (r: seq<nat>)
    ensures |r| == n
  {
    seq(n, _ => v)
  }

  /** One stage of the barrel: all bits moved by `amt` places. */
  function Moved(cur: seq<nat>, amt: nat, right: bool, fill: nat): seq<nat> {
    if right then From(cur, amt) + Repeat(fill, amt) else Repeat(CONST0, amt) + Until(cur, |cur| - amt)
  }

  lemma {:induction false} MovedIs(ns: seq<Node>, cur: seq<nat>, amt: nat, right: bool, fill: nat)
    requires Graph(ns) && InGraph(ns, cur) && fill < |ns| && (|cur| == 0 || amt <= |cur|)
    ensures |Moved(cur, amt, right, fill)| >= |cur| && InGraph(ns, Moved(cur, amt, right, fill))
    ensures forall e :: Bools(ns, Moved(cur, amt, right, fill), e)[..|cur|]
                        == Shifted(Bools(ns, cur, e), amt, right, Val(ns, fill, e))
  {
    hide Val; hide Graph;
    GraphSize(ns);
    ConstVals(ns);
    forall e
      ensures Bools(ns, Moved(cur, amt, right, fill), e)[..|cur|]
              == Shifted(Bools(ns, cur, e), amt, right, Val(ns, fill, e))
    {
      if right { MovedRight(ns, cur, amt, fill, e); } else { MovedLeft(ns, cur, amt, fill, e); }
    }
  }

  lemma {:induction false} MovedRight(ns: seq<Node>, cur: seq<nat>, amt: nat, fill: nat, e: Env)
    requires Graph(ns) && InGraph(ns, cur) && fill < |ns| && InGraph(ns, Moved(cur, amt, true, fill))
    requires |Moved(cur, amt, true, fill)| >= |cur| && (|cur| == 0 || amt <= |cur|)
    ensures Bools(ns, Moved(cur, amt, true, fill), e)[..|cur|] == Shifted(Bools(ns, cur, e), amt, true, Val(ns, fill, e))
  {
    hide Val; hide Graph;
    var l, r := Bools(ns, Moved(cur, amt, true, fill), e)[..|cur|], Shifted(Bools(ns, cur, e), amt, true, Val(ns, fill, e));
    assert forall i :: 0 <= i < |cur| ==> l[i] == r[i];
  }

  lemma {:induction false} MovedLeft(ns: seq<Node>, cur: seq<nat>, amt: nat, fill: nat, e: Env)
    requires Graph(ns) && InGraph(ns, cur) && fill < |ns| && InGraph(ns, Moved(cur, amt, false, fill))
    requires |Moved(cur, amt, false, fill)| >= |cur| && (|cur| == 0 || amt <= |cur|)
    ensures Bools(ns, Moved(cur, amt, false, fill), e)[..|cur|] == Shifted(Bools(ns, cur, e), amt, false, Val(ns, fill, e))
  {
    hide Val; hide Graph;
    ConstVals(ns);
    var l, r := Bools(ns, Moved(cur, amt, false, fill), e)[..|cur|], Shifted(Bools(ns, cur, e), amt, false, Val(ns, fill, e));
    assert forall i :: 0 <= i < |cur| ==> l[i] == r[i];
  }

  lemma {:induction false} ShiftStage(A: seq<bool>, B: seq<bool>, j: nat, right: bool, fill: bool)
    requires j < |B|
    ensures Shifted(A, Num(B[..j + 1]), right, fill)
            == if B[j] then Shifted(Shifted(A, Num(B[..j]), right, fill), Pow2(j), right, fill)
               else Shifted(A, Num(B[..j]), right, fill)
  {
    hide Num; hide Shifted;
    assert B[..j + 1] == B[..j] + [B[j]];
    NumSnoc(B[..j], B[j]);
    ShiftedTwice(A, Num(B[..j]), Pow2(j), right, fill);
  }

  /** The stages for the useful bits of the amount. */
  method Barrel(d: Dag, A: seq<nat>, B: seq<nat>, n: nat, right: bool, fill: nat) returns (cur: seq<nat>)
    requires d.Valid() && InGraph(d.nodes, A) && InGraph(d.nodes, B) && fill < |d.nodes|
    requires n <= |B| && n <= Useful(|A|)
    modifies d
    ensures d.Valid() && Extends(old(d.nodes), d.nodes)
    ensures |cur| == |A| && InGraph(d.nodes, cur)
    ensures forall e :: Bools(d.nodes, cur, e)
                        == Shifted(Bools(old(d.nodes), A, e), Num(Bools(old(d.nodes), B, e)[..n]), right,
                                   Val(old(d.nodes), fill, e))
  {
    hide Graph; hide Val; hide Num; hide Shifted; hide Moved; hide Useful;
    PrefixExtends(d.nodes, d.nodes);
    ShiftNone(d.nodes, A, B, right, fill);
    cur := A;
    for j := 0 to n
      invariant d.Valid() && Extends(old(d.nodes), d.nodes)
      invariant |cur| == |A| && InGraph(d.nodes, cur)
      invariant forall e :: Bools(d.nodes, cur, e)
                  == Shifted(Bools(old(d.nodes), A, e), Num(Bools(old(d.nodes), B, e)[..j]), right, Val(old(d.nodes), fill, e))
    {
      ghost var before := d.nodes;
      UsefulCovers(|A|, j);
      MovedIs(d.nodes, cur, Pow2(j), right, fill);
      ghost var was := cur;
      cur := MuxAll(d, B[j], cur, Moved(cur, Pow2(j), right, fill), |A|);
      ExtendsTrans(old(d.nodes), before, d.nodes);
      StageDone(old(d.nodes), before, d.nodes, A, B, j, right, fill, was, Moved(was, Pow2(j), right, fill), cur);
    }
  }

  lemma {:induction false} ShiftNone(ns: seq<Node>, A: seq<nat>, B: seq<nat>, right: bool, fill: nat)
    requires Graph(ns) && InGraph(ns, A) && InGraph(ns, B) && fill < |ns|
    ensures forall e :: Bools(ns, A, e) == Shifted(Bools(ns, A, e), Num(Bools(ns, B, e)[..0]), right, Val(ns, fill, e))
  {
    hide Graph; hide Val;
    forall e
      ensures Bools(ns, A, e) == Shifted(Bools(ns, A, e), Num(Bools(ns, B, e)[..0]), right, Val(ns, fill, e))
    {
      assert Bools(ns, B, e)[..0] == [];
    }
  }

  lemma {:induction false} StageDone(o: seq<Node>, b: seq<Node>, n: seq<Node>, A: seq<nat>, B: seq<nat>, j: nat,
                  right: bool, fill: nat, was: seq<nat>, moved: seq<nat>, cur: seq<nat>)
    requires Graph(o) && Graph(b) && Graph(n) && Extends(o, b)
    requires InGraph(o, A) && InGraph(o, B) && fill < |o| && j < |B|
    requires InGraph(b, was) && InGraph(b, moved) && InGraph(n, cur)
    requires |was| == |cur| == |A| <= |moved|
    requires forall e :: Bools(b, was, e) == Shifted(Bools(o, A, e), Num(Bools(o, B, e)[..j]), right, Val(o, fill, e))
    requires forall e :: Bools(b, moved, e)[..|was|] == Shifted(Bools(b, was, e), Pow2(j), right, Val(b, fill, e))
    requires forall e :: Bools(n, cur, e) == if Val(b, B[j], e) then Bools(b, moved, e)[..|A|] else Bools(b, was, e)[..|A|]
    ensures forall e :: Bools(n, cur, e) == Shifted(Bools(o, A, e), Num(Bools(o, B, e)[..j + 1]), right, Val(o, fill, e))
  {
    hide Graph; hide Val; hide Num; hide Shifted;
    forall e
      ensures Bools(n, cur, e) == Shifted(Bools(o, A, e), Num(Bools(o, B, e)[..j + 1]), right, Val(o, fill, e))
    {
      ShiftStage(Bools(o, A, e), Bools(o, B, e), j, right, Val(o, fill, e));
      assert Val(b, fill, e) == Val(o, fill, e) && Val(b, B[j], e) == Val(o, B[j], e);
      assert Bools(b, was, e)[..|A|] == Bools(b, was, e);
    }
  }

  /** What comes in from the left of an arithmetic right shift. */
  ghost function FillOf(A: seq<bool>, arith: bool, aSigned: bool): bool {
    arith && aSigned && A != [] && A[|A| - 1]
  }

  /** The shift as the lowering does it: A brought to the output width first. */
  ghost function CutShift(A: seq<bool>, w: nat, k: nat, right: bool, arith: bool, signed: bool): seq<bool> {
    var X := Extend(A, w, signed, false);
    Shifted(X, k, right, FillOf(X, arith, signed))
  }

  /** The shift of the whole of A, cut to the output width afterwards. */
  ghost function WholeShift(A: seq<bool>, w: nat, k: nat, right: bool, arith: bool, signed: bool): seq<bool> {
    var X := Extend(A, if |A| > w then |A| else w, signed, false);
    Shifted(X, k, right, FillOf(X, arith, signed))[..w]
  }

  /** Cutting A before a left shift is harmless. Before a right shift it is harmless for every
      amount exactly when every bit cut off is what the shift brings in instead. */
  lemma {:induction false} CutFirstIff(A: seq<bool>, w: nat, right: bool, arith: bool, signed: bool)
    ensures (forall k: nat :: CutShift(A, w, k, right, arith, signed) == WholeShift(A, w, k, right, arith, signed))
            <==> !right || w == 0 || |A| <= w
                 || forall j :: w <= j < |A| ==> A[j] == FillOf(A[..w], arith, signed)
  {
    if right && 0 < w < |A| {
      var fill := FillOf(A[..w], arith, signed);
      if j :| w <= j < |A| && A[j] != fill {
        var k: nat := j - w + 1;
        assert CutShift(A, w, k, right, arith, signed)[w - 1] == fill;
        assert WholeShift(A, w, k, right, arith, signed)[w - 1] == A[j];
      }
    }
  }

  /** cells.py:292-317: for every pair of widths, a shift of A at the output width by the
      whole unsigned value of B. */
  method Shift(d: Dag, A0: seq<nat>, B: seq<nat>, w: nat, aSigned: bool, bSigned: bool, right: bool, arith: bool)
    returns (r: Outcome<seq<nat>>)
    requires d.Valid() && InGraph(d.nodes, A0) && InGraph(d.nodes, B)
    modifies d
    ensures d.Valid() && Extends(old(d.nodes), d.nodes)
    ensures r.Unsupported? <==> bSigned
    ensures r.Lowered? ==> |r.value| == w && InGraph(d.nodes, r.value)
    ensures r.Lowered? ==> forall e ::
      var A := Extend(Bools(old(d.nodes), A0, e), w, aSigned, false);
      Bools(d.nodes, r.value, e) == Shifted(A, Num(Bools(old(d.nodes), B, e)), right, FillOf(A, arith, aSigned))
  {
    hide Graph; hide Val; hide Num; hide Shifted; hide Extend; hide Fold;
    PrefixExtends(d.nodes, d.nodes);
    GraphSize(d.nodes);
    ConstVals(d.nodes);
    BoolsOfExtend(d.nodes, A0, w, aSigned);
    var A := Extend(A0, w, aSigned, CONST0);
    var fill := if arith && aSigned && A != [] then A[|A| - 1] else CONST0;
    if bSigned { return Unsupported; }
    var useful := Useful(w);
    ghost var ns := d.nodes;
    var n := if |B| < useful then |B| else useful;
    var cur := Barrel(d, A, B, n, right, fill);
    if |B| > useful {
      cur := Overflow(ns, d, A, B, right, fill, cur);
    } else {
      WholeAmount(ns, B, n);
    }
    r := Lowered(cur);
  }

  /** The rest of the amount: any set bit there shifts everything out. */
  method Overflow(ghost ns: seq<Node>, d: Dag, A: seq<nat>, B: seq<nat>, right: bool, fill: nat, cur0: seq<nat>)
    returns (cur: seq<nat>)
    requires d.Valid() && Graph(ns) && Extends(ns, d.nodes)
    requires InGraph(ns, A) && InGraph(ns, B) && fill < |ns| && Useful(|A|) < |B|
    requires InGraph(d.nodes, cur0) && |cur0| == |A|
    requires forall e :: Bools(d.nodes, cur0, e)
                         == Shifted(Bools(ns, A, e), Num(Bools(ns, B, e)[..Useful(|A|)]), right, Val(ns, fill, e))
    modifies d
    ensures d.Valid() && Extends(old(d.nodes), d.nodes)
    ensures |cur| == |A| && InGraph(d.nodes, cur)
    ensures forall e :: Bools(d.nodes, cur, e) == Shifted(Bools(ns, A, e), Num(Bools(ns, B, e)), right, Val(ns, fill, e))
  {
    hide Graph; hide Val; hide Num; hide Shifted; hide Fold; hide Useful;
    GraphSize(d.nodes);
    var useful := Useful(|A|);
    ghost var n1 := d.nodes;
    BoolsExtend(ns, n1, B);
    var over := ReduceTree(d, OrGate, B[useful..]);
    ghost var n2 := d.nodes;
    BoolsExtend(n1, n2, cur0);
    BoolsExtend(n1, n2, B[useful..]);
    ExtendsTrans(ns, n1, n2);
    var rep := Repeat(if right then fill else CONST0, |A|);
    cur := MuxAll(d, over, cur0, rep, |A|);
    ExtendsTrans(n1, n2, d.nodes);
    OverStage(ns, n2, d.nodes, A, B, useful, right, fill, cur0, over, rep, cur);
  }

  lemma {:induction false} WholeAmount(ns: seq<Node>, B: seq<nat>, n: nat)
    requires Graph(ns) && InGraph(ns, B) && n == |B|
    ensures forall e :: Bools(ns, B, e)[..n] == Bools(ns, B, e)
  {
  }

  /** A set bit above the useful ones shifts everything out. */
  lemma {:induction false} OverStage(o: seq<Node>, b: seq<Node>, n: seq<Node>, A: seq<nat>, B: seq<nat>, useful: nat,
                  right: bool, fill: nat, was: seq<nat>, over: nat, rep: seq<nat>, cur: seq<nat>)
    requires Graph(o) && Graph(b) && Graph(n) && Extends(o, b)
    requires InGraph(o, A) && InGraph(o, B) && fill < |o| && useful == Useful(|A|) < |B|
    requires InGraph(b, was) && InGraph(b, rep) && InGraph(n, cur) && over < |b| && InGraph(b, B[useful..])
    requires |was| == |cur| == |A| && rep == Repeat(if right then fill else CONST0, |A|)
    requires forall e :: Bools(b, was, e) == Shifted(Bools(o, A, e), Num(Bools(o, B, e)[..useful]), right, Val(o, fill, e))
    requires forall e :: Val(b, over, e) == Fold(OrGate, Bools(b, B[useful..], e))
    requires forall e :: Bools(n, cur, e) == if Val(b, over, e) then Bools(b, rep, e)[..|A|] else Bools(b, was, e)[..|A|]
    ensures forall e :: Bools(n, cur, e) == Shifted(Bools(o, A, e), Num(Bools(o, B, e)), right, Val(o, fill, e))
  {
    hide Graph; hide Val; hide Num; hide Shifted; hide Fold;
    ConstVals(o);
    UsefulCovers(|A|, 0);
    forall e
      ensures Bools(n, cur, e) == Shifted(Bools(o, A, e), Num(Bools(o, B, e)), right, Val(o, fill, e))
    {
      var bv, f := Bools(o, B, e), Val(o, fill, e);
      assert Bools(b, B[useful..], e) == bv[useful..];
      FoldOr(bv[useful..]);
      NumSplit(bv, useful);
      assert Bools(b, was, e)[..|A|] == Bools(b, was, e);
      if Val(b, over, e) {
        MulMono(1, Num(bv[useful..]), Pow2(useful));
        OverShift(Bools(o, A, e), Num(bv), right, f);
        assert Val(b, if right then fill else CONST0, e) == (right && f);
        assert Bools(b, rep, e)[..|A|] == seq(|A|, _ => right && f);
      }
    }
  }
}
