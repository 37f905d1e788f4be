/** The selecting cells of tools/bstm-cc/bstm_cc/cells.py: binary and priority multiplexers,
    the demultiplexer. */
module CellsSelect {
  import opened Options
  import opened Arith
  import opened Numbers
  import opened Builder
  import opened IrWords
  import opened CellsSpec
  import opened Cells

  // ---- binary select ----

  /** A list of lists of entries, each `w` long. */
  predicate Table(ns: seq<Node>, sel: seq<seq<nat>>, w: nat) {
    forall k :: 0 <= k < |sel| ==> |sel[k]| == w && InGraph(ns, sel[k])
  }

  /** Entry `k` of the table is the piece of A that the select bits consumed so far leave. */
  ghost predicate Selected(o: seq<Node>, n: seq<Node>, A: seq<nat>, S: seq<nat>, w: nat, si: nat, sel: seq<seq<nat>>)
    requires Graph(o) && Graph(n) && InGraph(o, A) && InGraph(o, S) && si <= |S| && Table(n, sel, w)
  {
    forall k, e :: 0 <= k < |sel| ==>
      Bools(n, sel[k], e) == Chunk(Bools(o, A, e), PieceIndex(k, si, Bools(o, S, e)), w)
  }

  /** The low `si` select bits, with `k` above them. */
  function PieceIndex(k: nat, si: nat, S: seq<bool>): nat
    requires si <= |S|
  {
    k * Pow2(si) + Num(S[..si])
  }

  lemma {:induction false} PieceIndexZero(k: nat, S: seq<bool>)
    ensures PieceIndex(k, 0, S) == k
  {
    var none := S[..0];
    assert none == [];
  }

  lemma {:induction false} PieceIndexStep(t: nat, si: nat, S: seq<bool>)
    requires si < |S|
    ensures PieceIndex(t, si + 1, S) == PieceIndex(if S[si] then 2 * t + 1 else 2 * t, si, S)
  {
    assert S[..si + 1] == S[..si] + [S[si]];
    NumSnoc(S[..si], S[si]);
    PairIndex(t, Pow2(si));
  }

  /** cells.py:230-239: the piece of A whose index is the binary value of S. */
  method BmuxBits(d: Dag, A: seq<nat>, S: seq<nat>, w: nat) returns (r: seq<nat>)
    requires d.Valid() && InGraph(d.nodes, A) && InGraph(d.nodes, S) && |A| >= Pow2(|S|) * w
    modifies d
    ensures d.Valid() && Extends(old(d.nodes), d.nodes) && |r| == w && InGraph(d.nodes, r)
    ensures forall e :: Bools(d.nodes, r, e) == Chunk(Bools(old(d.nodes), A, e), Num(Bools(old(d.nodes), S, e)), w)
  {
    hide Graph; hide Val; hide Num; hide Chunk; hide Selected;
    PrefixExtends(d.nodes, d.nodes);
    var n := Pow2(|S|);
    var sel := [];
    for k := 0 to n
      invariant |sel| == k && Table(d.nodes, sel, w)
      invariant forall j :: 0 <= j < k ==> PieceFits(|A|, n, w, j) && sel[j] == A[j * w..(j + 1) * w]
      invariant d.nodes == old(d.nodes) && d.Valid()
    {
      PieceBounds(|A|, n, w, k);
      sel := sel + [A[k * w..(k + 1) * w]];
    }
    PiecesSelected(d.nodes, A, S, w, sel);
    for si := 0 to |S|
      invariant d.Valid() && Extends(old(d.nodes), d.nodes)
      invariant |sel| == Pow2(|S| - si) && Table(d.nodes, sel, w)
      invariant Selected(old(d.nodes), d.nodes, A, S, w, si, sel)
    {
      ghost var before := d.nodes;
      assert |sel| == 2 * Pow2(|S| - si - 1);
      ghost var was := sel;
      sel := Halve(d, S[si], sel, w);
      ExtendsTrans(old(d.nodes), before, d.nodes);
      HalvedSelected(old(d.nodes), before, d.nodes, A, S, w, si, was, sel);
    }
    r := sel[0];
    SelectedAll(old(d.nodes), d.nodes, A, S, w, sel);
  }

  predicate PieceFits(a: nat, n: nat, w: nat, k: nat) { 0 <= k * w <= (k + 1) * w <= a }

  lemma {:induction false} PieceBounds(a: nat, n: nat, w: nat, k: nat)
    requires a >= n * w && k < n
    ensures PieceFits(a, n, w, k) && (k + 1) * w - k * w == w
  {
    MulMono(k + 1, n, w);
  }

  lemma {:induction false} PiecesSelected(ns: seq<Node>, A: seq<nat>, S: seq<nat>, w: nat, sel: seq<seq<nat>>)
    requires Graph(ns) && InGraph(ns, A) && InGraph(ns, S) && Table(ns, sel, w) && |sel| == Pow2(|S|)
    requires |A| >= |sel| * w
    requires forall j :: 0 <= j < |sel| ==> PieceFits(|A|, |sel|, w, j) && sel[j] == A[j * w..(j + 1) * w]
    ensures Selected(ns, ns, A, S, w, 0, sel)
  {
    hide Graph; hide Val; hide PieceIndex; hide Chunk; hide PieceFits;
    forall k, e | 0 <= k < |sel|
      ensures Bools(ns, sel[k], e) == Chunk(Bools(ns, A, e), PieceIndex(k, 0, Bools(ns, S, e)), w)
    {
      PieceIndexZero(k, Bools(ns, S, e));
      PieceBounds(|A|, |sel|, w, k);
      PieceIs(ns, A, w, k, sel[k], e);
    }
  }

  lemma {:induction false} PieceIs(ns: seq<Node>, A: seq<nat>, w: nat, k: nat, piece: seq<nat>, e: Env)
    requires Graph(ns) && InGraph(ns, A) && InGraph(ns, piece)
    requires 0 <= k * w <= (k + 1) * w <= |A| && (k + 1) * w - k * w == w && piece == A[k * w..(k + 1) * w]
    ensures Bools(ns, piece, e) == Chunk(Bools(ns, A, e), k, w)
  {
    hide Graph; hide Val;
  }

  /** One round: neighbours muxed on one select bit. */
  method Halve(d: Dag, s: nat, sel: seq<seq<nat>>, w: nat) returns (next: seq<seq<nat>>)
    requires d.Valid() && s < |d.nodes| && Table(d.nodes, sel, w) && |sel| % 2 == 0
    modifies d
    ensures d.Valid() && Extends(old(d.nodes), d.nodes)
    ensures |next| == |sel| / 2 && Table(d.nodes, next, w)
    ensures forall t, e :: 0 <= t < |next| ==>
              Bools(d.nodes, next[t], e)
              == if Val(old(d.nodes), s, e) then Bools(old(d.nodes), sel[2 * t + 1], e) else Bools(old(d.nodes), sel[2 * t], e)
  {
    hide Graph; hide Val;
    PrefixExtends(d.nodes, d.nodes);
    next := [];
    var k := 0;
    while k < |sel|
      invariant 0 <= k <= |sel| && k % 2 == 0 && |next| == k / 2
      invariant d.Valid() && Extends(old(d.nodes), d.nodes) && Table(d.nodes, next, w)
      invariant forall t, e :: 0 <= t < |next| ==>
                  Bools(d.nodes, next[t], e)
                  == if Val(old(d.nodes), s, e) then Bools(old(d.nodes), sel[2 * t + 1], e)
                     else Bools(old(d.nodes), sel[2 * t], e)
    {
      ghost var before := d.nodes;
      BoolsExtend(old(d.nodes), before, sel[k]);
      BoolsExtend(old(d.nodes), before, sel[k + 1]);
      var x := MuxAll(d, s, sel[k], sel[k + 1], w);
      ExtendsTrans(old(d.nodes), before, d.nodes);
      TableExtends(before, d.nodes, next, w);
      FullSlices(old(d.nodes), sel[k], sel[k + 1], w);
      next := next + [x];
      k := k + 2;
    }
  }

  lemma {:induction false} FullSlices(ns: seq<Node>, a: seq<nat>, b: seq<nat>, w: nat)
    requires Graph(ns) && InGraph(ns, a) && InGraph(ns, b) && |a| == |b| == w
    ensures forall e :: Bools(ns, a, e)[..w] == Bools(ns, a, e)
    ensures forall e :: Bools(ns, b, e)[..w] == Bools(ns, b, e)
  {
    hide Graph; hide Val;
  }

  lemma {:induction false} TableExtends(ns: seq<Node>, ns': seq<Node>, sel: seq<seq<nat>>, w: nat)
    requires Graph(ns) && Graph(ns') && Extends(ns, ns') && Table(ns, sel, w)
    ensures Table(ns', sel, w)
    ensures forall t, e :: 0 <= t < |sel| ==> Bools(ns', sel[t], e) == Bools(ns, sel[t], e)
  {
    hide Graph; hide Val;
    forall t, e | 0 <= t < |sel|
      ensures InGraph(ns', sel[t]) && Bools(ns', sel[t], e) == Bools(ns, sel[t], e)
    {
      BoolsExtend(ns, ns', sel[t]);
    }
  }

  lemma {:induction false} HalvedSelected(o: seq<Node>, b: seq<Node>, n: seq<Node>, A: seq<nat>, S: seq<nat>, w: nat, si: nat,
                       was: seq<seq<nat>>, sel: seq<seq<nat>>)
    requires Graph(o) && Graph(b) && Graph(n) && Extends(o, b)
    requires InGraph(o, A) && InGraph(o, S) && si < |S| && Table(b, was, w) && Table(n, sel, w)
    requires |was| == 2 * |sel| && Selected(o, b, A, S, w, si, was)
    requires forall t, e :: 0 <= t < |sel| ==>
               Bools(n, sel[t], e) == if Val(b, S[si], e) then Bools(b, was[2 * t + 1], e) else Bools(b, was[2 * t], e)
    ensures Selected(o, n, A, S, w, si + 1, sel)
  {
    hide Graph; hide Val; hide Chunk; hide PieceIndex;
    forall t, e | 0 <= t < |sel|
      ensures Bools(n, sel[t], e) == Chunk(Bools(o, A, e), PieceIndex(t, si + 1, Bools(o, S, e)), w)
    {
      PieceIndexStep(t, si, Bools(o, S, e));
      assert Val(b, S[si], e) == Bools(o, S, e)[si];
    }
  }

  lemma {:induction false} PairIndex(t: nat, p: nat)
    ensures (2 * t) * p == t * (2 * p) && (2 * t + 1) * p == t * (2 * p) + p
  {
  }

  lemma {:induction false} SelectedAll(o: seq<Node>, n: seq<Node>, A: seq<nat>, S: seq<nat>, w: nat, sel: seq<seq<nat>>)
    requires Graph(o) && Graph(n) && InGraph(o, A) && InGraph(o, S) && Table(n, sel, w) && |sel| >= 1
    requires Selected(o, n, A, S, w, |S|, sel)
    ensures forall e :: Bools(n, sel[0], e) == Chunk(Bools(o, A, e), Num(Bools(o, S, e)), w)
  {
    hide Graph; hide Val; hide Num; hide Chunk;
    forall e
      ensures Bools(n, sel[0], e) == Chunk(Bools(o, A, e), Num(Bools(o, S, e)), w)
    {
      assert Bools(o, S, e)[..|S|] == Bools(o, S, e);
      assert PieceIndex(0, |S|, Bools(o, S, e)) == Num(Bools(o, S, e));
    }
  }

  /** cells.py:242-251: too narrow an A is refused. */
  method Bmux(d: Dag, A: seq<nat>, S: seq<nat>, w: nat) returns (r: Outcome<seq<nat>>)
    requires d.Valid() && InGraph(d.nodes, A) && InGraph(d.nodes, S)
    modifies d
    ensures d.Valid() && Extends(old(d.nodes), d.nodes)
    ensures r.Unsupported? <==> |A| < Pow2(|S|) * w
    ensures r.Lowered? ==> |r.value| == w && InGraph(d.nodes, r.value)
    ensures r.Lowered? ==> forall e ::
              Bools(d.nodes, r.value, e)
              == Chunk(Bools(old(d.nodes), A, e), Num(Bools(old(d.nodes), S, e)), w)
  {
    hide Graph; hide Val; hide Num; hide Chunk;
    PrefixExtends(d.nodes, d.nodes);
    if |A| < Pow2(|S|) * w { return Unsupported; }
    var v := BmuxBits(d, A, S, w);
    r := Lowered(v);
  }

  // ---- priority select ----

  /** cells.py:268-287: the piece of B at the highest set select; A when none is set. */
  method Pmux(d: Dag, A0: seq<nat>, B: seq<nat>, S: seq<nat>, w: nat) returns (r: Outcome<seq<nat>>)
    requires d.Valid() && InGraph(d.nodes, A0) && InGraph(d.nodes, B) && InGraph(d.nodes, S)
    modifies d
    ensures d.Valid() && Extends(old(d.nodes), d.nodes)
    ensures r.Unsupported? <==> |B| < w * |S|
    ensures r.Lowered? ==> |r.value| == w && InGraph(d.nodes, r.value)
    ensures r.Lowered? ==> forall e ::
              Bools(d.nodes, r.value, e)
              == PmuxValue(Extend(Bools(old(d.nodes), A0, e), w, false, false),
                           Bools(old(d.nodes), B, e), Bools(old(d.nodes), S, e))
  {
    hide Graph; hide Val; hide Extend; hide PmuxValue;
    PrefixExtends(d.nodes, d.nodes);
    if |B| < w * |S| { return Unsupported; }
    BoolsOfExtend(d.nodes, A0, w, false);
    var A := Extend(A0, w, false, CONST0);
    PmuxNone(d.nodes, A, B, S);
    var out := A;
    for j := 0 to |S|
      invariant d.Valid() && Extends(old(d.nodes), d.nodes) && |out| == w && InGraph(d.nodes, out)
      invariant forall e :: Bools(d.nodes, out, e)
                  == PmuxValue(Bools(old(d.nodes), A, e), Bools(old(d.nodes), B, e), Bools(old(d.nodes), S, e)[..j])
    {
      ghost var before := d.nodes;
      PieceBounds(|B|, |S|, w, j);
      var piece := B[j * w..(j + 1) * w];
      ghost var was := out;
      out := MuxAll(d, S[j], out, piece, w);
      ExtendsTrans(old(d.nodes), before, d.nodes);
      PmuxStage(old(d.nodes), before, d.nodes, A, B, S, w, j, was, piece, out);
    }
    PmuxWhole(old(d.nodes), S);
    r := Lowered(out);
  }

  lemma {:induction false} PmuxNone(ns: seq<Node>, A: seq<nat>, B: seq<nat>, S: seq<nat>)
    requires Graph(ns) && InGraph(ns, A) && InGraph(ns, B) && InGraph(ns, S)
    ensures forall e :: Bools(ns, A, e) == PmuxValue(Bools(ns, A, e), Bools(ns, B, e), Bools(ns, S, e)[..0])
  {
    hide Graph; hide Val;
  }

  lemma {:induction false} PmuxWhole(ns: seq<Node>, S: seq<nat>)
    requires Graph(ns) && InGraph(ns, S)
    ensures forall e :: Bools(ns, S, e)[..|S|] == Bools(ns, S, e)
  {
    hide Graph; hide Val;
  }

  lemma {:induction false} PmuxStage(o: seq<Node>, b: seq<Node>, n: seq<Node>, A: seq<nat>, B: seq<nat>, S: seq<nat>, w: nat, j: nat,
                  was: seq<nat>, piece: seq<nat>, out: seq<nat>)
    requires Graph(o) && Graph(b) && Graph(n) && Extends(o, b)
    requires InGraph(o, A) && InGraph(o, B) && InGraph(o, S) && j < |S| && |A| == w
    requires PieceFits(|B|, |S|, w, j) && piece == B[j * w..(j + 1) * w] && (j + 1) * w - j * w == w
    requires InGraph(b, was) && InGraph(b, piece) && InGraph(n, out) && |was| == |out| == w
    requires forall e :: Bools(b, was, e) == PmuxValue(Bools(o, A, e), Bools(o, B, e), Bools(o, S, e)[..j])
    requires forall e :: Bools(n, out, e) == if Val(b, S[j], e) then Bools(b, piece, e)[..w] else Bools(b, was, e)[..w]
    ensures forall e :: Bools(n, out, e) == PmuxValue(Bools(o, A, e), Bools(o, B, e), Bools(o, S, e)[..j + 1])
  {
    hide Graph; hide Val; hide PmuxValue;
    forall e
      ensures Bools(n, out, e) == PmuxValue(Bools(o, A, e), Bools(o, B, e), Bools(o, S, e)[..j + 1])
    {
      PmuxStep(Bools(o, A, e), Bools(o, B, e), Bools(o, S, e), j);
      assert Val(b, S[j], e) == Bools(o, S, e)[j];
      PieceIs(o, B, w, j, piece, e);
      assert Bools(b, piece, e)[..w] == Bools(o, piece, e);
      assert Bools(b, was, e)[..w] == Bools(b, was, e);
    }
  }

  // ---- plain multiplexer ----

  /** cells.py:210-226: one select bit muxes A and B; several index the pieces of A, or of A
      and B laid end to end, when they are wide enough. */
  method CMux(d: Dag, A: seq<nat>, B: Option<seq<nat>>, S: seq<nat>, w: nat) returns (r: Outcome<seq<nat>>)
    requires d.Valid() && InGraph(d.nodes, A) && InGraph(d.nodes, S)
    requires B.Some? ==> InGraph(d.nodes, B.value)
    modifies d
    ensures d.Valid() && Extends(old(d.nodes), d.nodes)
    ensures r.Unsupported? <==> if |S| == 1 then B.None?
                                else |A| + (if B.Some? then |B.value| else 0) < Pow2(|S|) * w
    ensures r.Lowered? ==> |r.value| == w && InGraph(d.nodes, r.value)
    ensures r.Lowered? && |S| == 1 && B.Some? ==> forall e ::
              Bools(d.nodes, r.value, e)
              == Extend(if Val(old(d.nodes), S[0], e) then Bools(old(d.nodes), B.value, e) else Bools(old(d.nodes), A, e),
                        w, false, false)
    ensures r.Lowered? && |S| != 1 ==> forall e ::
              Bools(d.nodes, r.value, e)
              == Chunk(Bools(old(d.nodes), A, e) + (if B.Some? then Bools(old(d.nodes), B.value, e) else []),
                       Num(Bools(old(d.nodes), S, e)), w)
  {
    hide Graph; hide Val; hide Num; hide Chunk; hide Extend;
    PrefixExtends(d.nodes, d.nodes);
    if |S| == 1 {
      if B.None? { return Unsupported; }
      BoolsOfExtend(d.nodes, A, w, false);
      BoolsOfExtend(d.nodes, B.value, w, false);
      var a, b := Extend(A, w, false, CONST0), Extend(B.value, w, false, CONST0);
      FullSlices(d.nodes, a, b, w);
      var v := MuxAll(d, S[0], a, b, w);
      return Lowered(v);
    }
    var all := A + if B.Some? then B.value else [];
    if |all| < Pow2(|S|) * w { return Unsupported; }
    JoinedBools(d.nodes, A, if B.Some? then B.value else []);
    var v := BmuxBits(d, all, S, w);
    r := Lowered(v);
  }

  lemma {:induction false} JoinedBools(ns: seq<Node>, A: seq<nat>, B: seq<nat>)
    requires Graph(ns) && InGraph(ns, A) && InGraph(ns, B)
    ensures InGraph(ns, A + B) && forall e :: Bools(ns, A + B, e) == Bools(ns, A, e) + Bools(ns, B, e)
  {
    hide Graph; hide Val;
    forall e
      ensures Bools(ns, A + B, e) == Bools(ns, A, e) + Bools(ns, B, e)
    {
    }
  }

  // ---- demultiplexer ----

  /** cells.py:254-265: A, at width `w`, in the piece the binary value of S names; zero in
      every other piece. */
  method Demux(d: Dag, A: seq<nat>, S: seq<nat>, w: nat) returns (out: seq<nat>)
    requires d.Valid() && InGraph(d.nodes, A) && InGraph(d.nodes, S)
    modifies d
    ensures d.Valid() && Extends(old(d.nodes), d.nodes)
    ensures |out| == Pow2(|S|) * w && InGraph(d.nodes, out)
    ensures forall e, k: nat :: k < Pow2(|S|) ==>
              Chunk(Bools(d.nodes, out, e), k, w)
              == DemuxPiece(Bools(old(d.nodes), A, e), Bools(old(d.nodes), S, e), k, w)
  {
    hide Graph; hide Val; hide Num; hide Chunk; hide DemuxPiece;
    PrefixExtends(d.nodes, d.nodes);
    out := [];
    var n := Pow2(|S|);
    for k := 0 to n
      invariant d.Valid() && Extends(old(d.nodes), d.nodes) && InGraph(d.nodes, out) && |out| == k * w
      invariant forall e, j: nat :: j < k ==>
                  Chunk(Bools(d.nodes, out, e), j, w)
                  == DemuxPiece(Bools(old(d.nodes), A, e), Bools(old(d.nodes), S, e), j, w)
    {
      ghost var before := d.nodes;
      BoolsExtend(old(d.nodes), before, S);
      BoolsExtend(old(d.nodes), before, A);
      var hit := EqConst(d, S, k);
      ghost var mid := d.nodes;
      BoolsExtend(before, mid, A);
      BoolsExtend(before, mid, out);
      var piece := GatedPiece(d, A, hit, w);
      BoolsExtend(mid, d.nodes, out);
      ExtendsTrans(old(d.nodes), before, mid);
      ExtendsTrans(old(d.nodes), mid, d.nodes);
      PieceDone(old(d.nodes), mid, d.nodes, A, S, k, w, hit, piece);
      PieceAppended(d.nodes, out, piece, k, w);
      out := out + piece;
    }
  }

  ghost function DemuxPiece(A: seq<bool>, S: seq<bool>, k: nat, w: nat): (r: seq<bool>)
    ensures |r| == w
  {
    if Num(S) == k then Fit(A, w) else Zeroes(w)
  }

  /** A, zero past its end, gated by one entry. */
  method GatedPiece(d: Dag, A: seq<nat>, hit: nat, w: nat) returns (piece: seq<nat>)
    requires d.Valid() && InGraph(d.nodes, A) && hit < |d.nodes|
    modifies d
    ensures d.Valid() && Extends(old(d.nodes), d.nodes) && |piece| == w && InGraph(d.nodes, piece)
    ensures forall e, i :: 0 <= i < w ==>
              Bools(d.nodes, piece, e)[i] == (Fit(Bools(old(d.nodes), A, e), w)[i] && Val(old(d.nodes), hit, e))
  {
    hide Graph; hide Val;
    PrefixExtends(d.nodes, d.nodes);
    GraphSize(d.nodes);
    ConstVals(d.nodes);
    piece := [];
    for i := 0 to w
      invariant d.Valid() && Extends(old(d.nodes), d.nodes) && |piece| == i && InGraph(d.nodes, piece)
      invariant forall e, k :: 0 <= k < i ==>
                  Bools(d.nodes, piece, e)[k] == (Fit(Bools(old(d.nodes), A, e), w)[k] && Val(old(d.nodes), hit, e))
    {
      ghost var before := d.nodes;
      var a := if i < |A| then A[i] else CONST0;
      var x := d.VAnd(a, hit);
      ExtendsTrans(old(d.nodes), before, d.nodes);
      BoolsExtend(before, d.nodes, piece);
      GateStep(old(d.nodes), d.nodes, A, hit, i, w, a, x);
      AllSnoc(d.nodes, piece, x);
      piece := piece + [x];
    }
  }

  lemma {:induction false} GateStep(o: seq<Node>, n: seq<Node>, A: seq<nat>, hit: nat, i: nat, w: nat, a: nat, x: nat)
    requires Graph(o) && Graph(n) && Extends(o, n) && InGraph(o, A) && hit < |o| && i < w && x < |n|
    requires a < |o| && a == if i < |A| then A[i] else CONST0
    requires forall e :: Val(n, x, e) == (Val(n, a, e) && Val(n, hit, e))
    ensures forall e :: Val(n, x, e) == (Fit(Bools(o, A, e), w)[i] && Val(o, hit, e))
  {
    hide Val;
    ConstVals(o);
    hide Graph;
  }

  lemma {:induction false} PieceDone(o: seq<Node>, b: seq<Node>, n: seq<Node>, A: seq<nat>, S: seq<nat>, k: nat, w: nat, hit: nat, piece: seq<nat>)
    requires Graph(o) && Graph(b) && Graph(n) && InGraph(o, A) && InGraph(o, S) && InGraph(b, A) && InGraph(n, piece)
    requires hit < |b| && |piece| == w
    requires forall e :: Bools(b, A, e) == Bools(o, A, e)
    requires forall e :: Val(b, hit, e) <==> Num(Bools(o, S, e)) == k
    requires forall e, i :: 0 <= i < w ==> Bools(n, piece, e)[i] == (Fit(Bools(b, A, e), w)[i] && Val(b, hit, e))
    ensures forall e :: Bools(n, piece, e) == DemuxPiece(Bools(o, A, e), Bools(o, S, e), k, w)
  {
    hide Graph; hide Val; hide Num;
    forall e
      ensures Bools(n, piece, e) == DemuxPiece(Bools(o, A, e), Bools(o, S, e), k, w)
    {
      var l, r := Bools(n, piece, e), DemuxPiece(Bools(o, A, e), Bools(o, S, e), k, w);
      assert forall i :: 0 <= i < w ==> l[i] == r[i];
    }
  }

  lemma {:induction false} PieceAppended(ns: seq<Node>, out: seq<nat>, piece: seq<nat>, k: nat, w: nat)
    requires Graph(ns) && InGraph(ns, out) && InGraph(ns, piece) && |out| == k * w && |piece| == w
    ensures InGraph(ns, out + piece) && |out + piece| == (k + 1) * w
    ensures forall e :: Chunk(Bools(ns, out + piece, e), k, w) == Bools(ns, piece, e)
    ensures forall e, j: nat :: j < k ==> Chunk(Bools(ns, out + piece, e), j, w) == Chunk(Bools(ns, out, e), j, w)
  {
    hide Graph; hide Val;
    JoinedBools(ns, out, piece);
    forall e
      ensures Chunk(Bools(ns, out + piece, e), k, w) == Bools(ns, piece, e)
    {
      ChunkOfLast(Bools(ns, out, e), Bools(ns, piece, e), k, w);
    }
    forall e, j: nat | j < k
      ensures Chunk(Bools(ns, out + piece, e), j, w) == Chunk(Bools(ns, out, e), j, w)
    {
      ChunkOfFirst(Bools(ns, out, e), Bools(ns, piece, e), j, k, w);
    }
  }

  lemma {:induction false} ChunkOfLast(s: seq<bool>, t: seq<bool>, k: nat, w: nat)
    requires |s| == k * w && |t| == w
    ensures Chunk(s + t, k, w) == t
  {
  }

  lemma {:induction false} ChunkOfFirst(s: seq<bool>, t: seq<bool>, j: nat, k: nat, w: nat)
    requires |s| == k * w && j < k
    ensures Chunk(s + t, j, w) == Chunk(s, j, w)
  {
    MulMono(j + 1, k, w);
    assert (j + 1) * w == j * w + w;
  }

  /** Sending A to piece S and reading piece S back gives A: binary mux after demux. */
  lemma {:induction false} DemuxThenBmux(A: seq<bool>, S: seq<bool>, w: nat, out: seq<bool>)
    requires forall k: nat :: k < Pow2(|S|) ==> Chunk(out, k, w) == DemuxPiece(A, S, k, w)
    ensures Chunk(out, Num(S), w) == Fit(A, w)
    ensures forall k: nat :: k < Pow2(|S|) && k != Num(S) ==> Chunk(out, k, w) == Zeroes(w)
  {
    NumBound(S);
  }
}
