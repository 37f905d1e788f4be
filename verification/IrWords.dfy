/** The multi-bit helpers of the IR builder (tools/bstm-cc/bstm_cc/ir.py:238-309): balanced
    reduction, extension, ripple-carry add and subtract, comparison, constant match. */
module IrWords {
  import opened Arith
  import opened Numbers
  import opened Builder

  // ---- lists of entries ----

  predicate InGraph(ns: seq<Node>, vs: seq<nat>) { forall i :: 0 <= i < |vs| ==> vs[i] < |ns| }

  /** What a list of entries spells in one lane. */
  ghost function Bools(ns: seq<Node>, vs: seq<nat>, e: Env): (r: seq<bool>)
    requires Graph(ns) && InGraph(ns, vs)
    ensures |r| == |vs| && forall i :: 0 <= i < |vs| ==> r[i] == Val(ns, vs[i], e)
  {
    seq(|vs|, i requires 0 <= i < |vs| => Val(ns, vs[i], e))
  }

  lemma {:induction false} BoolsExtend(ns: seq<Node>, ns': seq<Node>, vs: seq<nat>)
    requires Graph(ns) && Graph(ns') && Extends(ns, ns') && InGraph(ns, vs)
    ensures InGraph(ns', vs) && forall e :: Bools(ns', vs, e) == Bools(ns, vs, e)
  {
    forall e
      ensures Bools(ns', vs, e) == Bools(ns, vs, e)
    {
    }
  }

  lemma {:induction false} ExtendsTrans(a: seq<Node>, b: seq<Node>, c: seq<Node>)
    requires Graph(a) && Graph(b) && Graph(c) && Extends(a, b) && Extends(b, c)
    ensures Extends(a, c)
  {
    PrefixExtends(a, c);
  }

  lemma {:induction false} AllSnoc(ns: seq<Node>, vs: seq<nat>, v: nat)
    requires Graph(ns) && InGraph(ns, vs) && v < |ns|
    ensures InGraph(ns, vs + [v])
    ensures forall e :: Bools(ns, vs + [v], e) == Bools(ns, vs, e) + [Val(ns, v, e)]
  {
    forall e
      ensures Bools(ns, vs + [v], e) == Bools(ns, vs, e) + [Val(ns, v, e)]
    {
    }
  }

  /** Truncate, or pad with the sign or with zero. */
  function Extend<T>(bits: seq<T>, w: nat, signed: bool, zero: T): (r: seq<T>)
    ensures |r| == w
    ensures forall i :: 0 <= i < w ==> r[i] == zero || (i < |bits| && r[i] == bits[i])
                                       || (0 < |bits| <= i && r[i] == bits[|bits| - 1])
  {
    if |bits| >= w then bits[..w]
    else
      var fill := if signed && bits != [] then bits[|bits| - 1] else zero;
      bits + seq(w - |bits|, _ => fill)
  }

  lemma {:induction false} BoolsOfExtend(ns: seq<Node>, vs: seq<nat>, w: nat, signed: bool)
    requires Graph(ns) && InGraph(ns, vs)
    ensures InGraph(ns, Extend(vs, w, signed, CONST0))
    ensures forall e :: Bools(ns, Extend(vs, w, signed, CONST0), e) == Extend(Bools(ns, vs, e), w, signed, false)
  {
    ConstVals(ns);
    forall e
      ensures Bools(ns, Extend(vs, w, signed, CONST0), e) == Extend(Bools(ns, vs, e), w, signed, false)
    {
      var l, r := Bools(ns, Extend(vs, w, signed, CONST0), e), Extend(Bools(ns, vs, e), w, signed, false);
      assert forall i :: 0 <= i < w ==> l[i] == r[i];
    }
  }

  // ---- numbers: signed and unsigned ----

  /** A longer list with the same bits and zeroes above spells the same number; with ones
      above, 2^w - 2^|s| more. */
  lemma {:induction false} NumFill(s: seq<bool>, n: nat, x: bool)
    ensures Num(s + seq(n, _ => x)) == Num(s) + if x then Pow2(|s| + n) - Pow2(|s|) else 0
    decreases n
  {
    if n == 0 {
      assert s + seq(0, _ => x) == s;
    } else {
      var t := s + seq(n - 1, _ => x);
      assert s + seq(n, _ => x) == t + [x];
      NumFill(s, n - 1, x);
      NumSnoc(t, x);
    }
  }

  /** Extension keeps the value: exactly when unsigned, modulo 2^w when signed. */
  lemma {:induction false} ExtendValue(s: seq<bool>, w: nat, signed: bool) returns (q: int)
    requires |s| <= w
    ensures Num(Extend(s, w, signed, false)) == Value(s, signed) + q * Pow2(w)
    ensures !signed ==> q == 0
    ensures q == 0 || q == 1
  {
    if |s| == w {
      assert Extend(s, w, signed, false) == s;
      q := if signed && s != [] && s[|s| - 1] then 1 else 0;
    } else {
      var x := signed && s != [] && s[|s| - 1];
      assert Extend(s, w, signed, false) == s + seq(w - |s|, _ => x);
      NumFill(s, w - |s|, x);
      q := if x then 1 else 0;
    }
  }

  /** Truncation keeps the value modulo 2^w. */
  lemma {:induction false} TruncateValue(s: seq<bool>, w: nat, signed: bool) returns (q: int)
    requires |s| > w
    ensures Num(Extend(s, w, signed, false)) == Value(s, signed) + q * Pow2(w)
  {
    NumSplit(s, w);
    Pow2Quotient(w, |s|);
    var hi: int, p: int := Num(s[w..]), Pow2(|s| - w);
    q := if signed && s[|s| - 1] then p - hi else 0 - hi;
    Spread(p, hi, Pow2(w));
    Spread(0, hi, Pow2(w));
  }

  /** The top bit says whether the number is in the upper half. */
  lemma {:induction false} TopBit(s: seq<bool>)
    requires s != []
    ensures s[|s| - 1] <==> Num(s) >= Pow2(|s| - 1)
    ensures |s| >= 1 && Num(s[..|s| - 1]) < Pow2(|s| - 1)
  {
    var n := |s| - 1;
    assert s == s[..n] + [s[n]];
    NumSnoc(s[..n], s[n]);
    NumBound(s[..n]);
  }

  /** A list of at most `n` bits spells a number in the range of `n` bits. */
  lemma {:induction false} ValueRange(s: seq<bool>, n: nat, signed: bool)
    requires |s| <= n
    ensures 0 <= Num(s) < Pow2(n)
    ensures signed ==> n >= 1 ==> 0 - Pow2(n - 1) <= SNum(s) < Pow2(n - 1)
  {
    NumBound(s);
    Pow2Mono(|s|, n);
    if s != [] {
      TopBit(s);
      Pow2Mono(|s| - 1, n - 1);
    }
  }

  // ---- balanced reduction ----

  datatype Gate = AndGate | OrGate | XorGate

  function Unit(g: Gate): bool { g.AndGate? }

  function Combine(g: Gate, x: bool, y: bool): bool {
    match g
    case AndGate => x && y
    case OrGate => x || y
    case XorGate => x != y
  }

  function Fold(g: Gate, s: seq<bool>): bool {
    if s == [] then Unit(g) else Combine(g, s[0], Fold(g, s[1..]))
  }

  lemma {:induction false} FoldApp(g: Gate, s: seq<bool>, t: seq<bool>)
    ensures Fold(g, s + t) == Combine(g, Fold(g, s), Fold(g, t))
    decreases |s|
  {
    if s == [] {
      assert s + t == t;
    } else {
      assert (s + t)[1..] == s[1..] + t;
      FoldApp(g, s[1..], t);
    }
  }

  lemma {:induction false} FoldOr(s: seq<bool>)
    ensures Fold(OrGate, s) <==> exists i :: 0 <= i < |s| && s[i]
    ensures Fold(OrGate, s) <==> Num(s) != 0
    decreases |s|
  {
    if s != [] {
      FoldOr(s[1..]);
      assert forall i :: 0 < i < |s| ==> s[i] == s[1..][i - 1];
    }
    NumZero(s);
  }

  lemma {:induction false} FoldAnd(s: seq<bool>)
    ensures Fold(AndGate, s) <==> forall i :: 0 <= i < |s| ==> s[i]
    decreases |s|
  {
    if s != [] {
      FoldAnd(s[1..]);
      assert forall i :: 0 < i < |s| ==> s[i] == s[1..][i - 1];
    }
  }

  method Gate2(d: Dag, g: Gate, x: nat, y: nat) returns (r: nat)
    requires d.Valid() && x < |d.nodes| && y < |d.nodes|
    modifies d
    ensures d.Valid() && Extends(old(d.nodes), d.nodes) && r < |d.nodes|
    ensures forall e :: Val(d.nodes, r, e) == Combine(g, Val(d.nodes, x, e), Val(d.nodes, y, e))
  {
    match g
    case AndGate => r := d.VAnd(x, y);
    case OrGate => r := d.VOr(x, y);
    case XorGate => r := d.VXor(x, y);
  }

  /** One level of the tree: neighbours combined, an odd last one carried over. */
  method Pairs(d: Dag, g: Gate, vals: seq<nat>) returns (next: seq<nat>)
    requires d.Valid() && InGraph(d.nodes, vals) && |vals| >= 2
    modifies d
    ensures d.Valid() && Extends(old(d.nodes), d.nodes) && InGraph(d.nodes, next)
    ensures InGraph(d.nodes, vals)
    ensures |next| == (|vals| + 1) / 2
    ensures forall e :: Fold(g, Bools(d.nodes, next, e)) == Fold(g, Bools(d.nodes, vals, e))
  {
    hide Graph; hide Val; hide Fold; hide Combine;
    next := [];
    var i := 0;
    FoldNil(d.nodes, g);
    PrefixExtends(d.nodes, d.nodes);
    while i + 1 < |vals|
      invariant i % 2 == 0 && 0 <= i <= |vals| && |next| == i / 2
      invariant d.Valid() && Extends(old(d.nodes), d.nodes) && InGraph(d.nodes, next)
      invariant InGraph(d.nodes, vals) && InGraph(d.nodes, vals[..i])
      invariant forall e :: Fold(g, Bools(d.nodes, next, e)) == Fold(g, Bools(d.nodes, vals[..i], e))
    {
      ghost var before := d.nodes;
      var r := Gate2(d, g, vals[i], vals[i + 1]);
      ExtendsTrans(old(d.nodes), before, d.nodes);
      BoolsExtend(before, d.nodes, next);
      BoolsExtend(before, d.nodes, vals);
      BoolsExtend(before, d.nodes, vals[..i]);
      PairStep(d.nodes, g, next, vals, i, r);
      next := next + [r];
      i := i + 2;
    }
    if |vals| % 2 == 1 {
      LastStep(d.nodes, g, next, vals);
      next := next + [vals[|vals| - 1]];
    } else {
      assert vals[..i] == vals;
    }
  }

  lemma {:induction false} FoldNil(ns: seq<Node>, g: Gate)
    requires Graph(ns)
    ensures forall e :: Fold(g, Bools(ns, [], e)) == Unit(g)
  {
  }

  lemma {:induction false} PairStep(ns: seq<Node>, g: Gate, next: seq<nat>, vals: seq<nat>, i: nat, r: nat)
    requires Graph(ns) && InGraph(ns, next) && InGraph(ns, vals) && i + 1 < |vals| && r < |ns|
    requires InGraph(ns, vals[..i])
    requires forall e :: Fold(g, Bools(ns, next, e)) == Fold(g, Bools(ns, vals[..i], e))
    requires forall e :: Val(ns, r, e) == Combine(g, Val(ns, vals[i], e), Val(ns, vals[i + 1], e))
    ensures InGraph(ns, next + [r]) && InGraph(ns, vals[..i + 2])
    ensures forall e :: Fold(g, Bools(ns, next + [r], e)) == Fold(g, Bools(ns, vals[..i + 2], e))
  {
    hide Graph; hide Val;
    forall e
      ensures Fold(g, Bools(ns, next + [r], e)) == Fold(g, Bools(ns, vals[..i + 2], e))
    {
      var n, v := Bools(ns, next, e), Bools(ns, vals[..i], e);
      var x, y := Val(ns, vals[i], e), Val(ns, vals[i + 1], e);
      assert Bools(ns, next + [r], e) == n + [Val(ns, r, e)];
      assert Bools(ns, vals[..i + 2], e) == v + [x, y];
      FoldApp(g, n, [Val(ns, r, e)]);
      FoldApp(g, v, [x, y]);
      FoldTwo(g, x, y);
    }
  }

  lemma {:induction false} FoldTwo(g: Gate, x: bool, y: bool)
    ensures Fold(g, [x, y]) == Combine(g, x, y)
    ensures Fold(g, [x]) == x
  {
    var t := [y];
    assert t[1..] == [];
    var u := [x];
    assert u[1..] == [];
    FoldApp(g, u, t);
    assert u + t == [x, y];
  }

  lemma {:induction false} LastStep(ns: seq<Node>, g: Gate, next: seq<nat>, vals: seq<nat>)
    requires Graph(ns) && InGraph(ns, next) && InGraph(ns, vals) && vals != []
    requires InGraph(ns, vals[..|vals| - 1])
    requires forall e :: Fold(g, Bools(ns, next, e)) == Fold(g, Bools(ns, vals[..|vals| - 1], e))
    ensures InGraph(ns, next + [vals[|vals| - 1]])
    ensures forall e :: Fold(g, Bools(ns, next + [vals[|vals| - 1]], e)) == Fold(g, Bools(ns, vals, e))
  {
    hide Graph; hide Val;
    var k := |vals| - 1;
    forall e
      ensures Fold(g, Bools(ns, next + [vals[k]], e)) == Fold(g, Bools(ns, vals, e))
    {
      var n, v, x := Bools(ns, next, e), Bools(ns, vals[..k], e), Val(ns, vals[k], e);
      assert Bools(ns, next + [vals[k]], e) == n + [x];
      assert Bools(ns, vals, e) == v + [x];
      FoldApp(g, n, [x]);
      FoldApp(g, v, [x]);
    }
  }

  /** ir.py:238-250: whatever the shape of the tree, the value is that of the plain fold. */
  method ReduceTree(d: Dag, g: Gate, vals0: seq<nat>) returns (r: nat)
    requires d.Valid() && InGraph(d.nodes, vals0)
    modifies d
    ensures d.Valid() && Extends(old(d.nodes), d.nodes) && r < |d.nodes|
    ensures InGraph(d.nodes, vals0)
    ensures forall e :: Val(d.nodes, r, e) == Fold(g, Bools(d.nodes, vals0, e))
  {
    hide Graph; hide Val; hide Fold;
    PrefixExtends(d.nodes, d.nodes);
    if vals0 == [] {
      ConstVals(d.nodes);
      FoldNil(d.nodes, g);
      GraphSize(d.nodes);
      return if g.AndGate? then CONST1 else CONST0;
    }
    var vals := vals0;
    while |vals| > 1
      invariant d.Valid() && Extends(old(d.nodes), d.nodes) && |vals| >= 1
      invariant InGraph(d.nodes, vals) && InGraph(d.nodes, vals0)
      invariant forall e :: Fold(g, Bools(d.nodes, vals, e)) == Fold(g, Bools(d.nodes, vals0, e))
      decreases |vals|
    {
      ghost var before := d.nodes;
      var next := Pairs(d, g, vals);
      ExtendsTrans(old(d.nodes), before, d.nodes);
      BoolsExtend(before, d.nodes, vals);
      BoolsExtend(before, d.nodes, vals0);
      vals := next;
    }
    r := vals[0];
    FoldSingle(d.nodes, g, vals);
  }

  lemma {:induction false} GraphSize(ns: seq<Node>)
    requires Graph(ns)
    ensures |ns| >= 2
  {
  }

  lemma {:induction false} FoldSingle(ns: seq<Node>, g: Gate, vals: seq<nat>)
    requires Graph(ns) && InGraph(ns, vals) && |vals| == 1
    ensures forall e :: Fold(g, Bools(ns, vals, e)) == Val(ns, vals[0], e)
  {
    hide Graph; hide Val;
    forall e
      ensures Fold(g, Bools(ns, vals, e)) == Val(ns, vals[0], e)
    {
      assert Bools(ns, vals, e) == [Val(ns, vals[0], e)];
      FoldTwo(g, Val(ns, vals[0], e), false);
    }
  }

  // ---- adders ----

  /** Every entry negated. */
  method Negate(d: Dag, vs: seq<nat>) returns (r: seq<nat>)
    requires d.Valid() && InGraph(d.nodes, vs)
    modifies d
    ensures d.Valid() && Extends(old(d.nodes), d.nodes)
    ensures |r| == |vs| && InGraph(d.nodes, r) && InGraph(d.nodes, vs)
    ensures forall e :: Bools(d.nodes, r, e) == Flip(Bools(d.nodes, vs, e))
  {
    hide Graph; hide Val;
    PrefixExtends(d.nodes, d.nodes);
    r := [];
    for i := 0 to |vs|
      invariant d.Valid() && Extends(old(d.nodes), d.nodes)
      invariant |r| == i && InGraph(d.nodes, r) && InGraph(d.nodes, vs)
      invariant forall e, k :: 0 <= k < i ==> Bools(d.nodes, r, e)[k] == !Bools(d.nodes, vs, e)[k]
    {
      ghost var before := d.nodes;
      var x := d.VNot(vs[i]);
      ExtendsTrans(old(d.nodes), before, d.nodes);
      BoolsExtend(before, d.nodes, r);
      BoolsExtend(before, d.nodes, vs);
      r := r + [x];
    }
    FlipFrom(d.nodes, vs, r);
  }

  lemma {:induction false} FlipFrom(ns: seq<Node>, vs: seq<nat>, r: seq<nat>)
    requires Graph(ns) && InGraph(ns, vs) && InGraph(ns, r) && |r| == |vs|
    requires forall e, k :: 0 <= k < |vs| ==> Bools(ns, r, e)[k] == !Bools(ns, vs, e)[k]
    ensures forall e :: Bools(ns, r, e) == Flip(Bools(ns, vs, e))
  {
    hide Graph; hide Val;
    forall e
      ensures Bools(ns, r, e) == Flip(Bools(ns, vs, e))
    {
      assert forall k :: 0 <= k < |vs| ==> Bools(ns, r, e)[k] == Flip(Bools(ns, vs, e))[k];
    }
  }

  /** The chain of full adders. */
  method Ripple(d: Dag, a: seq<nat>, b: seq<nat>, c0: bool) returns (Y: seq<nat>, c: nat)
    requires d.Valid() && InGraph(d.nodes, a) && InGraph(d.nodes, b) && |a| == |b|
    modifies d
    ensures d.Valid() && Extends(old(d.nodes), d.nodes)
    ensures |Y| == |a| && InGraph(d.nodes, Y) && c < |d.nodes| && InGraph(d.nodes, a) && InGraph(d.nodes, b)
    ensures forall e :: Bools(d.nodes, Y, e) == Sum(Bools(d.nodes, a, e), Bools(d.nodes, b, e), c0)
    ensures forall e :: Val(d.nodes, c, e) == CarryAt(Bools(d.nodes, a, e), Bools(d.nodes, b, e), c0, |a|)
  {
    hide Graph; hide Val; hide CarryAt; hide SumBit;
    PrefixExtends(d.nodes, d.nodes);
    GraphSize(d.nodes);
    ConstVals(d.nodes);
    c := if c0 then CONST1 else CONST0;
    CarryStart(d.nodes, a, b, c0);
    Y := [];
    for i := 0 to |a|
      invariant d.Valid() && Extends(old(d.nodes), d.nodes)
      invariant |Y| == i && InGraph(d.nodes, Y) && c < |d.nodes|
      invariant InGraph(d.nodes, a) && InGraph(d.nodes, b)
      invariant forall e :: Val(d.nodes, c, e) == CarryAt(Bools(d.nodes, a, e), Bools(d.nodes, b, e), c0, i)
      invariant forall e, k :: 0 <= k < i ==>
                  Bools(d.nodes, Y, e)[k] == SumBit(Bools(d.nodes, a, e), Bools(d.nodes, b, e), c0, k)
    {
      ghost var before := d.nodes;
      var y, c' := FullAdder(d, a[i], b[i], c);
      ExtendsTrans(old(d.nodes), before, d.nodes);
      BoolsExtend(before, d.nodes, Y);
      BoolsExtend(before, d.nodes, a);
      BoolsExtend(before, d.nodes, b);
      AdderStep(d.nodes, a, b, c0, i, c, y, c');
      Y := Y + [y];
      c := c';
    }
    SumFrom(d.nodes, a, b, c0, Y);
  }

  method FullAdder(d: Dag, a: nat, b: nat, c: nat) returns (y: nat, c': nat)
    requires d.Valid() && a < |d.nodes| && b < |d.nodes| && c < |d.nodes|
    modifies d
    ensures d.Valid() && Extends(old(d.nodes), d.nodes) && y < |d.nodes| && c' < |d.nodes|
    ensures forall e :: Val(d.nodes, y, e) == ((Val(d.nodes, a, e) != Val(d.nodes, b, e)) != Val(d.nodes, c, e))
    ensures forall e :: Val(d.nodes, c', e) == ((Val(d.nodes, a, e) && Val(d.nodes, b, e))
                                                || (Val(d.nodes, c, e) && Val(d.nodes, a, e) != Val(d.nodes, b, e)))
  {
    hide Graph; hide Val;
    var t := d.VXor(a, b);
    ghost var g1 := d.nodes;
    y := d.VXor(t, c);
    ghost var g2 := d.nodes;
    ExtendsTrans(old(d.nodes), g1, g2);
    c' := d.VMaj(a, b, c);
    ExtendsTrans(old(d.nodes), g2, d.nodes);
  }

  lemma {:induction false} CarryStart(ns: seq<Node>, a: seq<nat>, b: seq<nat>, c0: bool)
    requires Graph(ns) && InGraph(ns, a) && InGraph(ns, b)
    ensures forall e :: CarryAt(Bools(ns, a, e), Bools(ns, b, e), c0, 0) == c0
  {
  }

  lemma {:induction false} AdderStep(ns: seq<Node>, a: seq<nat>, b: seq<nat>, c0: bool, i: nat, c: nat, y: nat, c': nat)
    requires Graph(ns) && InGraph(ns, a) && InGraph(ns, b) && i < |a| == |b|
    requires c < |ns| && y < |ns| && c' < |ns|
    requires forall e :: Val(ns, c, e) == CarryAt(Bools(ns, a, e), Bools(ns, b, e), c0, i)
    requires forall e :: Val(ns, y, e) == ((Val(ns, a[i], e) != Val(ns, b[i], e)) != Val(ns, c, e))
    requires forall e :: Val(ns, c', e) == ((Val(ns, a[i], e) && Val(ns, b[i], e))
                                            || (Val(ns, c, e) && Val(ns, a[i], e) != Val(ns, b[i], e)))
    ensures forall e :: Val(ns, y, e) == SumBit(Bools(ns, a, e), Bools(ns, b, e), c0, i)
    ensures forall e :: Val(ns, c', e) == CarryAt(Bools(ns, a, e), Bools(ns, b, e), c0, i + 1)
  {
    hide Graph; hide Val;
  }

  lemma {:induction false} SumFrom(ns: seq<Node>, a: seq<nat>, b: seq<nat>, c0: bool, Y: seq<nat>)
    requires Graph(ns) && InGraph(ns, a) && InGraph(ns, b) && InGraph(ns, Y) && |a| == |b| == |Y|
    requires forall e, k :: 0 <= k < |Y| ==> Bools(ns, Y, e)[k] == SumBit(Bools(ns, a, e), Bools(ns, b, e), c0, k)
    ensures forall e :: Bools(ns, Y, e) == Sum(Bools(ns, a, e), Bools(ns, b, e), c0)
  {
    hide Graph; hide Val; hide SumBit;
    forall e
      ensures Bools(ns, Y, e) == Sum(Bools(ns, a, e), Bools(ns, b, e), c0)
    {
      assert forall k :: 0 <= k < |Y| ==> Bools(ns, Y, e)[k] == Sum(Bools(ns, a, e), Bools(ns, b, e), c0)[k];
    }
  }

  /** The second operand as the adder sees it. */
  ghost function Operand(B: seq<bool>, w: nat, sub: bool, signed: bool): (r: seq<bool>)
    ensures |r| == w
  {
    var b := Extend(B, w, signed, false);
    if sub then Flip(b) else b
  }

  ghost function SumOf(A: seq<bool>, B: seq<bool>, w: nat, sub: bool, signed: bool): (r: seq<bool>)
    ensures |r| == w
  {
    Sum(Extend(A, w, signed, false), Operand(B, w, sub, signed), sub)
  }

  /** ir.py:270-282: ripple-carry sum or difference at width `w`, and the carry out. */
  method AddSub(d: Dag, A: seq<nat>, B: seq<nat>, w: nat, sub: bool, signed: bool) returns (Y: seq<nat>, c: nat)
    requires d.Valid() && InGraph(d.nodes, A) && InGraph(d.nodes, B)
    modifies d
    ensures d.Valid() && Extends(old(d.nodes), d.nodes)
    ensures |Y| == w && InGraph(d.nodes, Y) && c < |d.nodes| && InGraph(d.nodes, A) && InGraph(d.nodes, B)
    ensures forall e :: Bools(d.nodes, Y, e) == SumOf(Bools(d.nodes, A, e), Bools(d.nodes, B, e), w, sub, signed)
  {
    hide Graph; hide Val; hide Extend; hide Sum; hide CarryAt;
    PrefixExtends(d.nodes, d.nodes);
    BoolsOfExtend(d.nodes, A, w, signed);
    BoolsOfExtend(d.nodes, B, w, signed);
    var a := Extend(A, w, signed, CONST0);
    var b := Extend(B, w, signed, CONST0);
    if sub {
      ghost var before, plain := d.nodes, b;
      b := Negate(d, b);
      BoolsExtend(before, d.nodes, a);
      BoolsExtend(before, d.nodes, plain);
    }
    ghost var mid := d.nodes;
    Y, c := Ripple(d, a, b, sub);
    BoolsExtend(mid, d.nodes, a);
    BoolsExtend(mid, d.nodes, b);
    ExtendsTrans(old(d.nodes), mid, d.nodes);
    BoolsExtend(old(d.nodes), d.nodes, A);
    BoolsExtend(old(d.nodes), d.nodes, B);
  }

  lemma {:induction false} ValueMod(s: seq<bool>, w: nat, signed: bool) returns (q: int)
    ensures Num(Extend(s, w, signed, false)) == Value(s, signed) + q * Pow2(w)
  {
    if |s| <= w { q := ExtendValue(s, w, signed); } else { q := TruncateValue(s, w, signed); }
  }

  /** The sum, as a number: addition or subtraction modulo 2^w of the operands' values,
      whatever their widths. */
  lemma {:induction false} SumOfIs(A: seq<bool>, B: seq<bool>, w: nat, sub: bool, signed: bool)
    ensures Num(SumOf(A, B, w, sub, signed))
            == (if sub then Value(A, signed) - Value(B, signed) else Value(A, signed) + Value(B, signed)) % Pow2(w)
  {
    hide SumOf; hide Num; hide Value; hide Pow2;
    if sub { DifferenceIs(A, B, w, signed); } else { TotalIs(A, B, w, signed); }
  }

  lemma {:induction false} TotalIs(A: seq<bool>, B: seq<bool>, w: nat, signed: bool)
    ensures Num(SumOf(A, B, w, false, signed)) == (Value(A, signed) + Value(B, signed)) % Pow2(w)
  {
    hide Sum; hide Num; hide Extend; hide Fit; hide Pow2; hide Value;
    var a, b := Extend(A, w, signed, false), Extend(B, w, signed, false);
    var p := ValueMod(A, w, signed);
    var q := ValueMod(B, w, signed);
    WholeWidth(a, b, w);
    SumIsAdd(a, b, w);
    Spread(p, q, Pow2(w));
    ModShift(Value(A, signed) + Value(B, signed), p + q, Pow2(w));
  }

  lemma {:induction false} DifferenceIs(A: seq<bool>, B: seq<bool>, w: nat, signed: bool)
    ensures Num(SumOf(A, B, w, true, signed)) == (Value(A, signed) - Value(B, signed)) % Pow2(w)
  {
    hide Sum; hide Num; hide Extend; hide Flip; hide Fit; hide Pow2; hide Value;
    var a, b := Extend(A, w, signed, false), Extend(B, w, signed, false);
    var p := ValueMod(A, w, signed);
    var q := ValueMod(B, w, signed);
    WholeWidth(a, b, w);
    SumIsSub(a, b, w);
    Spread(p, q, Pow2(w));
    ModShift(Value(A, signed) - Value(B, signed), p - q, Pow2(w));
  }

  lemma {:induction false} WholeWidth(a: seq<bool>, b: seq<bool>, w: nat)
    requires |a| == |b| == w
    ensures a[..w] == a && Fit(b, w) == b
  {
  }

  function Max(a: nat, b: nat): nat { if a >= b then a else b }

  /** ir.py:284-293: A < B is the sign of the difference, one bit wider than either. */
  method LessThan(d: Dag, A: seq<nat>, B: seq<nat>, signed: bool) returns (r: nat)
    requires d.Valid() && InGraph(d.nodes, A) && InGraph(d.nodes, B)
    modifies d
    ensures d.Valid() && Extends(old(d.nodes), d.nodes)
    ensures r < |d.nodes| && InGraph(d.nodes, A) && InGraph(d.nodes, B)
    ensures forall e :: Val(d.nodes, r, e)
                        <==> Value(Bools(d.nodes, A, e), signed) < Value(Bools(d.nodes, B, e), signed)
  {
    hide Graph; hide Val; hide SumOf; hide Value;
    var w := Max(Max(|A|, |B|), 1) + 1;
    var Y, c := AddSub(d, A, B, w, true, signed);
    r := Y[w - 1];
    forall e
      ensures Val(d.nodes, r, e)
              <==> Value(Bools(d.nodes, A, e), signed) < Value(Bools(d.nodes, B, e), signed)
    {
      SignOfDifference(Bools(d.nodes, A, e), Bools(d.nodes, B, e), w, signed);
      assert Bools(d.nodes, Y, e)[w - 1] == Val(d.nodes, r, e);
    }
  }

  lemma {:induction false} SignOfDifference(A: seq<bool>, B: seq<bool>, w: nat, signed: bool)
    requires w >= 2 && |A| < w && |B| < w
    ensures SumOf(A, B, w, true, signed)[w - 1] <==> Value(A, signed) < Value(B, signed)
  {
    hide SumOf; hide Num;
    var Y := SumOf(A, B, w, true, signed);
    SumOfIs(A, B, w, true, signed);
    ValueRange(A, w - 1, signed);
    ValueRange(B, w - 1, signed);
    TopBit(Y);
    var x, p := Value(A, signed) - Value(B, signed), Pow2(w);
    assert p == 2 * Pow2(w - 1);
    if signed { assert Pow2(w - 1) == 2 * Pow2(w - 2); }
    if x >= 0 { RemainderIs(x, 0, x, p); } else { RemainderIs(x, -1, x + p, p); }
  }

  /** ir.py:295-299: the bits of the two extended operands differ nowhere. */
  method Equal(d: Dag, A: seq<nat>, B: seq<nat>, signed: bool) returns (r: nat)
    requires d.Valid() && InGraph(d.nodes, A) && InGraph(d.nodes, B)
    modifies d
    ensures d.Valid() && Extends(old(d.nodes), d.nodes)
    ensures r < |d.nodes| && InGraph(d.nodes, A) && InGraph(d.nodes, B)
    ensures forall e :: Val(d.nodes, r, e)
                        <==> Value(Bools(d.nodes, A, e), signed) == Value(Bools(d.nodes, B, e), signed)
  {
    hide Graph; hide Val; hide Value; hide Extend; hide Fold;
    PrefixExtends(d.nodes, d.nodes);
    var w := Max(Max(|A|, |B|), 1);
    BoolsOfExtend(d.nodes, A, w, signed);
    BoolsOfExtend(d.nodes, B, w, signed);
    var a, b := Extend(A, w, signed, CONST0), Extend(B, w, signed, CONST0);
    var diff := [];
    for i := 0 to w
      invariant d.Valid() && Extends(old(d.nodes), d.nodes)
      invariant |diff| == i && InGraph(d.nodes, diff) && InGraph(d.nodes, a) && InGraph(d.nodes, b)
      invariant forall e, k :: 0 <= k < i ==> Bools(d.nodes, diff, e)[k] == (Bools(d.nodes, a, e)[k] != Bools(d.nodes, b, e)[k])
    {
      ghost var before := d.nodes;
      var x := d.VXor(a[i], b[i]);
      ExtendsTrans(old(d.nodes), before, d.nodes);
      BoolsExtend(before, d.nodes, diff);
      BoolsExtend(before, d.nodes, a);
      BoolsExtend(before, d.nodes, b);
      diff := diff + [x];
    }
    ghost var mid := d.nodes;
    var some := ReduceTree(d, OrGate, diff);
    ghost var mid' := d.nodes;
    ExtendsTrans(old(d.nodes), mid, mid');
    r := d.VNot(some);
    ExtendsTrans(old(d.nodes), mid', d.nodes);
    ExtendsTrans(mid, mid', d.nodes);
    BoolsExtend(mid, d.nodes, diff);
    BoolsExtend(mid, mid', diff);
    BoolsExtend(old(d.nodes), d.nodes, A);
    BoolsExtend(old(d.nodes), d.nodes, B);
    BoolsExtend(old(d.nodes), mid, a);
    BoolsExtend(old(d.nodes), mid, b);
    forall e
      ensures Val(d.nodes, r, e)
              <==> Value(Bools(d.nodes, A, e), signed) == Value(Bools(d.nodes, B, e), signed)
    {
      EqualBits(Bools(old(d.nodes), A, e), Bools(old(d.nodes), B, e), Bools(mid, diff, e), w, signed);
    }
  }

  lemma {:induction false} EqualBits(A: seq<bool>, B: seq<bool>, diff: seq<bool>, w: nat, signed: bool)
    requires |A| <= w && |B| <= w && |diff| == w >= 1
    requires forall k :: 0 <= k < w ==>
               diff[k] == (Extend(A, w, signed, false)[k] != Extend(B, w, signed, false)[k])
    ensures Fold(OrGate, diff) <==> Value(A, signed) != Value(B, signed)
  {
    hide Extend; hide Fold; hide Num;
    var a, b := Extend(A, w, signed, false), Extend(B, w, signed, false);
    FoldOr(diff);
    assert a == b <==> forall k :: 0 <= k < w ==> !diff[k];
    SameValue(A, B, w, signed);
  }

  /** At a width that holds it, a list keeps its value. */
  lemma {:induction false} ExtendedValue(A: seq<bool>, w: nat, signed: bool)
    requires |A| <= w && w >= 1
    ensures Value(Extend(A, w, signed, false), signed) == Value(A, signed)
  {
    hide Extend; hide Num;
    var a := Extend(A, w, signed, false);
    var q := ExtendValue(A, w, signed);
    ValueRange(A, w, signed);
    TopBit(a);
    NumBound(a);
  }

  /** At a width that holds both, equal bits and equal values are the same. */
  lemma {:induction false} SameValue(A: seq<bool>, B: seq<bool>, w: nat, signed: bool)
    requires |A| <= w && |B| <= w && w >= 1
    ensures Extend(A, w, signed, false) == Extend(B, w, signed, false) <==> Value(A, signed) == Value(B, signed)
  {
    hide Extend; hide Value;
    ExtendedValue(A, w, signed);
    ExtendedValue(B, w, signed);
    ValueInjective(Extend(A, w, signed, false), Extend(B, w, signed, false), signed);
  }

  // ---- constant match ----

  /** Bit `i` of the number `k`. */
  function BitOf(k: nat, i: nat): bool
    decreases i
  {
    if i == 0 then k % 2 == 1 else BitOf(k / 2, i - 1)
  }

  /** The bits agree with those of `k`, which fits, exactly when they spell `k`. */
  lemma {:induction false} SpellsConst(s: seq<bool>, k: nat)
    ensures (k < Pow2(|s|) && forall i :: 0 <= i < |s| ==> s[i] == BitOf(k, i)) <==> Num(s) == k
    decreases |s|
  {
    if s != [] {
      SpellsConst(s[1..], k / 2);
      assert forall i :: 0 < i < |s| ==> s[i] == s[1..][i - 1] && BitOf(k, i) == BitOf(k / 2, i - 1);
      assert BitOf(k, 0) == (k % 2 == 1);
      assert (forall i :: 0 <= i < |s| ==> s[i] == BitOf(k, i))
        <==> (s[0] == BitOf(k, 0) && forall i :: 0 <= i < |s[1..]| ==> s[1..][i] == BitOf(k / 2, i)) by {
        if forall i :: 0 <= i < |s| ==> s[i] == BitOf(k, i) {
          assert forall i :: 0 <= i < |s[1..]| ==> s[1..][i] == s[i + 1];
        }
      }
    }
  }

  lemma {:induction false} MatchTerms(s: seq<bool>, terms: seq<bool>, k: nat)
    requires |s| == |terms| && forall j :: 0 <= j < |s| ==> terms[j] == (s[j] == BitOf(k, j))
    ensures (k < Pow2(|s|) && Fold(AndGate, terms)) <==> Num(s) == k
  {
    hide BitOf; hide Num; hide Fold;
    SpellsConst(s, k);
    FoldAnd(terms);
  }

  /** ir.py:301-309: A equals the constant `k`. */
  method EqConst(d: Dag, A: seq<nat>, k: nat) returns (r: nat)
    requires d.Valid() && InGraph(d.nodes, A)
    modifies d
    ensures d.Valid() && Extends(old(d.nodes), d.nodes) && r < |d.nodes|
    ensures forall e :: Val(d.nodes, r, e) <==> Num(Bools(old(d.nodes), A, e)) == k
  {
    hide Graph; hide Val; hide Num; hide Fold;
    PrefixExtends(d.nodes, d.nodes);
    GraphSize(d.nodes);
    ConstVals(d.nodes);
    var terms := [];
    for i := 0 to |A|
      invariant d.Valid() && Extends(old(d.nodes), d.nodes) && |terms| == i && InGraph(d.nodes, terms)
      invariant forall e, j :: 0 <= j < i ==>
                  Bools(d.nodes, terms, e)[j] == (Bools(old(d.nodes), A, e)[j] == BitOf(k, j))
    {
      ghost var before := d.nodes;
      var x := A[i];
      if !BitOf(k, i) { x := d.VNot(A[i]); }
      PrefixExtends(before, d.nodes);
      ExtendsTrans(old(d.nodes), before, d.nodes);
      BoolsExtend(before, d.nodes, terms);
      terms := terms + [x];
    }
    ghost var mid := d.nodes;
    if k >= Pow2(|A|) {
      r := CONST0;
    } else {
      r := ReduceTree(d, AndGate, terms);
      ExtendsTrans(old(d.nodes), mid, d.nodes);
      BoolsExtend(mid, d.nodes, terms);
    }
    forall e
      ensures Val(d.nodes, r, e) <==> Num(Bools(old(d.nodes), A, e)) == k
    {
      MatchTerms(Bools(old(d.nodes), A, e), Bools(mid, terms, e), k);
    }
  }
}
