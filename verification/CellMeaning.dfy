/** The generated lines of one cell, run in one lane, solve the equation of that cell and
    touch nothing else; and an equation has one solution. */
module CellMeaning {
  import opened Arith
  import opened Numbers
  import opened Netlist
  import opened Emit

  // ---- what the text computes, and when that is what the cell means ----

  function OutLines(k: Kind, w: nat): nat { if k in {Eq, LogicNot, ReduceBool} then 1 else w }

  /** What the lines of a rule compute from the operands. */
  ghost function Outputs(k: Kind, w: nat, A: seq<bool>, B: seq<bool>, S: seq<bool>): (Y: seq<bool>)
    requires Emits(k, |A|, |B|, |S|, w)
    ensures |Y| == OutLines(k, w)
  {
    match k
    case And => seq(w, i requires 0 <= i < w => A[i] && B[i])
    case Or => seq(w, i requires 0 <= i < w => A[i] || B[i])
    case Xor => seq(w, i requires 0 <= i < w => A[i] != B[i])
    case Not => seq(w, i requires 0 <= i < w => !A[i])
    case Mux => if S[0] then B[..w] else A[..w]
    case Pmux => seq(w, i requires 0 <= i < w => Chosen(B, S, w, i))
    case Eq => [A == B[..|A|]]
    case LogicNot => [Num(A) == 0]
    case ReduceBool => [Num(A) != 0]
    case Add => Sum(A[..w], Fit(B, w), false)
    case Sub => Sum(A[..w], Flip(Fit(B, w)), true)
  }

  /** All output bits after the lines have run: those without a line are as they were. */
  ghost function TextOuts(k: Kind, A: seq<bool>, B: seq<bool>, S: seq<bool>, Y0: seq<bool>): (Y: seq<bool>)
    requires Emits(k, |A|, |B|, |S|, |Y0|)
    ensures |Y| == |Y0|
  {
    Outputs(k, |Y0|, A, B, S) + Y0[OutLines(k, |Y0|)..]
  }

  lemma {:induction false} FlagIsOne(x: bool)
    ensures Flag(x, 1) == [x]
  {
  }

  /** Signed or not, an operand that reaches the width adds the same modulo 2^w. */
  lemma {:induction false} AddEquation(signed: bool, A: seq<bool>, B: seq<bool>, w: nat)
    requires Fits(Add, signed, |A|, |B|, 0, w)
    ensures Num(Sum(A[..w], Fit(B, w), false)) == (Value(A, signed) + Value(B, signed)) % Pow2(w)
  {
    hide Value; hide Sum; hide Fit; hide Num; hide Pow2;
    var q := ValueShift(A, signed, w);
    var r := ValueShift(B, signed, w);
    SumIsAdd(A, B, w);
    Spread(q, r, Pow2(w));
    ModShift(Value(A, signed) + Value(B, signed), q + r, Pow2(w));
  }

  lemma {:induction false} SubEquation(signed: bool, A: seq<bool>, B: seq<bool>, w: nat)
    requires Fits(Sub, signed, |A|, |B|, 0, w)
    ensures Num(Sum(A[..w], Flip(Fit(B, w)), true)) == (Value(A, signed) - Value(B, signed)) % Pow2(w)
  {
    hide Value; hide Sum; hide Flip; hide Fit; hide Num; hide Pow2;
    var q := ValueShift(A, signed, w);
    var r := ValueShift(B, signed, w);
    SumIsSub(A, B, w);
    Spread(q, r, Pow2(w));
    ModShift(Value(A, signed) - Value(B, signed), q - r, Pow2(w));
  }

  /** A cell's equation fixes its outputs: they are what the text computes. */
  lemma {:induction false} OneSolution(k: Kind, signed: bool, A: seq<bool>, B: seq<bool>, S: seq<bool>, Y: seq<bool>)
    requires Fits(k, signed, |A|, |B|, |S|, |Y|)
    ensures Equation(k, signed, A, B, S, Y) <==> Y == Outputs(k, |Y|, A, B, S)
  {
    hide Sum; hide Flip; hide Fit; hide Num; hide Value; hide Flag;
    var w := |Y|;
    var O := Outputs(k, w, A, B, S);
    match k
    case Add =>
      AddEquation(signed, A, B, w);
      if Num(Y) == Num(O) { NumInjective(Y, O); }
    case Sub =>
      SubEquation(signed, A, B, w);
      if Num(Y) == Num(O) { NumInjective(Y, O); }
    case Eq =>
      ValueInjective(A, B, signed);
      FlagIsOne(A == B);
    case LogicNot | ReduceBool =>
      ValueZero(A, signed);
      FlagIsOne(Num(A) == 0);
      FlagIsOne(Num(A) != 0);
    case And | Or | Xor | Not | Mux | Pmux =>
      if Equation(k, signed, A, B, S, Y) {
        assert forall i :: 0 <= i < w ==> Y[i] == O[i];
      }
  }

  ghost predicate TextRight(k: Kind, signed: bool, A: seq<bool>, B: seq<bool>, S: seq<bool>, Y0: seq<bool>)
    requires Emits(k, |A|, |B|, |S|, |Y0|)
  {
    Equation(k, signed, A, B, S, TextOuts(k, A, B, S, Y0))
  }

  function OneAt(n: nat, at: nat): (r: seq<bool>)
    ensures |r| == n && forall i :: 0 <= i < n ==> r[i] == (i == at)
  {
    seq(n, i => i == at)
  }

  /** The text of a rule leaves the equation of its cell true, for all operands and all
      earlier contents of the outputs, exactly for the widths and signs of `Faithful`. */
  lemma {:induction false} TextRightIff(k: Kind, signed: bool, a: nat, b: nat, s: nat, w: nat)
    requires Emits(k, a, b, s, w)
    ensures Faithful(k, signed, a, b, w) <==>
            forall A: seq<bool>, B: seq<bool>, S: seq<bool>, Y0: seq<bool>
              | |A| == a && |B| == b && |S| == s && |Y0| == w :: TextRight(k, signed, A, B, S, Y0)
  {
    hide TextRight;
    if Faithful(k, signed, a, b, w) {
      forall A: seq<bool>, B: seq<bool>, S: seq<bool>, Y0: seq<bool> | |A| == a && |B| == b && |S| == s && |Y0| == w
        ensures TextRight(k, signed, A, B, S, Y0)
      {
        FaithfulText(k, signed, A, B, S, Y0);
      }
    } else {
      var A, B, S, Y0 := TextFails(k, signed, a, b, s, w);
    }
  }

  lemma {:induction false} FaithfulText(k: Kind, signed: bool, A: seq<bool>, B: seq<bool>, S: seq<bool>, Y0: seq<bool>)
    requires Fits(k, signed, |A|, |B|, |S|, |Y0|)
    ensures TextRight(k, signed, A, B, S, Y0)
  {
    hide Outputs; hide Equation;
    assert TextOuts(k, A, B, S, Y0) == Outputs(k, |Y0|, A, B, S);
    OneSolution(k, signed, A, B, S, TextOuts(k, A, B, S, Y0));
  }

  /** Operands on which the text is wrong. */
  lemma {:induction false} TextFails(k: Kind, signed: bool, a: nat, b: nat, s: nat, w: nat)
    returns (A: seq<bool>, B: seq<bool>, S: seq<bool>, Y0: seq<bool>)
    requires Emits(k, a, b, s, w) && !Faithful(k, signed, a, b, w)
    ensures |A| == a && |B| == b && |S| == s && |Y0| == w && !TextRight(k, signed, A, B, S, Y0)
  {
    hide TextRight;
    A, S := Zeroes(a), Zeroes(s);
    if k == Add || k == Sub {
      B, Y0 := OneAt(b, b - 1), Zeroes(w);
      SignLost(k, A, B, S, Y0);
    } else if w > 1 {
      B, Y0 := Zeroes(b), OneAt(w, 1);
      BitLeft(k, signed, A, B, S, Y0);
    } else {
      B, Y0 := OneAt(b, a), Zeroes(w);
      LowBitsOnly(signed, A, B, S, Y0);
    }
  }

  /** A second output bit that was set stays set. */
  lemma {:induction false} BitLeft(k: Kind, signed: bool, A: seq<bool>, B: seq<bool>, S: seq<bool>, Y0: seq<bool>)
    requires k in {Eq, LogicNot, ReduceBool} && Emits(k, |A|, |B|, |S|, |Y0|) && |Y0| > 1 && Y0[1]
    ensures !TextRight(k, signed, A, B, S, Y0)
  {
    hide Value; hide Num;
    assert TextOuts(k, A, B, S, Y0)[1];
  }

  /** Zero and a number with a bit above A's width compare equal. */
  lemma {:induction false} LowBitsOnly(signed: bool, A: seq<bool>, B: seq<bool>, S: seq<bool>, Y0: seq<bool>)
    requires Emits(Eq, |A|, |B|, |S|, |Y0|) && |Y0| == 1 && |A| < |B|
    requires A == Zeroes(|A|) && B == OneAt(|B|, |A|)
    ensures !TextRight(Eq, signed, A, B, S, Y0)
  {
    hide Value; hide Num;
    ValueZero(A, signed);
    ValueZero(B, signed);
    NumZero(A);
    NumZero(B);
    assert B[|A|];
    assert TextOuts(Eq, A, B, S, Y0)[0];
  }

  /** A negative B narrower than the sum is taken for a positive one. */
  lemma {:induction false} SignLost(k: Kind, A: seq<bool>, B: seq<bool>, S: seq<bool>, Y0: seq<bool>)
    requires (k == Add || k == Sub) && Emits(k, |A|, |B|, |S|, |Y0|)
    requires 0 < |B| < |Y0| && B[|B| - 1] && A == Zeroes(|A|)
    ensures !TextRight(k, true, A, B, S, Y0)
  {
    hide Sum; hide Flip; hide Fit; hide Num;
    var w := |Y0|;
    NumZero(A);
    ValueZero(A, true);
    Pow2Strict(|B|, w);
    var d: nat := Pow2(|B|);
    assert Value(B, true) == Num(B) - d;
    assert TextOuts(k, A, B, S, Y0) == Outputs(k, w, A, B, S);
    if k == Add {
      SumIsAdd(A, B, w);
      ModApart(Num(B) - d, Num(B), Pow2(w));
    } else {
      SumIsSub(A, B, w);
      ModApart(0 - Num(B), d - Num(B), Pow2(w));
    }
  }

  // ---- what a cell reads and writes ----

  function Get(b: Bits, v: Var): bool { v in b && b[v] }

  /** The nets of a lane's store. */
  function Wires(b: Bits): (v: Valuation)
    ensures forall id :: NetVal(id, v) == Get(b, Wire(id))
  {
    map v | v in b && v.Wire? :: v.id := b[v]
  }

  ghost function OutsOf(c: Cell, v: Valuation): (Y: seq<bool>)
    requires Emitted(c)
    ensures |Y| == Lines(c)
  {
    Outputs(c.kind, |c.y|, Vals(c.a, v), Vals(c.b, v), Vals(c.s, v))
  }

  ghost predicate Agree(bits: seq<Bit>, v: Valuation, u: Valuation) {
    forall b :: b in bits ==> BitVal(b, v) == BitVal(b, u)
  }

  lemma {:induction false} AgreeVals(bits: seq<Bit>, part: seq<Bit>, v: Valuation, u: Valuation)
    requires Agree(bits, v, u) && forall b :: b in part ==> b in bits
    ensures Vals(part, v) == Vals(part, u)
  {
    forall i | 0 <= i < |part|
      ensures Vals(part, v)[i] == Vals(part, u)[i]
    {
      assert part[i] in bits;
    }
  }

  /** A cell's outputs depend only on the inputs it waits for. */
  lemma {:induction false} OutsByReads(c: Cell, v: Valuation, u: Valuation)
    requires Emitted(c) && Agree(Reads(c), v, u)
    ensures OutsOf(c, v) == OutsOf(c, u)
  {
    hide Num; hide Fit; hide Sum; hide Flip; hide Chosen;
    AgreeVals(Reads(c), c.a, v, u);
    if c.kind in {And, Or, Xor, Eq, Add, Sub, Mux, Pmux} { AgreeVals(Reads(c), c.b, v, u); }
    if c.kind in {Mux, Pmux} { AgreeVals(Reads(c), c.s, v, u); }
  }

  lemma {:induction false} NameIs(x: Bit, b: Bits)
    ensures EvalBit(Name(x), b) == BitVal(x, Wires(b))
  {
  }

  lemma {:induction false} JoinIs(es: seq<Expr>, b: Bits)
    requires |es| >= 1
    ensures EvalBit(Join(es), b) <==> exists j :: 0 <= j < |es| && EvalBit(es[j], b)
    decreases |es|
  {
    if |es| > 1 {
      var front := es[..|es| - 1];
      JoinIs(front, b);
      if EvalBit(Join(front), b) {
        var j :| 0 <= j < |front| && EvalBit(front[j], b);
        assert EvalBit(es[j], b);
      }
      if j :| 0 <= j < |es| && EvalBit(es[j], b) {
        if j < |front| { assert EvalBit(front[j], b); }
      }
    }
  }

  /** The text of one output bit computes it. */
  lemma {:induction false} RhsIs(c: Cell, i: nat, b: Bits)
    requires Emitted(c) && i < Lines(c) && !c.kind.Add? && !c.kind.Sub?
    ensures EvalBit(Rhs(c, i), b) == OutsOf(c, Wires(b))[i]
  {
    hide Num; hide Wires; hide BitVal; hide Name; hide Join;
    var v := Wires(b);
    if c.kind in {Pmux, Eq, LogicNot, ReduceBool} {
      TermsAre(c, i, b);
    } else {
      NameIs(c.a[i], b);
      if !c.kind.Not? { NameIs(c.b[i], b); }
      if c.kind.Mux? {
        NameIs(c.s[0], b);
        EvalMux(Name(c.a[i]), Name(c.b[i]), Name(c.s[0]), b);
      }
    }
  }

  lemma {:induction false} EvalMux(x: Expr, y: Expr, s: Expr, b: Bits)
    ensures EvalBit(Disj(Conj(x, Inv(s)), Conj(y, s)), b)
            == if EvalBit(s, b) then EvalBit(y, b) else EvalBit(x, b)
  {
    assert EvalBit(Inv(s), b) == !EvalBit(s, b);
  }

  /** The two right-hand sides of an adder bit, over the locals. */
  lemma {:induction false} EvalAdder(b: Bits)
    ensures EvalBit(Excl(Excl(Use(LocA), Use(LocB)), Use(Carry)), b)
            == ((Get(b, LocA) != Get(b, LocB)) != Get(b, Carry))
    ensures EvalBit(Disj(Conj(Use(LocA), Use(LocB)), Conj(Use(Carry), Excl(Use(LocA), Use(LocB)))), b)
            == ((Get(b, LocA) && Get(b, LocB)) || (Get(b, Carry) && Get(b, LocA) != Get(b, LocB)))
  {
    assert EvalBit(Excl(Use(LocA), Use(LocB)), b) == (Get(b, LocA) != Get(b, LocB));
    assert EvalBit(Conj(Use(LocA), Use(LocB)), b) == (Get(b, LocA) && Get(b, LocB));
  }

  lemma {:induction false} TermsAre(c: Cell, i: nat, b: Bits)
    requires Emitted(c) && i < Lines(c) && c.kind in {Pmux, Eq, LogicNot, ReduceBool}
    ensures EvalBit(Join(Terms(c, i)), b) == (OutsOf(c, Wires(b))[i] != (c.kind in {Eq, LogicNot}))
  {
    hide Num; hide Wires; hide BitVal; hide Name; hide Join;
    var v := Wires(b);
    var es := Terms(c, i);
    var A, B, S := Vals(c.a, v), Vals(c.b, v), Vals(c.s, v);
    JoinIs(es, b);
    if c.kind.Pmux? {
      forall j | 0 <= j < |c.s|
        ensures EvalBit(es[j], b) == (S[j] && B[ChoiceAt(|S|, |c.y|, j, i)])
      {
        NameIs(c.b[ChoiceAt(|c.s|, |c.y|, j, i)], b);
        NameIs(c.s[j], b);
      }
    } else if c.kind.Eq? {
      forall j | 0 <= j < |c.a|
        ensures EvalBit(es[j], b) == (A[j] != B[j])
      {
        NameIs(c.a[j], b);
        NameIs(c.b[j], b);
      }
    } else {
      forall j | 0 <= j < |c.a|
        ensures EvalBit(es[j], b) == A[j]
      {
        NameIs(c.a[j], b);
      }
      NumZero(A);
    }
  }

  // ---- running the text of a cell ----

  predicate Local(v: Var) { v.LocA? || v.LocB? || v.Carry? }

  /** Only the cell's outputs and the locals of an adder block change. */
  ghost predicate Keeps(c: Cell, b: Bits, b': Bits) {
    forall v :: !Local(v) && !(v.Wire? && v.id in c.y) ==> Get(b', v) == Get(b, v)
  }

  /** No cell of a combinational schedule reads its own output, and no output is driven twice. */
  ghost predicate WritesApart(c: Cell) {
    && (forall i, j :: 0 <= i < j < |c.y| ==> c.y[i] != c.y[j])
    && forall x :: x in Reads(c) && x.Net? ==> x.id !in c.y
  }

  lemma {:induction false} KeptReads(c: Cell, b: Bits, b': Bits)
    requires WritesApart(c) && Keeps(c, b, b')
    ensures Agree(Reads(c), Wires(b), Wires(b'))
  {
    hide Wires;
    forall x | x in Reads(c)
      ensures BitVal(x, Wires(b)) == BitVal(x, Wires(b'))
    {
      if x.Net? { assert Get(b', Wire(x.id)) == Get(b, Wire(x.id)); }
    }
  }

  /** The carry an adder block starts bit `i` with. */
  ghost function CarryOf(c: Cell, v: Valuation, i: nat): bool
    requires Emitted(c) && (c.kind.Add? || c.kind.Sub?) && i <= |c.y|
  {
    var B := Fit(Vals(c.b, v), |c.y|);
    CarryAt(Vals(c.a, v)[..|c.y|], if c.kind.Sub? then Flip(B) else B, c.kind.Sub?, i)
  }

  lemma {:induction false} RunUpTo(c: Cell, b: Bits, n: nat)
    requires Emitted(c) && WritesApart(c) && n <= Lines(c)
    ensures var b' := Run(UpTo(c, n), b);
      && Keeps(c, b, b')
      && (forall i :: 0 <= i < n ==> Get(b', Wire(c.y[i])) == OutsOf(c, Wires(b))[i])
      && (forall i :: n <= i < |c.y| ==> Get(b', Wire(c.y[i])) == Get(b, Wire(c.y[i])))
      && (c.kind.Add? || c.kind.Sub? ==> Get(b', Carry) == CarryOf(c, Wires(b), n))
    decreases n
  {
    hide OutsOf; hide Wires; hide BitText; hide CarryOf; hide UpTo;
    if n == 0 {
      RunStart(c, b);
    } else {
      RunUpTo(c, b, n - 1);
      var m := Run(UpTo(c, n - 1), b);
      UpToStep(c, n);
      RunApp(UpTo(c, n - 1), BitText(c, n - 1), b);
      KeptReads(c, b, m);
      OutsByReads(c, Wires(b), Wires(m));
      if c.kind.Add? || c.kind.Sub? {
        CarryByReads(c, Wires(b), Wires(m), n - 1);
        CarryByReads(c, Wires(b), Wires(m), n);
        RunAdderBit(c, n - 1, m);
      } else {
        RunPlainBit(c, n - 1, m);
      }
    }
  }

  lemma {:induction false} UpToStep(c: Cell, n: nat)
    requires Emitted(c) && 0 < n <= Lines(c)
    ensures UpTo(c, n) == UpTo(c, n - 1) + BitText(c, n - 1)
  {
  }

  lemma {:induction false} RunStart(c: Cell, b: Bits)
    requires Emitted(c)
    ensures var b' := Run(UpTo(c, 0), b);
      (forall v :: !Local(v) ==> Get(b', v) == Get(b, v)) && (c.kind.Add? || c.kind.Sub? ==> Get(b', Carry) == CarryOf(c, Wires(b), 0))
  {
    hide Wires;
    if c.kind.Add? || c.kind.Sub? { RunOne(CarryIn(c), b); }
  }

  lemma {:induction false} RunOne(s: Stmt, b: Bits)
    ensures Run([s], b) == b[s.v := EvalBit(s.e, b)]
  {
    assert [s][1..] == [];
  }

  lemma {:induction false} CarryByReads(c: Cell, v: Valuation, u: Valuation, n: nat)
    requires Emitted(c) && (c.kind.Add? || c.kind.Sub?) && n <= Lines(c) && Agree(Reads(c), v, u)
    ensures CarryOf(c, v, n) == CarryOf(c, u, n)
  {
    AgreeVals(Reads(c), c.a, v, u);
    AgreeVals(Reads(c), c.b, v, u);
  }

  lemma {:induction false} RunPlainBit(c: Cell, i: nat, b: Bits)
    requires Emitted(c) && i < Lines(c) && !c.kind.Add? && !c.kind.Sub?
    ensures Run(BitText(c, i), b) == b[Wire(c.y[i]) := OutsOf(c, Wires(b))[i]]
  {
    hide Wires; hide OutsOf; hide Rhs; hide EvalBit;
    RunOne(Assign(Wire(c.y[i]), Rhs(c, i)), b);
    RhsIs(c, i, b);
  }

  lemma {:induction false} RunFour(s: seq<Stmt>, b: Bits)
    requires |s| == 4
    ensures var b1 := b[s[0].v := EvalBit(s[0].e, b)];
      var b2 := b1[s[1].v := EvalBit(s[1].e, b1)];
      var b3 := b2[s[2].v := EvalBit(s[2].e, b2)];
      Run(s, b) == b3[s[3].v := EvalBit(s[3].e, b3)]
  {
    hide EvalBit;
    var b1 := b[s[0].v := EvalBit(s[0].e, b)];
    var b2 := b1[s[1].v := EvalBit(s[1].e, b1)];
    var b3 := b2[s[2].v := EvalBit(s[2].e, b2)];
    var t1 := s[1..];
    var t2 := t1[1..];
    var t3 := t2[1..];
    assert Run(s, b) == Run(t1, b1);
    assert Run(t1, b1) == Run(t2, b2);
    assert Run(t2, b2) == Run(t3, b3);
    assert t3 == [s[3]];
    RunOne(s[3], b3);
  }

  /** The addend of bit `i`: B's bit, zero past its end, inverted to subtract. */
  lemma {:induction false} AddendIs(c: Cell, i: nat, b: Bits)
    ensures EvalBit(Addend(c, i), b)
            == ((i < |c.b| && BitVal(c.b[i], Wires(b))) != c.kind.Sub?)
  {
    hide Wires;
    if i < |c.b| { NameIs(c.b[i], b); }
  }

  lemma {:induction false} RunAdderBit(c: Cell, i: nat, b: Bits)
    requires Emitted(c) && (c.kind.Add? || c.kind.Sub?) && i < Lines(c)
    requires Get(b, Carry) == CarryOf(c, Wires(b), i)
    ensures var b' := Run(BitText(c, i), b);
      && (forall v :: !Local(v) && v != Wire(c.y[i]) ==> Get(b', v) == Get(b, v))
      && Get(b', Wire(c.y[i])) == OutsOf(c, Wires(b))[i]
      && Get(b', Carry) == CarryOf(c, Wires(b), i + 1)
  {
    hide Wires; hide Name; hide Addend; hide BitVal; hide Run; hide EvalBit; hide OutsOf; hide CarryOf;
    var v := Wires(b);
    var x, y, k := BitVal(c.a[i], v), EvalBit(Addend(c, i), b), Get(b, Carry);
    RunFour(AdderBit(c, i), b);
    NameIs(c.a[i], b);
    AddendIs(c, i, b);
    AddendAfterA(c, i, b, x);
    AdderOutputs(c, v, i);
    var b2 := b[LocA := x][LocB := y];
    EvalAdder(b2);
    EvalAdder(b2[Wire(c.y[i]) := (x != y) != k]);
  }

  /** Setting the local `a` does not disturb the addend. */
  lemma {:induction false} AddendAfterA(c: Cell, i: nat, b: Bits, x: bool)
    ensures EvalBit(Addend(c, i), b[LocA := x]) == EvalBit(Addend(c, i), b)
  {
  }

  lemma {:induction false} AdderOutputs(c: Cell, v: Valuation, i: nat)
    requires Emitted(c) && (c.kind.Add? || c.kind.Sub?) && i < Lines(c)
    ensures var x, y, k := BitVal(c.a[i], v), (i < |c.b| && BitVal(c.b[i], v)) != c.kind.Sub?, CarryOf(c, v, i);
      && OutsOf(c, v)[i] == ((x != y) != k)
      && CarryOf(c, v, i + 1) == ((x && y) || (k && x != y))
  {
    hide BitVal;
  }

  /** The text of a cell computes what its lines say of the operands, leaves other output
      bits as they were, and changes nothing else. */
  lemma {:induction false} TextDoes(c: Cell, b: Bits)
    requires Emitted(c) && WritesApart(c)
    ensures var b' := Run(CellText(c), b);
            var v := Wires(b');
            && Keeps(c, b, b')
            && NetVals(c.y, v) == TextOuts(c.kind, Vals(c.a, v), Vals(c.b, v), Vals(c.s, v), NetVals(c.y, Wires(b)))
  {
    hide Wires; hide Outputs; hide CarryOf; hide UpTo; hide Run;
    var b' := Run(CellText(c), b);
    RunUpTo(c, b, Lines(c));
    KeptReads(c, b, b');
    OutsByReads(c, Wires(b), Wires(b'));
    var Y := NetVals(c.y, Wires(b'));
    var T := OutsOf(c, Wires(b')) + NetVals(c.y, Wires(b))[Lines(c)..];
    assert forall i :: 0 <= i < |Y| ==> Y[i] == T[i];
  }

  /** The text of a cell leaves its equation true and changes only its outputs. */
  lemma {:induction false} CellSolves(c: Cell, b: Bits)
    requires Shaped(c) && WritesApart(c)
    ensures Keeps(c, b, Run(CellText(c), b)) && CellHolds(c, Wires(Run(CellText(c), b)))
  {
    hide Wires; hide Run; hide Equation; hide TextOuts; hide CellText;
    TextDoes(c, b);
    var v := Wires(Run(CellText(c), b));
    FaithfulText(c.kind, c.signed, Vals(c.a, v), Vals(c.b, v), Vals(c.s, v), NetVals(c.y, Wires(b)));
  }

  lemma {:induction false} EquationOfOuts(c: Cell, v: Valuation)
    requires Shaped(c)
    ensures CellHolds(c, v) <==> NetVals(c.y, v) == OutsOf(c, v)
  {
    hide Equation; hide Outputs;
    OneSolution(c.kind, c.signed, Vals(c.a, v), Vals(c.b, v), Vals(c.s, v), NetVals(c.y, v));
  }
}
