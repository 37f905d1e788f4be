/** The netlists the bit-slicing generator reads (prototype/gen.py), and what their cells mean. */
module Netlist {
  import opened Options
  import opened Arith
  import opened Numbers

  /** One entry of a connection list: a constant, an undefined bit, or a net. */
  datatype Bit = Const0 | Const1 | Undef | Net(id: nat)

  /** `Other` is every cell type the generator has no rule for; `Ne` it orders but does not emit. */
  datatype Kind = And | Or | Xor | Not | Mux | Pmux | Eq | Ne | LogicNot | ReduceBool | Add | Sub | Other

  /** `signed` says that both operands are read as two's-complement numbers. */
  datatype Cell = Cell(kind: Kind, signed: bool, a: seq<Bit>, b: seq<Bit>, s: seq<Bit>, y: seq<nat>)

  /** A flip-flop cell; the enable and the synchronous reset are optional ports, each with the
      level at which it acts. `enFirst` says that a disabled flip-flop ignores its reset. */
  datatype Ff = Ff(d: seq<Bit>, q: seq<nat>, en: Option<Bit>, enHigh: bool,
                   srst: Option<Bit>, srstHigh: bool, srstValue: seq<bool>, enFirst: bool)

  datatype Design = Design(cells: seq<Cell>, ffs: seq<Ff>, ports: set<nat>)

  /** The inputs a combinational cell waits for. */
  function Reads(c: Cell): seq<Bit> {
    match c.kind
    case And | Or | Xor | Eq | Ne | Add | Sub => c.a + c.b
    case Mux | Pmux => c.a + c.b + c.s
    case Not | LogicNot | ReduceBool => c.a
    case Other => []
  }

  function NetsOf(bits: seq<Bit>): set<nat> { set b | b in bits && b.Net? :: b.id }

  function CellNets(c: Cell): set<nat> { NetsOf(c.a + c.b + c.s) + (set b | b in c.y) }

  function OptBit(o: Option<Bit>): seq<Bit> { if o.Some? then [o.value] else [] }

  function FfNets(f: Ff): set<nat> { NetsOf(f.d + OptBit(f.en) + OptBit(f.srst)) + (set b | b in f.q) }

  function Driven(d: Design): set<nat> {
    set i, b | 0 <= i < |d.cells| && b in d.cells[i].y :: b
  }

  function FfBits(d: Design): set<nat> {
    set i, b | 0 <= i < |d.ffs| && b in d.ffs[i].q :: b
  }

  function Nets(d: Design): set<nat> {
    (set i, b | 0 <= i < |d.cells| && b in CellNets(d.cells[i]) :: b)
    + (set i, b | 0 <= i < |d.ffs| && b in FfNets(d.ffs[i]) :: b)
    + d.ports
  }

  /** What is known before any cell is evaluated. */
  function Sources(d: Design): set<nat> { (Nets(d) - Driven(d)) + FfBits(d) }

  /** No net has two drivers. */
  ghost predicate SingleDriver(d: Design) {
    && (forall i, j, x, y :: 0 <= i < |d.cells| && 0 <= j < |d.cells|
          && 0 <= x < |d.cells[i].y| && 0 <= y < |d.cells[j].y| && d.cells[i].y[x] == d.cells[j].y[y]
          ==> i == j && x == y)
    && (forall i, j, x, y :: 0 <= i < |d.ffs| && 0 <= j < |d.ffs|
          && 0 <= x < |d.ffs[i].q| && 0 <= y < |d.ffs[j].q| && d.ffs[i].q[x] == d.ffs[j].q[y]
          ==> i == j && x == y)
    && Driven(d) !! FfBits(d)
  }

  // ---- the meaning of one flip-flop ----

  function ResetBit(f: Ff, i: nat): bool { i < |f.srstValue| && f.srstValue[i] }

  /** The new state of bit `i`, given the levels of the ports, the data and the old state. */
  function NextBit(f: Ff, i: nat, en: bool, srst: bool, data: bool, held: bool): bool {
    var enabled := f.en.None? || en == f.enHigh;
    if f.enFirst && !enabled then held
    else if f.srst.Some? && srst == f.srstHigh then ResetBit(f, i)
    else if enabled then data
    else held
  }

  /** What the generator writes for it: both ports act when high, the reset is to zero and
      comes first. */
  function TextBit(f: Ff, en: bool, srst: bool, data: bool, held: bool): bool {
    if f.srst.Some? && srst then false else if f.en.Some? && !en then held else data
  }

  /** The flip-flops for which that is right. */
  predicate FfFaithful(f: Ff, i: nat) {
    && (f.en.Some? ==> f.enHigh)
    && (f.srst.Some? ==> f.srstHigh && !ResetBit(f, i))
    && (f.en.Some? && f.srst.Some? ==> !f.enFirst)
  }

  predicate NextAgrees(f: Ff, i: nat, en: bool, srst: bool, data: bool, held: bool) {
    NextBit(f, i, en, srst, data, held) == TextBit(f, en, srst, data, held)
  }

  /** The update the generator writes is the flip-flop's for all levels of its ports, all data
      and all states exactly for the polarities, reset values and orders of `FfFaithful`. */
  lemma {:induction false} FfTextRightIff(f: Ff, i: nat)
    ensures FfFaithful(f, i) <==>
            forall en: bool, srst: bool, data: bool, held: bool :: NextAgrees(f, i, en, srst, data, held)
  {
    if f.srst.Some? && !(f.srstHigh && !ResetBit(f, i)) {
      assert !NextAgrees(f, i, f.enHigh, true, true, true);
    } else if f.en.Some? && !f.enHigh {
      assert !NextAgrees(f, i, true, false, true, false);
    } else if f.en.Some? && f.srst.Some? && f.enFirst {
      assert !NextAgrees(f, i, false, true, true, true);
    }
  }

  // ---- the meaning of one cell, as equations between bits and numbers ----

  /** A lane's view: one truth value a net. */
  type Valuation = map<nat, bool>

  function BitVal(b: Bit, v: Valuation): bool {
    match b
    case Const0 => false
    case Const1 => true
    case Undef => false
    case Net(id) => NetVal(id, v)
  }

  function NetVal(id: nat, v: Valuation): bool { id in v && v[id] }

  function Vals(bs: seq<Bit>, v: Valuation): (r: seq<bool>)
    ensures |r| == |bs| && forall i :: 0 <= i < |bs| ==> r[i] == BitVal(bs[i], v)
  {
    seq(|bs|, i requires 0 <= i < |bs| => BitVal(bs[i], v))
  }

  function NetVals(ns: seq<nat>, v: Valuation): (r: seq<bool>)
    ensures |r| == |ns| && forall i :: 0 <= i < |ns| ==> r[i] == NetVal(ns[i], v)
  {
    seq(|ns|, i requires 0 <= i < |ns| => NetVal(ns[i], v))
  }

  /** The widths each rule of the generator indexes within: `a`, `b`, `s`, `y` bits long. */
  predicate Emits(k: Kind, a: nat, b: nat, s: nat, y: nat) {
    match k
    case And | Or | Xor => a >= y && b >= y
    case Not => a >= y
    case Mux => a >= y && b >= y && s >= 1
    case Pmux => s >= 1 && b >= s * y
    case Eq => y >= 1 && b >= a >= 1
    case LogicNot | ReduceBool => y >= 1 && a >= 1
    case Add | Sub => a >= y
    case Ne | Other => false
  }

  /** The widths and signs for which the rule means what the cell means (see
      `CellMeaning.TextRightIff`): it compares the low bits of `B` only, drives one bit of a
      truth value, and extends `B` with zeroes. */
  predicate Faithful(k: Kind, signed: bool, a: nat, b: nat, y: nat) {
    match k
    case Eq => a == b && y == 1
    case LogicNot | ReduceBool => y == 1
    case Add | Sub => !signed || b >= y || b == 0
    case And | Or | Xor | Not | Mux | Pmux | Ne | Other => true
  }

  predicate Fits(k: Kind, signed: bool, a: nat, b: nat, s: nat, y: nat) {
    Emits(k, a, b, s, y) && Faithful(k, signed, a, b, y)
  }

  predicate Emitted(c: Cell) { Emits(c.kind, |c.a|, |c.b|, |c.s|, |c.y|) }

  predicate Shaped(c: Cell) { Fits(c.kind, c.signed, |c.a|, |c.b|, |c.s|, |c.y|) }

  /** Where bit `i` of choice `j` lies in the B port of a `$pmux`. */
  function ChoiceAt(s: nat, y: nat, j: nat, i: nat): (at: nat)
    requires j < s && i < y
    ensures at < s * y
  {
    MulMono(j + 1, s, y);
    j * y + i
  }

  ghost predicate Chosen(B: seq<bool>, S: seq<bool>, y: nat, i: nat)
    requires |B| >= |S| * y && i < y
  {
    exists j :: 0 <= j < |S| && S[j] && B[ChoiceAt(|S|, y, j, i)]
  }

  /** A truth value as a number of `w` bits. */
  function Flag(x: bool, w: nat): (r: seq<bool>)
    ensures |r| == w && forall i :: 0 <= i < w ==> r[i] == (i == 0 && x)
  {
    seq(w, i => i == 0 && x)
  }

  /** What a cell's outputs have to be, given its inputs: bit by bit, or in terms of the
      numbers the operands spell, signed or unsigned, at their full widths. */
  ghost predicate Equation(k: Kind, signed: bool, A: seq<bool>, B: seq<bool>, S: seq<bool>, Y: seq<bool>)
    requires Emits(k, |A|, |B|, |S|, |Y|)
  {
    match k
    case And => forall i :: 0 <= i < |Y| ==> Y[i] == (A[i] && B[i])
    case Or => forall i :: 0 <= i < |Y| ==> Y[i] == (A[i] || B[i])
    case Xor => forall i :: 0 <= i < |Y| ==> Y[i] == (A[i] != B[i])
    case Not => forall i :: 0 <= i < |Y| ==> Y[i] == !A[i]
    case Mux => Y == if S[0] then B[..|Y|] else A[..|Y|]
    case Pmux => forall i :: 0 <= i < |Y| ==> Y[i] == Chosen(B, S, |Y|, i)
    case Eq => Y == Flag(Value(A, signed) == Value(B, signed), |Y|)
    case LogicNot => Y == Flag(Value(A, signed) == 0, |Y|)
    case ReduceBool => Y == Flag(Value(A, signed) != 0, |Y|)
    case Add => Num(Y) == (Value(A, signed) + Value(B, signed)) % Pow2(|Y|)
    case Sub => Num(Y) == (Value(A, signed) - Value(B, signed)) % Pow2(|Y|)
  }

  ghost predicate CellHolds(c: Cell, v: Valuation)
    requires Emitted(c)
  {
    Equation(c.kind, c.signed, Vals(c.a, v), Vals(c.b, v), Vals(c.s, v), NetVals(c.y, v))
  }

  /** With at most select `j` set, the equation of `$pmux` is "choice j if it is set, else
      zero", whatever A holds. */
  lemma {:induction false} PmuxSelects(signed: bool, A: seq<bool>, B: seq<bool>, S: seq<bool>, Y: seq<bool>, j: nat)
    requires Emits(Pmux, |A|, |B|, |S|, |Y|) && Equation(Pmux, signed, A, B, S, Y) && j < |S|
    requires forall k :: 0 <= k < |S| && k != j ==> !S[k]
    ensures forall i :: 0 <= i < |Y| ==> Y[i] == (S[j] && B[ChoiceAt(|S|, |Y|, j, i)])
  {
    forall i | 0 <= i < |Y|
      ensures Y[i] == (S[j] && B[ChoiceAt(|S|, |Y|, j, i)])
    {
      assert Y[i] == Chosen(B, S, |Y|, i);
    }
  }
}
