/** What prototype/gen.py writes: straight-line assignments over 64-lane words, and what
    running them does to the store of one lane. */
module Emit {
  import opened Netlist
  import opened Schedule
  import W = Words

  /** `n<id>`, `p->q<id>`, `s->q<id>`, the bits of the input and output arguments, and the
      locals of an adder block. */
  datatype Var = Wire(id: nat) | Held(id: nat) | Next(id: nat) | InPin(k: nat) | OutPin(k: nat)
               | LocA | LocB | Carry

  datatype Expr = VZero | VOnes | Use(v: Var) | Inv(e: Expr)
                | Conj(l: Expr, r: Expr) | Disj(l: Expr, r: Expr) | Excl(l: Expr, r: Expr)

  datatype Stmt = Assign(v: Var, e: Expr)

  type Store = map<Var, W.Word>

  // ---- running a program on words ----

  function Eval(e: Expr, st: Store): W.Word {
    match e
    case VZero => W.Zero()
    case VOnes => W.Not(W.Zero())
    case Use(v) => if v in st then st[v] else W.Zero()
    case Inv(x) => W.Not(Eval(x, st))
    case Conj(x, y) => W.And(Eval(x, st), Eval(y, st))
    case Disj(x, y) => W.Or(Eval(x, st), Eval(y, st))
    case Excl(x, y) => W.Xor(Eval(x, st), Eval(y, st))
  }

  function Exec(p: seq<Stmt>, st: Store): Store {
    if p == [] then st else Exec(p[1..], st[p[0].v := Eval(p[0].e, st)])
  }

  // ---- one lane of it ----

  type Bits = map<Var, bool>

  function Lane(st: Store, l: nat): Bits
    requires l < W.LANES
  {
    map v | v in st :: st[v][l]
  }

  function EvalBit(e: Expr, b: Bits): bool {
    match e
    case VZero => false
    case VOnes => true
    case Use(v) => v in b && b[v]
    case Inv(x) => !EvalBit(x, b)
    case Conj(x, y) => EvalBit(x, b) && EvalBit(y, b)
    case Disj(x, y) => EvalBit(x, b) || EvalBit(y, b)
    case Excl(x, y) => EvalBit(x, b) != EvalBit(y, b)
  }

  function Run(p: seq<Stmt>, b: Bits): Bits {
    if p == [] then b else Run(p[1..], b[p[0].v := EvalBit(p[0].e, b)])
  }

  lemma {:induction false} EvalLane(e: Expr, st: Store, l: nat)
    requires l < W.LANES
    ensures Eval(e, st)[l] == EvalBit(e, Lane(st, l))
  {
    match e
    case VZero =>
    case VOnes =>
    case Use(v) =>
    case Inv(x) => EvalLane(x, st, l);
    case Conj(x, y) => EvalLane(x, st, l); EvalLane(y, st, l);
    case Disj(x, y) => EvalLane(x, st, l); EvalLane(y, st, l);
    case Excl(x, y) => EvalLane(x, st, l); EvalLane(y, st, l);
  }

  /** Any program of these statements keeps the lanes apart: lane l of the result is the
      program run on lane l alone. */
  lemma {:induction false} LanesApart(p: seq<Stmt>, st: Store, l: nat)
    requires l < W.LANES
    ensures Lane(Exec(p, st), l) == Run(p, Lane(st, l))
    decreases |p|
  {
    if p != [] {
      EvalLane(p[0].e, st, l);
      var w := Eval(p[0].e, st);
      assert Lane(st[p[0].v := w], l) == Lane(st, l)[p[0].v := w[l]];
      LanesApart(p[1..], st[p[0].v := w], l);
    }
  }

  lemma {:induction false} RunApp(p: seq<Stmt>, q: seq<Stmt>, b: Bits)
    ensures Run(p + q, b) == Run(q, Run(p, b))
    decreases |p|
  {
    if p == [] {
      assert p + q == q;
    } else {
      assert (p + q)[1..] == p[1..] + q;
      RunApp(p[1..], q, b[p[0].v := EvalBit(p[0].e, b)]);
    }
  }

  // ---- the text of each cell ----

  function Name(b: Bit): Expr {
    match b
    case Const0 => VZero
    case Const1 => VOnes
    case Undef => VZero
    case Net(id) => Use(Wire(id))
  }

  /** `e0 | e1 | ...` */
  function Join(es: seq<Expr>): Expr
    requires |es| >= 1
  {
    if |es| == 1 then es[0] else Disj(Join(es[..|es| - 1]), es[|es| - 1])
  }

  /** The output bits a rule writes: one for a truth value, however wide `Y` is. */
  function Lines(c: Cell): (n: nat)
    requires Emitted(c)
    ensures n <= |c.y|
  {
    if c.kind in {Eq, LogicNot, ReduceBool} then 1 else |c.y|
  }

  function Terms(c: Cell, i: nat): (es: seq<Expr>)
    requires Emitted(c) && i < Lines(c) && c.kind in {Pmux, Eq, LogicNot, ReduceBool}
    ensures |es| == if c.kind == Pmux then |c.s| else |c.a|
  {
    if c.kind.Pmux? then
      seq(|c.s|, j requires 0 <= j < |c.s| =>
          Conj(Name(c.b[ChoiceAt(|c.s|, |c.y|, j, i)]), Name(c.s[j])))
    else if c.kind.Eq? then
      seq(|c.a|, j requires 0 <= j < |c.a| => Excl(Name(c.a[j]), Name(c.b[j])))
    else
      seq(|c.a|, j requires 0 <= j < |c.a| => Name(c.a[j]))
  }

  /** The right-hand side of output bit `i`, for the cells that write one line a bit. */
  function Rhs(c: Cell, i: nat): Expr
    requires Emitted(c) && i < Lines(c) && !c.kind.Add? && !c.kind.Sub?
  {
    match c.kind
    case And => Conj(Name(c.a[i]), Name(c.b[i]))
    case Or => Disj(Name(c.a[i]), Name(c.b[i]))
    case Xor => Excl(Name(c.a[i]), Name(c.b[i]))
    case Not => Inv(Name(c.a[i]))
    case Mux => Disj(Conj(Name(c.a[i]), Inv(Name(c.s[0]))), Conj(Name(c.b[i]), Name(c.s[0])))
    case Pmux => Join(Terms(c, i))
    case ReduceBool => Join(Terms(c, i))
    case LogicNot => Inv(Join(Terms(c, i)))
    case Eq => Inv(Join(Terms(c, i)))
  }

  /** The second operand of an adder at bit `i`: B padded with zeroes, inverted to subtract. */
  function Addend(c: Cell, i: nat): Expr {
    var b := if i < |c.b| then Name(c.b[i]) else VZero;
    if b == VZero then (if c.kind.Sub? then VOnes else VZero)
    else if c.kind.Sub? then Inv(b) else b
  }

  /** The block of one adder bit. */
  function AdderBit(c: Cell, i: nat): seq<Stmt>
    requires i < |c.y| && i < |c.a|
  {
    [Assign(LocA, Name(c.a[i])),
     Assign(LocB, Addend(c, i)),
     Assign(Wire(c.y[i]), Excl(Excl(Use(LocA), Use(LocB)), Use(Carry))),
     Assign(Carry, Disj(Conj(Use(LocA), Use(LocB)), Conj(Use(Carry), Excl(Use(LocA), Use(LocB)))))]
  }

  function CarryIn(c: Cell): Stmt { Assign(Carry, if c.kind.Sub? then VOnes else VZero) }

  /** The lines of output bit `i`. */
  function BitText(c: Cell, i: nat): seq<Stmt>
    requires Emitted(c) && i < Lines(c)
  {
    if c.kind.Add? || c.kind.Sub? then AdderBit(c, i) else [Assign(Wire(c.y[i]), Rhs(c, i))]
  }

  /** The lines of the first `n` output bits. */
  function UpTo(c: Cell, n: nat): seq<Stmt>
    requires Emitted(c) && n <= Lines(c)
  {
    if n == 0 then (if c.kind.Add? || c.kind.Sub? then [CarryIn(c)] else [])
    else UpTo(c, n - 1) + BitText(c, n - 1)
  }

  function CellText(c: Cell): seq<Stmt> { if Emitted(c) then UpTo(c, Lines(c)) else [] }

  function CombText(d: Design, order: seq<nat>): seq<Stmt>
    requires Valid(d, order)
  {
    if order == [] then []
    else CombText(d, order[..|order| - 1]) + CellText(d.cells[order[|order| - 1]])
  }

  // ---- flip-flops ----

  /** The new state of bit `i` of a flip-flop. */
  function FfRhs(f: Ff, i: nat): Expr
    requires i < |f.q| <= |f.d|
  {
    var en := if f.en.Some? then Name(f.en.value) else VOnes;
    var data := Name(f.d[i]);
    if f.srst.Some? then
      var sr := Name(f.srst.value);
      var e := Conj(en, Inv(sr));
      Disj(Conj(data, e), Conj(Conj(Use(Held(f.q[i])), Inv(e)), Inv(sr)))
    else
      Disj(Conj(data, en), Conj(Use(Held(f.q[i])), Inv(en)))
  }

  function FfText(f: Ff): seq<Stmt>
    requires |f.q| <= |f.d|
  {
    seq(|f.q|, i requires 0 <= i < |f.q| => Assign(Next(f.q[i]), FfRhs(f, i)))
  }

  predicate FfsShaped(ffs: seq<Ff>) { forall i :: 0 <= i < |ffs| ==> |ffs[i].q| <= |ffs[i].d| }

  function FfsText(ffs: seq<Ff>): seq<Stmt>
    requires FfsShaped(ffs)
  {
    if ffs == [] then [] else FfsText(ffs[..|ffs| - 1]) + FfText(ffs[|ffs| - 1])
  }

  /** Flip-flop outputs are last cycle's state. */
  function LoadText(qs: seq<nat>): seq<Stmt> {
    seq(|qs|, i requires 0 <= i < |qs| => Assign(Wire(qs[i]), Use(Held(qs[i]))))
  }

  /** The nets of the input ports take the arguments. */
  function InText(ins: seq<nat>): seq<Stmt> {
    seq(|ins|, k requires 0 <= k < |ins| => Assign(Wire(ins[k]), Use(InPin(k))))
  }

  /** The output arguments take the nets of the output ports. */
  function OutText(outs: seq<nat>): seq<Stmt> {
    seq(|outs|, k requires 0 <= k < |outs| => Assign(OutPin(k), Use(Wire(outs[k]))))
  }

  /** The flip-flop bits, and the bits of the input and of the output ports. */
  datatype Ports = Ports(qs: seq<nat>, ins: seq<nat>, outs: seq<nat>)

  /** The body of the generated function: loads, inputs, cells in order, flip-flop updates,
      outputs. */
  function CycleText(d: Design, order: seq<nat>, p: Ports): seq<Stmt>
    requires Valid(d, order) && FfsShaped(d.ffs)
  {
    LoadText(p.qs) + InText(p.ins) + CombText(d, order) + FfsText(d.ffs) + OutText(p.outs)
  }

  // ---- the loops that write it ----

  method EmitCell(c: Cell, out0: seq<Stmt>) returns (out: seq<Stmt>)
    ensures out == out0 + CellText(c)
  {
    out := out0;
    if Emitted(c) {
      if c.kind.Add? || c.kind.Sub? { out := out + [CarryIn(c)]; }
      for i := 0 to Lines(c)
        invariant out == out0 + UpTo(c, i)
      {
        out := out + BitText(c, i);
      }
    }
  }

  method EmitFf(f: Ff, out0: seq<Stmt>) returns (out: seq<Stmt>)
    requires |f.q| <= |f.d|
    ensures out == out0 + FfText(f)
  {
    out := out0;
    for i := 0 to |f.q|
      invariant out == out0 + FfText(f)[..i]
    {
      out := out + [Assign(Next(f.q[i]), FfRhs(f, i))];
    }
  }

  method EmitLoads(qs: seq<nat>) returns (out: seq<Stmt>)
    ensures out == LoadText(qs)
  {
    out := [];
    for i := 0 to |qs|
      invariant out == LoadText(qs)[..i]
    {
      out := out + [Assign(Wire(qs[i]), Use(Held(qs[i])))];
    }
  }

  method EmitCells(d: Design, order: seq<nat>, out0: seq<Stmt>) returns (out: seq<Stmt>)
    requires Valid(d, order)
    ensures out == out0 + CombText(d, order)
  {
    hide CellText;
    out := out0;
    for i := 0 to |order|
      invariant out == out0 + CombText(d, order[..i])
    {
      assert order[..i + 1][..i] == order[..i];
      out := EmitCell(d.cells[order[i]], out);
    }
    assert order[..|order|] == order;
  }

  method EmitFfs(ffs: seq<Ff>, out0: seq<Stmt>) returns (out: seq<Stmt>)
    requires FfsShaped(ffs)
    ensures out == out0 + FfsText(ffs)
  {
    hide FfText;
    out := out0;
    for i := 0 to |ffs|
      invariant out == out0 + FfsText(ffs[..i])
    {
      assert ffs[..i + 1][..i] == ffs[..i];
      out := EmitFf(ffs[i], out);
    }
    assert ffs[..|ffs|] == ffs;
  }

  method EmitInputs(ins: seq<nat>, out0: seq<Stmt>) returns (out: seq<Stmt>)
    ensures out == out0 + InText(ins)
  {
    out := out0;
    for k := 0 to |ins|
      invariant out == out0 + InText(ins)[..k]
    {
      out := out + [Assign(Wire(ins[k]), Use(InPin(k)))];
    }
  }

  method EmitOutputs(outs: seq<nat>, out0: seq<Stmt>) returns (out: seq<Stmt>)
    ensures out == out0 + OutText(outs)
  {
    out := out0;
    for k := 0 to |outs|
      invariant out == out0 + OutText(outs)[..k]
    {
      out := out + [Assign(OutPin(k), Use(Wire(outs[k])))];
    }
  }

  /** gen.py:20-163: schedule, then write the loads, the inputs, the ordered cells, the updates
      and the outputs. On a combinational loop the pending cells are left out of the text. */
  method Generate(d: Design, p: Ports) returns (out: seq<Stmt>, order: seq<nat>, pend: seq<nat>)
    requires SingleDriver(d) && FfsShaped(d.ffs)
    ensures IsSchedule(d, order) && Splits(d, order, pend)
    ensures pend == [] <==> !Cyclic(d)
    ensures out == CycleText(d, order, p)
  {
    hide LoadText; hide InText; hide CombText; hide FfsText; hide OutText; hide Cyclic; hide IsSchedule; hide Splits;
    hide SingleDriver;
    out := EmitLoads(p.qs);
    out := EmitInputs(p.ins, out);
    order, pend := Plan(d);
    ScheduleIsValid(d, order);
    out := EmitCells(d, order, out);
    out := EmitFfs(d.ffs, out);
    out := EmitOutputs(p.outs, out);
  }

  lemma {:induction false} ScheduleIsValid(d: Design, order: seq<nat>)
    requires IsSchedule(d, order)
    ensures Valid(d, order)
  {
  }
}
