/** The bit-sliced IR (tools/bstm-cc/bstm_cc/ir.py): a graph of bitwise operations, built with
    constant propagation, algebraic simplification and sharing of equal nodes. */
module Builder {
  import opened Options

  /** What the environment supplies: a state bit of the last cycle, or a bit of an input port. */
  datatype Leaf = State(k: nat) | Port(name: string, bit: nat)

  /** The value table. Arguments are indices of earlier entries. */
  datatype Node = Const(bit: bool) | Read(leaf: Leaf)
                | Not(a: nat) | And(a: nat, b: nat) | Or(a: nat, b: nat) | Xor(a: nat, b: nat)
                | AndNot(a: nat, b: nat) | Mux(s: nat, a: nat, b: nat) | Maj(a: nat, b: nat, c: nat)

  /** One lane's leaves. */
  type Env = map<Leaf, bool>

  const CONST0: nat := 0
  const CONST1: nat := 1

  /** All arguments of the node at `i` come before it. */
  predicate ArgsBelow(n: Node, i: nat) {
    match n
    case Const(_) => true
    case Read(_) => true
    case Not(a) => a < i
    case And(a, b) => a < i && b < i
    case Or(a, b) => a < i && b < i
    case Xor(a, b) => a < i && b < i
    case AndNot(a, b) => a < i && b < i
    case Mux(s, a, b) => s < i && a < i && b < i
    case Maj(a, b, c) => a < i && b < i && c < i
  }

  /** The shape simplification leaves: no operation on a constant, no double negation, no
      operation on equal arguments, commutative arguments in order. */
  predicate Reduced(ns: seq<Node>, n: Node) {
    match n
    case Const(_) => false
    case Read(_) => true
    case Not(a) => 2 <= a < |ns| && !ns[a].Not?
    case And(a, b) => 2 <= a < b < |ns| && !ns[a].Not? && !ns[b].Not?
    case Or(a, b) => 2 <= a < b < |ns| && !(ns[a].Not? && ns[b].Not?)
    case Xor(a, b) => 2 <= a < b < |ns| && !ns[a].Not? && !ns[b].Not?
    case AndNot(a, b) => a >= 2 && b >= 2 && a != b && a < |ns| && b < |ns| && !ns[a].Not? && !ns[b].Not?
    case Mux(s, a, b) => s >= 2 && a >= 2 && b >= 2 && a != b && s < |ns| && !ns[s].Not?
    case Maj(a, b, c) => 2 <= a < b < c
  }

  /** Only the first two entries are constants; the others are reduced, and all are different. */
  ghost predicate Graph(ns: seq<Node>) {
    && |ns| >= 2 && ns[CONST0] == Const(false) && ns[CONST1] == Const(true)
    && (forall i :: 0 <= i < |ns| ==> ArgsBelow(ns[i], i))
    && (forall i :: 2 <= i < |ns| ==> Reduced(ns, ns[i]))
    && forall i, j :: 0 <= i < j < |ns| ==> ns[i] != ns[j]
  }

  lemma {:induction false} ReducedGrow(ns: seq<Node>, ns': seq<Node>)
    requires ns <= ns'
    ensures forall n :: Reduced(ns, n) && ArgsBelow(n, |ns|) ==> Reduced(ns', n)
  {
  }

  lemma {:induction false} ConstVals(ns: seq<Node>)
    requires Graph(ns)
    ensures forall e :: !Val(ns, CONST0, e) && Val(ns, CONST1, e)
  {
  }

  /** The truth value of entry `v` in one lane. */
  ghost function Val(ns: seq<Node>, v: nat, e: Env): bool
    requires Graph(ns) && v < |ns|
    decreases v
  {
    assert ArgsBelow(ns[v], v);
    match ns[v]
    case Const(b) => b
    case Read(leaf) => leaf in e && e[leaf]
    case Not(a) => !Val(ns, a, e)
    case And(a, b) => Val(ns, a, e) && Val(ns, b, e)
    case Or(a, b) => Val(ns, a, e) || Val(ns, b, e)
    case Xor(a, b) => Val(ns, a, e) != Val(ns, b, e)
    case AndNot(a, b) => Val(ns, a, e) && !Val(ns, b, e)
    case Mux(s, a, b) => if Val(ns, s, e) then Val(ns, b, e) else Val(ns, a, e)
    case Maj(a, b, c) => (Val(ns, a, e) && Val(ns, b, e)) || (Val(ns, c, e) && Val(ns, a, e) != Val(ns, b, e))
  }

  /** Adding entries changes the value of none that was there. */
  lemma {:induction false} ValGrow(ns: seq<Node>, ns': seq<Node>, v: nat, e: Env)
    requires Graph(ns) && Graph(ns') && ns <= ns' && v < |ns|
    ensures Val(ns', v, e) == Val(ns, v, e)
    decreases v
  {
    assert ns'[v] == ns[v] && ArgsBelow(ns[v], v);
    match ns[v]
    case Const(_) =>
    case Read(_) =>
    case Not(a) => ValGrow(ns, ns', a, e);
    case And(a, b) => ValGrow(ns, ns', a, e); ValGrow(ns, ns', b, e);
    case Or(a, b) => ValGrow(ns, ns', a, e); ValGrow(ns, ns', b, e);
    case Xor(a, b) => ValGrow(ns, ns', a, e); ValGrow(ns, ns', b, e);
    case AndNot(a, b) => ValGrow(ns, ns', a, e); ValGrow(ns, ns', b, e);
    case Mux(s, a, b) => ValGrow(ns, ns', s, e); ValGrow(ns, ns', a, e); ValGrow(ns, ns', b, e);
    case Maj(a, b, c) => ValGrow(ns, ns', a, e); ValGrow(ns, ns', b, e); ValGrow(ns, ns', c, e);
  }

  /** `ns'` extends `ns`, and so every old entry still means what it meant. */
  ghost predicate Extends(ns: seq<Node>, ns': seq<Node>)
    requires Graph(ns) && Graph(ns')
  {
    ns <= ns' && forall v: nat, e :: v < |ns| ==> Val(ns', v, e) == Val(ns, v, e)
  }

  lemma {:induction false} PrefixExtends(ns: seq<Node>, ns': seq<Node>)
    requires Graph(ns) && Graph(ns') && ns <= ns'
    ensures Extends(ns, ns')
  {
    forall v: nat, e | v < |ns|
      ensures Val(ns', v, e) == Val(ns, v, e)
    {
      ValGrow(ns, ns', v, e);
    }
  }

  class Dag {
    /** The columns `kind` and `info`. */
    var nodes: seq<Node>
    /** The hash tables from structure to entry. */
    var table: map<Node, nat>

    ghost predicate Valid()
      reads this
    {
      && Graph(nodes)
      && (forall n :: n in table ==> table[n] < |nodes| && nodes[table[n]] == n)
      && (forall i :: 2 <= i < |nodes| ==> nodes[i] in table)
    }

    constructor ()
      ensures Valid() && nodes == [Const(false), Const(true)]
    {
      nodes := [Const(false), Const(true)];
      table := map[];
    }

    /** The value `v` is the negation of, when that shows on its face. */
    function NotOf(v: nat): (r: Option<nat>)
      requires Valid() && v < |nodes|
      reads this
      ensures r.Some? ==> r.value < |nodes|
      ensures r.Some? && v >= 2 ==> 2 <= r.value < v && !nodes[r.value].Not?
      ensures r.Some? ==> forall e :: Val(nodes, v, e) == !Val(nodes, r.value, e)
    {
      assert ArgsBelow(nodes[v], v);
      if v == CONST0 then Some(CONST1)
      else if v == CONST1 then Some(CONST0)
      else if nodes[v].Not? then Some(nodes[v].a)
      else None
    }

    /** One of `a` and `b` is visibly the negation of the other. */
    predicate Inverted(a: nat, b: nat)
      requires Valid() && a < |nodes| && b < |nodes|
      reads this
      ensures Inverted(a, b) ==> forall e :: Val(nodes, a, e) == !Val(nodes, b, e)
    {
      NotOf(a) == Some(b) || NotOf(b) == Some(a)
    }

    /** Look the node up, or append it: no structure is stored twice. */
    method Make(n: Node) returns (r: nat)
      requires Valid() && ArgsBelow(n, |nodes|) && Reduced(nodes, n)
      modifies this
      ensures Valid() && Extends(old(nodes), nodes)
      ensures r < |nodes| && nodes[r] == n
      ensures n in old(nodes) ==> nodes == old(nodes)
      ensures n !in old(nodes) ==> nodes == old(nodes) + [n]
    {
      if n in table {
        r := table[n];
      } else {
        assert n !in nodes;
        r := |nodes|;
        nodes := nodes + [n];
        ReducedGrow(old(nodes), nodes);
        table := table[n := r];
      }
      PrefixExtends(old(nodes), nodes);
    }

    method VNot(a: nat) returns (r: nat)
      requires Valid() && a < |nodes|
      modifies this
      ensures Valid() && Extends(old(nodes), nodes) && r < |nodes|
      ensures forall e :: Val(nodes, r, e) == !Val(nodes, a, e)
    {
      var n := NotOf(a);
      if n.Some? {
        r := n.value;
      } else {
        r := Make(Not(a));
      }
    }

    /** A commutative gate stored with its arguments in order. */
    method MakeAnd(a: nat, b: nat) returns (r: nat)
      requires Valid() && 2 <= a < |nodes| && 2 <= b < |nodes| && a != b
      requires !nodes[a].Not? && !nodes[b].Not?
      modifies this
      ensures Valid() && Extends(old(nodes), nodes) && r < |nodes|
      ensures forall e :: Val(nodes, r, e) == (Val(nodes, a, e) && Val(nodes, b, e))
    {
      r := Make(if a <= b then And(a, b) else And(b, a));
    }

    /** As MakeAnd. */
    method MakeOr(a: nat, b: nat) returns (r: nat)
      requires Valid() && 2 <= a < |nodes| && 2 <= b < |nodes| && a != b
      requires !(nodes[a].Not? && nodes[b].Not?)
      modifies this
      ensures Valid() && Extends(old(nodes), nodes) && r < |nodes|
      ensures forall e :: Val(nodes, r, e) == (Val(nodes, a, e) || Val(nodes, b, e))
    {
      r := Make(if a <= b then Or(a, b) else Or(b, a));
    }

    /** As MakeAnd. */
    method MakeXor(a: nat, b: nat) returns (r: nat)
      requires Valid() && 2 <= a < |nodes| && 2 <= b < |nodes| && a != b
      requires !nodes[a].Not? && !nodes[b].Not?
      modifies this
      ensures Valid() && Extends(old(nodes), nodes) && r < |nodes|
      ensures forall e :: Val(nodes, r, e) == (Val(nodes, a, e) != Val(nodes, b, e))
    {
      r := Make(if a <= b then Xor(a, b) else Xor(b, a));
    }

    /** a & ~b, of a `nb` that is visibly ~b. */
    method MakeAndNot(a: nat, nb: nat, b: nat) returns (r: nat)
      requires Valid() && 2 <= a < |nodes| && nb < |nodes| && NotOf(nb) == Some(b)
      requires a != b && nb >= 2 && !nodes[a].Not?
      modifies this
      ensures Valid() && Extends(old(nodes), nodes) && r < |nodes|
      ensures forall e :: Val(nodes, r, e) == (Val(nodes, a, e) && Val(nodes, nb, e))
    {
      r := Make(AndNot(a, b));
    }

    method MakeMux(s: nat, a: nat, b: nat) returns (r: nat)
      requires Valid() && 2 <= s < |nodes| && 2 <= a < |nodes| && 2 <= b < |nodes|
      requires a != b && !nodes[s].Not?
      modifies this
      ensures Valid() && Extends(old(nodes), nodes) && r < |nodes|
      ensures forall e :: Val(nodes, r, e) == if Val(nodes, s, e) then Val(nodes, b, e) else Val(nodes, a, e)
    {
      r := Make(Mux(s, a, b));
    }

    method VAnd(a: nat, b: nat) returns (r: nat)
      requires Valid() && a < |nodes| && b < |nodes|
      modifies this
      ensures Valid() && Extends(old(nodes), nodes) && r < |nodes|
      ensures forall e :: Val(nodes, r, e) == (Val(nodes, a, e) && Val(nodes, b, e))
      decreases a + b
    {
      hide Val; hide ArgsBelow; hide Reduced; hide Graph;
      ConstVals(nodes);
      if a == b { return a; }
      if a == CONST0 || b == CONST0 { return CONST0; }
      if a == CONST1 { return b; }
      if b == CONST1 { return a; }
      if Inverted(a, b) { return CONST0; }
      var na, nb := NotOf(a), NotOf(b);
      if na.Some? && nb.Some? {
        r := VOr(na.value, nb.value);
        r := VNot(r);
      } else if nb.Some? {
        r := MakeAndNot(a, b, nb.value);
      } else if na.Some? {
        r := MakeAndNot(b, a, na.value);
      } else {
        r := MakeAnd(a, b);
      }
    }

    method VOr(a: nat, b: nat) returns (r: nat)
      requires Valid() && a < |nodes| && b < |nodes|
      modifies this
      ensures Valid() && Extends(old(nodes), nodes) && r < |nodes|
      ensures forall e :: Val(nodes, r, e) == (Val(nodes, a, e) || Val(nodes, b, e))
      decreases a + b
    {
      hide Val; hide ArgsBelow; hide Reduced; hide Graph;
      ConstVals(nodes);
      if a == b { return a; }
      if a == CONST1 || b == CONST1 { return CONST1; }
      if a == CONST0 { return b; }
      if b == CONST0 { return a; }
      if Inverted(a, b) { return CONST1; }
      var na, nb := NotOf(a), NotOf(b);
      if na.Some? && nb.Some? {
        r := VAnd(na.value, nb.value);
        r := VNot(r);
      } else {
        r := MakeOr(a, b);
      }
    }

    method VXor(a: nat, b: nat) returns (r: nat)
      requires Valid() && a < |nodes| && b < |nodes|
      modifies this
      ensures Valid() && Extends(old(nodes), nodes) && r < |nodes|
      ensures forall e :: Val(nodes, r, e) == (Val(nodes, a, e) != Val(nodes, b, e))
      decreases a + b
    {
      hide Val; hide ArgsBelow; hide Reduced; hide Graph;
      ConstVals(nodes);
      if a == b { return CONST0; }
      if a == CONST0 { return b; }
      if b == CONST0 { return a; }
      if a == CONST1 { r := VNot(b); return; }
      if b == CONST1 { r := VNot(a); return; }
      if Inverted(a, b) { return CONST1; }
      var na, nb := NotOf(a), NotOf(b);
      if na.Some? && nb.Some? {
        r := VXor(na.value, nb.value);
      } else if na.Some? {
        r := VXor(na.value, b);
        r := VNot(r);
      } else if nb.Some? {
        r := VXor(a, nb.value);
        r := VNot(r);
      } else {
        r := MakeXor(a, b);
      }
    }

    /** s ? b : a */
    method VMux(s: nat, a: nat, b: nat) returns (r: nat)
      requires Valid() && s < |nodes| && a < |nodes| && b < |nodes|
      modifies this
      ensures Valid() && Extends(old(nodes), nodes) && r < |nodes|
      ensures forall e :: Val(nodes, r, e) == if Val(nodes, s, e) then Val(nodes, b, e) else Val(nodes, a, e)
    {
      hide Val; hide ArgsBelow; hide Reduced; hide Graph;
      ConstVals(nodes);
      if s == CONST0 { return a; }
      if s == CONST1 { return b; }
      if a == b { return a; }
      if a == CONST0 { r := VAnd(b, s); return; }
      if b == CONST0 { r := VNot(s); r := VAnd(a, r); return; }
      if a == CONST1 { r := VNot(s); r := VOr(r, b); return; }
      if b == CONST1 { r := VOr(s, a); return; }
      if Inverted(a, b) { r := VXor(b, s); r := VNot(r); return; }
      var ns := NotOf(s);
      if ns.Some? {
        r := MakeMux(ns.value, b, a);
      } else {
        r := MakeMux(s, a, b);
      }
    }

    /** The carry of a full adder. */
    method VMaj(a: nat, b: nat, c: nat) returns (r: nat)
      requires Valid() && a < |nodes| && b < |nodes| && c < |nodes|
      modifies this
      ensures Valid() && Extends(old(nodes), nodes) && r < |nodes|
      ensures forall e :: Val(nodes, r, e) == ((Val(nodes, a, e) && Val(nodes, b, e))
                                               || (Val(nodes, c, e) && Val(nodes, a, e) != Val(nodes, b, e)))
    {
      hide Val; hide ArgsBelow; hide Reduced; hide Graph;
      ConstVals(nodes);
      if a == CONST0 { r := VAnd(b, c); return; }
      if b == CONST0 { r := VAnd(a, c); return; }
      if c == CONST0 { r := VAnd(a, b); return; }
      if a == CONST1 { r := VOr(b, c); return; }
      if b == CONST1 { r := VOr(a, c); return; }
      if c == CONST1 { r := VOr(a, b); return; }
      if a == b { return a; }
      if a == c { return a; }
      if b == c { return b; }
      if Inverted(a, b) { return c; }
      if Inverted(a, c) { return b; }
      if Inverted(b, c) { return a; }
      r := MakeMaj(a, b, c);
    }

    /** A majority gate stored with its arguments in order. */
    method MakeMaj(a: nat, b: nat, c: nat) returns (r: nat)
      requires Valid() && 2 <= a < |nodes| && 2 <= b < |nodes| && 2 <= c < |nodes|
      requires a != b && a != c && b != c
      modifies this
      ensures Valid() && Extends(old(nodes), nodes) && r < |nodes|
      ensures forall e :: Val(nodes, r, e) == ((Val(nodes, a, e) && Val(nodes, b, e))
                                               || (Val(nodes, c, e) && Val(nodes, a, e) != Val(nodes, b, e)))
    {
      var x, y, z := Sort3(a, b, c);
      r := Make(Maj(x, y, z));
    }
  }

  method Sort3(a: nat, b: nat, c: nat) returns (x: nat, y: nat, z: nat)
    ensures x <= y <= z && multiset{x, y, z} == multiset{a, b, c}
    ensures (x, y, z) in {(a, b, c), (a, c, b), (b, a, c), (b, c, a), (c, a, b), (c, b, a)}
  {
    x, y, z := a, b, c;
    if y < x { x, y := y, x; }
    if z < y { y, z := z, y; }
    if y < x { x, y := y, x; }
  }
}
