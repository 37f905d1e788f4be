/** The return-address stack (preprocess/frontend/predictors.hpp, `Ras`): a circular
    buffer that overwrites its oldest entry, against a bounded stack. */
module Ras {

  datatype Ent = Ent(addr: nat, callPc: nat, valid: bool)

  const NO_ENT := Ent(0, 0, false)

  /** The fields of the object; a snapshot is a copy of them. */
  datatype RasState = RasState(s: seq<Ent>, top: nat, cnt: nat)

  predicate Valid(r: RasState) {
    |r.s| > 0 && r.top < |r.s| && r.cnt <= |r.s|
  }

  function Init(depth: int): (r: RasState)
    ensures Valid(r)
  {
    RasState(seq(if depth > 0 then depth else 1, _ => NO_ENT), 0, 0)
  }

  type RasValue = r: RasState | Valid(r) witness Init(1)

  function Below(r: RasState): (i: nat)
    requires Valid(r)
    ensures i < |r.s|
  {
    (r.top + |r.s| - 1) % |r.s|
  }

  function Peek(r: RasState): nat
    requires Valid(r)
  {
    if r.cnt != 0 then r.s[Below(r)].addr else 0
  }

  function Push(r: RasState, e: Ent): (r': RasState)
    requires Valid(r)
    ensures Valid(r') && |r'.s| == |r.s|
  {
    RasState(r.s[r.top := e], (r.top + 1) % |r.s|, if r.cnt < |r.s| then r.cnt + 1 else r.cnt)
  }

  function Pop(r: RasState): (p: (RasState, Ent))
    requires Valid(r)
    ensures Valid(p.0) && |p.0.s| == |r.s|
  {
    if r.cnt == 0 then (r, NO_ENT) else (r.(top := Below(r), cnt := r.cnt - 1), r.s[Below(r)])
  }

  // ---- the stack it stands for ----

  /** Index of the `i`-th newest entry. */
  function At(r: RasState, i: nat): (k: nat)
    requires Valid(r) && i < |r.s|
    ensures k < |r.s|
  {
    if r.top > i then r.top - 1 - i else r.top + |r.s| - 1 - i
  }

  /** The live entries, newest first. */
  function Stack(r: RasState): (l: seq<Ent>)
    requires Valid(r)
    ensures |l| == r.cnt && forall i :: 0 <= i < r.cnt ==> l[i] == r.s[At(r, i)]
  {
    seq(r.cnt, i requires 0 <= i < r.cnt => r.s[At(r, i)])
  }

  /** A push onto a stack that keeps `n` entries and drops the oldest. */
  function BoundedPush(l: seq<Ent>, e: Ent, n: nat): seq<Ent> {
    if |l| < n then [e] + l else if n == 0 then [] else [e] + l[..n - 1]
  }

  lemma {:induction false} BelowIs(r: RasState)
    requires Valid(r)
    ensures Below(r) == At(r, 0)
    ensures (r.top + 1) % |r.s| == if r.top + 1 == |r.s| then 0 else r.top + 1
  {
    var n := |r.s|;
    Wrap(if r.top > 0 then r.top - 1 else n - 1, n);
    Wrap(if r.top + 1 == n then 0 else r.top + 1, n);
  }

  lemma {:induction false} Wrap(x: nat, n: nat)
    requires x < n
    ensures x % n == x && (x + n) % n == x
  {
  }

  /** The circular buffer is a bounded stack: push drops the oldest, pop and peek see the
      latest entry not yet popped. */
  lemma {:induction false} RefinesBoundedStack(r: RasState, e: Ent)
    requires Valid(r)
    ensures Stack(Push(r, e)) == BoundedPush(Stack(r), e, |r.s|)
    ensures Pop(r).1 == if Stack(r) == [] then NO_ENT else Stack(r)[0]
    ensures Stack(Pop(r).0) == if Stack(r) == [] then [] else Stack(r)[1..]
    ensures Peek(r) == if Stack(r) == [] then 0 else Stack(r)[0].addr
  {
    BelowIs(r);
    var p := Push(r, e);
    var x, y := Stack(p), BoundedPush(Stack(r), e, |r.s|);
    assert |x| == |y|;
    forall i | 0 <= i < |x| ensures x[i] == y[i] {
      if i > 0 { assert At(p, i) == At(r, i - 1) && At(p, i) != r.top; } else { assert At(p, 0) == r.top; }
    }
    var q := Pop(r).0;
    if r.cnt > 0 {
      forall i | 0 <= i < q.cnt ensures Stack(q)[i] == Stack(r)[1..][i] {
        assert At(q, i) == At(r, i + 1);
      }
    }
  }

  // ---- any sequence of operations, with snapshots ----

  datatype Op = OpPush(e: Ent) | OpPop | OpSave | OpRestore(k: nat)

  /** The stack with the snapshots taken so far, the latest last. */
  datatype Machine<T> = Machine(cur: T, saved: seq<T>)

  predicate ValidMachine(m: Machine<RasState>, n: nat) {
    Valid(m.cur) && |m.cur.s| == n && forall k :: 0 <= k < |m.saved| ==> Valid(m.saved[k]) && |m.saved[k].s| == n
  }

  function RunRas(n: nat, ops: seq<Op>): (m: Machine<RasState>)
    requires n > 0
    ensures ValidMachine(m, n)
  {
    if ops == [] then Machine(Init(n), [])
    else
      var m := RunRas(n, ops[..|ops| - 1]);
      match ops[|ops| - 1]
      case OpPush(e) => m.(cur := Push(m.cur, e))
      case OpPop => m.(cur := Pop(m.cur).0)
      case OpSave => m.(saved := m.saved + [m.cur])
      case OpRestore(k) => if k < |m.saved| then m.(cur := m.saved[k]) else m
  }

  function RunStack(n: nat, ops: seq<Op>): Machine<seq<Ent>> {
    if ops == [] then Machine([], [])
    else
      var m := RunStack(n, ops[..|ops| - 1]);
      match ops[|ops| - 1]
      case OpPush(e) => m.(cur := BoundedPush(m.cur, e, n))
      case OpPop => m.(cur := if m.cur == [] then [] else m.cur[1..])
      case OpSave => m.(saved := m.saved + [m.cur])
      case OpRestore(k) => if k < |m.saved| then m.(cur := m.saved[k]) else m
  }

  /** Over any pushes, pops, saves and restores the circular buffer holds the bounded
      stack, and so does every snapshot. */
  lemma {:induction false} RunsAgree(n: nat, ops: seq<Op>)
    requires n > 0
    ensures var m, a := RunRas(n, ops), RunStack(n, ops);
            && Stack(m.cur) == a.cur
            && |m.saved| == |a.saved|
            && forall k :: 0 <= k < |m.saved| ==> Stack(m.saved[k]) == a.saved[k]
    decreases |ops|
  {
    hide Stack; hide Push; hide Pop; hide BoundedPush;
    if ops == [] {
      InitEmpty(n);
    } else {
      var p := ops[..|ops| - 1];
      RunsAgree(n, p);
      var e := if ops[|ops| - 1].OpPush? then ops[|ops| - 1].e else NO_ENT;
      RefinesBoundedStack(RunRas(n, p).cur, e);
    }
  }

  lemma {:induction false} InitEmpty(n: nat)
    requires n > 0
    ensures Stack(Init(n)) == []
  {
  }

  // ---- the object ----

  class RasObj {
    const n: nat
    var s: seq<Ent>
    var top: nat
    var cnt: nat

    ghost predicate Good()
      reads this
    {
      n == |s| && Valid(State())
    }

    function State(): RasState
      reads this
    {
      RasState(s, top, cnt)
    }

    constructor (depth: int)
      ensures Good() && State() == Init(depth)
    {
      n := if depth > 0 then depth else 1;
      s := seq(if depth > 0 then depth else 1, _ => NO_ENT);
      top, cnt := 0, 0;
    }

    method PushCall(addr: nat, callPc: nat)
      requires Good()
      modifies this
      ensures Good() && Stack(State()) == BoundedPush(old(Stack(State())), Ent(addr, callPc, true), n)
      ensures State() == Push(old(State()), Ent(addr, callPc, true))
    {
      RefinesBoundedStack(State(), Ent(addr, callPc, true));
      s := s[top := Ent(addr, callPc, true)];
      top := (top + 1) % n;
      if cnt < n {
        cnt := cnt + 1;
      }
    }

    method PopRet() returns (e: Ent)
      requires Good()
      modifies this
      ensures Good() && (State(), e) == Pop(old(State()))
      ensures e == if old(cnt) == 0 then NO_ENT else old(Stack(State()))[0]
    {
      RefinesBoundedStack(State(), NO_ENT);
      if cnt == 0 {
        return NO_ENT;
      }
      top := (top + n - 1) % n;
      cnt := cnt - 1;
      e := s[top];
    }

    /** Puts a saved state back, whatever happened since. */
    method Restore(x: RasState)
      requires Good() && Valid(x) && |x.s| == n
      modifies this
      ensures Good() && State() == x
    {
      s, top, cnt := x.s, x.top, x.cnt;
    }
  }
}
