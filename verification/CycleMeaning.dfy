/** What the whole generated function computes: in each of the 64 lanes the one solution of
    the netlist's equations, and every flip-flop's next state. */
module CycleMeaning {
  import opened Options
  import opened Netlist
  import opened Schedule
  import opened Emit
  import opened CellMeaning
  import W = Words

  ghost predicate AllShaped(d: Design) { forall i :: 0 <= i < |d.cells| ==> Shaped(d.cells[i]) }

  /** `v` solves the netlist. */
  ghost predicate Solves(d: Design, v: Valuation)
    requires AllShaped(d)
  {
    forall i :: 0 <= i < |d.cells| ==> CellHolds(d.cells[i], v)
  }

  // ---- the ordered cells ----

  lemma {:induction false} PrefixSchedules(d: Design, order: seq<nat>)
    requires IsSchedule(d, order) && order != []
    ensures IsSchedule(d, order[..|order| - 1])
  {
    var p := order[..|order| - 1];
    forall k | 0 <= k < |p|
      ensures InputsAvailable(d, p[..k], p[k])
    {
      assert p[..k] == order[..k];
    }
  }

  /** No cell reads what a cell at its own place or later drives. */
  lemma {:induction false} ReadsSettled(d: Design, order: seq<nat>, k: nat, n: nat, x: Bit)
    requires SingleDriver(d) && IsSchedule(d, order) && k <= n < |order|
    requires x in Reads(d.cells[order[k]]) && x.Net?
    ensures x.id !in d.cells[order[n]].y
  {
    if x.id in d.cells[order[n]].y {
      assert InputsAvailable(d, order[..k], order[k]);
      assert Available(d, order[..k], x.id);
      DrivenIsNoSource(d, order[n], x.id);
    }
  }

  lemma {:induction false} WritesApartOf(d: Design, order: seq<nat>, n: nat)
    requires SingleDriver(d) && IsSchedule(d, order) && n < |order|
    ensures WritesApart(d.cells[order[n]])
  {
    forall x | x in Reads(d.cells[order[n]]) && x.Net?
      ensures x.id !in d.cells[order[n]].y
    {
      ReadsSettled(d, order, n, n, x);
    }
  }

  lemma {:induction false} HoldsKept(c: Cell, v: Valuation, u: Valuation)
    requires Shaped(c) && Agree(Reads(c), v, u) && NetVals(c.y, v) == NetVals(c.y, u)
    ensures CellHolds(c, v) <==> CellHolds(c, u)
  {
    hide CellHolds; hide OutsOf;
    EquationOfOuts(c, v);
    EquationOfOuts(c, u);
    OutsByReads(c, v, u);
  }

  /** Running a later cell leaves an earlier cell's equation as it was. */
  lemma {:induction false} EarlierHolds(d: Design, order: seq<nat>, k: nat, b: Bits, b': Bits)
    requires SingleDriver(d) && IsSchedule(d, order) && AllShaped(d) && k < |order| - 1
    requires Keeps(d.cells[order[|order| - 1]], b, b') && CellHolds(d.cells[order[k]], Wires(b))
    ensures CellHolds(d.cells[order[k]], Wires(b'))
  {
    hide CellHolds; hide Wires; hide IsSchedule; hide AllShaped;
    assert AllShaped(d) ==> Shaped(d.cells[order[k]]) by { ShapedAt(d, order, k); }
    var n := |order| - 1;
    var c := d.cells[order[k]];
    forall x | x in Reads(c)
      ensures BitVal(x, Wires(b)) == BitVal(x, Wires(b'))
    {
      if x.Net? {
        ReadsSettled(d, order, k, n, x);
        assert Get(b', Wire(x.id)) == Get(b, Wire(x.id));
      }
    }
    forall i | 0 <= i < |c.y|
      ensures NetVal(c.y[i], Wires(b)) == NetVal(c.y[i], Wires(b'))
    {
      OutputsApart(d, order, k, n, i);
      assert Get(b', Wire(c.y[i])) == Get(b, Wire(c.y[i]));
    }
    assert NetVals(c.y, Wires(b)) == NetVals(c.y, Wires(b'));
    HoldsKept(c, Wires(b), Wires(b'));
  }

  lemma {:induction false} ShapedAt(d: Design, order: seq<nat>, k: nat)
    requires AllShaped(d) && IsSchedule(d, order) && k < |order|
    ensures order[k] < |d.cells| && Shaped(d.cells[order[k]])
  {
  }

  lemma {:induction false} OutputsApart(d: Design, order: seq<nat>, k: nat, n: nat, i: nat)
    requires SingleDriver(d) && IsSchedule(d, order) && k < n < |order| && i < |d.cells[order[k]].y|
    ensures d.cells[order[k]].y[i] !in d.cells[order[n]].y
  {
  }

  ghost predicate DrivenIn(d: Design, order: seq<nat>, id: nat)
    requires Valid(d, order)
  {
    exists k :: 0 <= k < |order| && id in d.cells[order[k]].y
  }

  /** After the ordered cells every one of them holds, and only what they drive has changed. */
  lemma {:induction false} RunOrder(d: Design, order: seq<nat>, b: Bits)
    requires SingleDriver(d) && IsSchedule(d, order) && AllShaped(d)
    ensures var b' := Run(CombText(d, order), b);
      && (forall v :: !Local(v) && !(v.Wire? && DrivenIn(d, order, v.id)) ==> Get(b', v) == Get(b, v))
      && forall k :: 0 <= k < |order| ==> CellHolds(d.cells[order[k]], Wires(b'))
    decreases |order|
  {
    hide CellHolds; hide Wires; hide CellText; hide SingleDriver;
    if order != [] {
      var n := |order| - 1;
      var p := order[..n];
      var c := d.cells[order[n]];
      PrefixSchedules(d, order);
      RunOrder(d, p, b);
      var m := Run(CombText(d, p), b);
      RunApp(CombText(d, p), CellText(c), b);
      WritesApartOf(d, order, n);
      ShapedAt(d, order, n);
      CellSolves(c, m);
      var b' := Run(CombText(d, order), b);
      forall k | 0 <= k < |order|
        ensures CellHolds(d.cells[order[k]], Wires(b'))
      {
        if k < n {
          assert p[k] == order[k];
          ShapedAt(d, order, k);
          EarlierHolds(d, order, k, m, b');
        }
      }
      forall v | !Local(v) && !(v.Wire? && DrivenIn(d, order, v.id))
        ensures Get(b', v) == Get(b, v)
      {
        DrivenPrefix(d, order, v);
      }
    }
  }

  lemma {:induction false} DrivenPrefix(d: Design, order: seq<nat>, v: Var)
    requires Valid(d, order) && order != [] && !(v.Wire? && DrivenIn(d, order, v.id))
    ensures !(v.Wire? && v.id in d.cells[order[|order| - 1]].y)
    ensures Valid(d, order[..|order| - 1]) && !(v.Wire? && DrivenIn(d, order[..|order| - 1], v.id))
  {
  }

  // ---- uniqueness ----

  /** Two solutions that agree on the sources agree on whatever the scheduled cells make
      available: on every net, when all cells are scheduled. */
  lemma {:induction false} SolutionsAgree(d: Design, order: seq<nat>, v: Valuation, u: Valuation)
    requires SingleDriver(d) && IsSchedule(d, order) && AllShaped(d)
    requires forall k :: 0 <= k < |order| ==> CellHolds(d.cells[order[k]], v) && CellHolds(d.cells[order[k]], u)
    requires forall id :: id in Sources(d) ==> NetVal(id, v) == NetVal(id, u)
    ensures forall id :: Available(d, order, id) ==> NetVal(id, v) == NetVal(id, u)
    decreases |order|
  {
    hide CellHolds; hide SingleDriver; hide Sources; hide OutsOf;
    if order != [] {
      var n := |order| - 1;
      var p := order[..n];
      var c := d.cells[order[n]];
      PrefixSchedules(d, order);
      forall k | 0 <= k < |p|
        ensures CellHolds(d.cells[p[k]], v) && CellHolds(d.cells[p[k]], u)
      {
        assert p[k] == order[k];
      }
      SolutionsAgree(d, p, v, u);
      ShapedAt(d, order, n);
      assert InputsAvailable(d, p, order[n]);
      assert Agree(Reads(c), v, u);
      OutsByReads(c, v, u);
      EquationOfOuts(c, v);
      EquationOfOuts(c, u);
      AvailableGrows(d, p, order[n]);
      assert p + [order[n]] == order;
      forall id | id in c.y
        ensures NetVal(id, v) == NetVal(id, u)
      {
        var i :| 0 <= i < |c.y| && c.y[i] == id;
        assert NetVals(c.y, v)[i] == NetVals(c.y, u)[i];
      }
    }
  }

  lemma {:induction false} EveryNetAvailable(d: Design, order: seq<nat>, id: nat)
    requires Splits(d, order, []) && id in Nets(d)
    ensures Available(d, order, id)
  {
    if id in Driven(d) {
      var i :| 0 <= i < |d.cells| && id in d.cells[i].y;
      assert i in order;
      var k :| 0 <= k < |order| && order[k] == i;
      assert id in d.cells[order[k]].y;
    }
  }

  /** An acyclic netlist has at most one solution for given sources. */
  lemma {:induction false} AtMostOneSolution(d: Design, order: seq<nat>, v: Valuation, u: Valuation)
    requires SingleDriver(d) && AllShaped(d) && IsSchedule(d, order) && Splits(d, order, [])
    requires Solves(d, v) && Solves(d, u)
    requires forall id :: id in Sources(d) ==> NetVal(id, v) == NetVal(id, u)
    ensures forall id :: id in Nets(d) ==> NetVal(id, v) == NetVal(id, u)
  {
    hide CellHolds; hide SingleDriver; hide Nets; hide Splits; hide Sources;
    SolutionsAgree(d, order, v, u);
    forall id | id in Nets(d)
      ensures NetVal(id, v) == NetVal(id, u)
    {
      EveryNetAvailable(d, order, id);
    }
  }

  // ---- flip-flops ----

  function Level(o: Option<Bit>, v: Valuation): bool { o.Some? && BitVal(o.value, v) }

  ghost function NextState(f: Ff, i: nat, v: Valuation, held: bool): bool
    requires i < |f.q| <= |f.d|
  {
    NextBit(f, i, Level(f.en, v), Level(f.srst, v), BitVal(f.d[i], v), held)
  }

  /** Every flip-flop is one whose text is right. */
  predicate FfsRight(ffs: seq<Ff>) {
    FfsShaped(ffs) && forall k, i :: 0 <= k < |ffs| && 0 <= i < |ffs[k].q| ==> FfFaithful(ffs[k], i)
  }

  /** The update expression, for any flip-flop. */
  lemma {:induction false} FfTextIs(f: Ff, i: nat, b: Bits)
    requires i < |f.q| <= |f.d|
    ensures EvalBit(FfRhs(f, i), b)
            == TextBit(f, Level(f.en, Wires(b)), Level(f.srst, Wires(b)), BitVal(f.d[i], Wires(b)), Get(b, Held(f.q[i])))
  {
    hide Wires; hide Name;
    var en := if f.en.Some? then Name(f.en.value) else VOnes;
    var data, held := Name(f.d[i]), Use(Held(f.q[i]));
    NameIs(f.d[i], b);
    if f.en.Some? { NameIs(f.en.value, b); }
    if f.srst.Some? {
      NameIs(f.srst.value, b);
      var sr := Name(f.srst.value);
      var e := Conj(en, Inv(sr));
      assert EvalBit(Inv(sr), b) == !EvalBit(sr, b);
      assert EvalBit(e, b) == (EvalBit(en, b) && !EvalBit(sr, b));
      assert EvalBit(Inv(e), b) == !EvalBit(e, b);
      assert EvalBit(Conj(held, Inv(e)), b) == (EvalBit(held, b) && !EvalBit(e, b));
      assert EvalBit(Conj(Conj(held, Inv(e)), Inv(sr)), b) == (EvalBit(held, b) && !EvalBit(e, b) && !EvalBit(sr, b));
      assert EvalBit(Conj(data, e), b) == (EvalBit(data, b) && EvalBit(e, b));
    } else {
      assert EvalBit(Inv(en), b) == !EvalBit(en, b);
      assert EvalBit(Conj(data, en), b) == (EvalBit(data, b) && EvalBit(en, b));
      assert EvalBit(Conj(held, Inv(en)), b) == (EvalBit(held, b) && !EvalBit(en, b));
    }
  }

  lemma {:induction false} FfRhsIs(f: Ff, i: nat, b: Bits)
    requires i < |f.q| <= |f.d| && FfFaithful(f, i)
    ensures EvalBit(FfRhs(f, i), b) == NextState(f, i, Wires(b), Get(b, Held(f.q[i])))
  {
    hide Wires; hide FfRhs; hide BitVal; hide EvalBit;
    FfTextIs(f, i, b);
    FfTextRightIff(f, i);
    assert NextAgrees(f, i, Level(f.en, Wires(b)), Level(f.srst, Wires(b)), BitVal(f.d[i], Wires(b)), Get(b, Held(f.q[i])));
  }

  ghost predicate OnlyNext(b: Bits, b': Bits) { forall v: Var :: !v.Next? ==> Get(b', v) == Get(b, v) }

  /** Right-hand sides read nets and the old state only. */
  lemma {:induction false} FfRhsStable(f: Ff, i: nat, b: Bits, b': Bits)
    requires i < |f.q| <= |f.d| && OnlyNext(b, b')
    ensures EvalBit(FfRhs(f, i), b') == EvalBit(FfRhs(f, i), b)
  {
    hide Wires; hide EvalBit; hide FfRhs; hide BitVal;
    FfTextIs(f, i, b);
    FfTextIs(f, i, b');
    BitStable(f.d[i], b, b');
    if f.en.Some? { BitStable(f.en.value, b, b'); }
    if f.srst.Some? { BitStable(f.srst.value, b, b'); }
  }

  lemma {:induction false} BitStable(x: Bit, b: Bits, b': Bits)
    requires OnlyNext(b, b')
    ensures BitVal(x, Wires(b')) == BitVal(x, Wires(b))
  {
  }

  lemma {:induction false} RunFf(f: Ff, b: Bits, n: nat)
    requires n <= |f.q| <= |f.d| && forall i, j :: 0 <= i < j < |f.q| ==> f.q[i] != f.q[j]
    ensures var b' := Run(FfText(f)[..n], b);
      && OnlyNext(b, b')
      && (forall id :: id !in f.q ==> Get(b', Next(id)) == Get(b, Next(id)))
      && forall i :: 0 <= i < n ==> Get(b', Next(f.q[i])) == EvalBit(FfRhs(f, i), b)
    decreases n
  {
    hide EvalBit; hide FfRhs;
    if n > 0 {
      RunFf(f, b, n - 1);
      var t := FfText(f);
      assert t[..n] == t[..n - 1] + [t[n - 1]];
      RunApp(t[..n - 1], [t[n - 1]], b);
      var m := Run(t[..n - 1], b);
      RunOne(t[n - 1], m);
      FfRhsStable(f, n - 1, b, m);
    }
  }

  ghost predicate FfsApart(ffs: seq<Ff>) {
    forall i, j, x, y :: 0 <= i < |ffs| && 0 <= j < |ffs| && 0 <= x < |ffs[i].q| && 0 <= y < |ffs[j].q|
                         && ffs[i].q[x] == ffs[j].q[y]
                         ==> i == j && x == y
  }

  lemma {:induction false} RunFfs(ffs: seq<Ff>, b: Bits)
    requires FfsShaped(ffs) && FfsApart(ffs)
    ensures var b' := Run(FfsText(ffs), b);
      && OnlyNext(b, b')
      && forall k, i :: 0 <= k < |ffs| && 0 <= i < |ffs[k].q|
           ==> Get(b', Next(ffs[k].q[i])) == EvalBit(FfRhs(ffs[k], i), b)
    decreases |ffs|
  {
    hide EvalBit; hide FfRhs; hide FfText;
    if ffs != [] {
      var n := |ffs| - 1;
      var p, f := ffs[..n], ffs[n];
      RunFfs(p, b);
      var m := Run(FfsText(p), b);
      RunApp(FfsText(p), FfText(f), b);
      RunFf(f, m, |f.q|);
      assert FfText(f)[..|f.q|] == FfText(f) by { FfTextLength(f); }
      var b' := Run(FfsText(ffs), b);
      forall k, i | 0 <= k < |ffs| && 0 <= i < |ffs[k].q|
        ensures Get(b', Next(ffs[k].q[i])) == EvalBit(FfRhs(ffs[k], i), b)
      {
        if k < n {
          assert ffs[k].q[i] !in f.q;
          assert p[k] == ffs[k];
        } else {
          FfRhsStable(f, i, b, m);
        }
      }
    }
  }

  lemma {:induction false} FfTextLength(f: Ff)
    requires |f.q| <= |f.d|
    ensures |FfText(f)| == |f.q|
  {
  }

  lemma {:induction false} RunLoads(qs: seq<nat>, b: Bits, n: nat)
    requires n <= |qs|
    ensures var b' := Run(LoadText(qs)[..n], b);
      && (forall v: Var :: !(v.Wire? && v.id in qs[..n]) ==> Get(b', v) == Get(b, v))
      && forall q :: q in qs[..n] ==> Get(b', Wire(q)) == Get(b, Held(q))
    decreases n
  {
    if n > 0 {
      RunLoads(qs, b, n - 1);
      var t := LoadText(qs);
      assert t[..n] == t[..n - 1] + [t[n - 1]] && qs[..n] == qs[..n - 1] + [qs[n - 1]];
      RunApp(t[..n - 1], [t[n - 1]], b);
      RunOne(t[n - 1], Run(t[..n - 1], b));
    }
  }

  lemma {:induction false} RunIns(ins: seq<nat>, b: Bits, n: nat)
    requires n <= |ins| && forall i, j :: 0 <= i < j < |ins| ==> ins[i] != ins[j]
    ensures var b' := Run(InText(ins)[..n], b);
      && (forall v: Var :: !(v.Wire? && v.id in ins[..n]) ==> Get(b', v) == Get(b, v))
      && forall k :: 0 <= k < n ==> Get(b', Wire(ins[k])) == Get(b, InPin(k))
    decreases n
  {
    if n > 0 {
      RunIns(ins, b, n - 1);
      var t := InText(ins);
      assert t[..n] == t[..n - 1] + [t[n - 1]] && ins[..n] == ins[..n - 1] + [ins[n - 1]];
      RunApp(t[..n - 1], [t[n - 1]], b);
      RunOne(t[n - 1], Run(t[..n - 1], b));
    }
  }

  lemma {:induction false} RunOuts(outs: seq<nat>, b: Bits, n: nat)
    requires n <= |outs|
    ensures var b' := Run(OutText(outs)[..n], b);
      && (forall v: Var :: !v.OutPin? ==> Get(b', v) == Get(b, v))
      && forall k :: 0 <= k < n ==> Get(b', OutPin(k)) == Get(b, Wire(outs[k]))
    decreases n
  {
    if n > 0 {
      RunOuts(outs, b, n - 1);
      var t := OutText(outs);
      assert t[..n] == t[..n - 1] + [t[n - 1]];
      RunApp(t[..n - 1], [t[n - 1]], b);
      RunOne(t[n - 1], Run(t[..n - 1], b));
    }
  }

  // ---- the whole function ----

  /** `qs` are the flip-flop bits; no cell and no flip-flop drives an input, and no two
      inputs are one net. */
  ghost predicate PortsOf(d: Design, p: Ports) {
    && (forall q :: q in p.qs <==> q in FfBits(d))
    && (forall k :: 0 <= k < |p.ins| ==> p.ins[k] !in Driven(d) && p.ins[k] !in FfBits(d))
    && forall i, j :: 0 <= i < j < |p.ins| ==> p.ins[i] != p.ins[j]
  }

  /** One lane of one cycle: `b` before, `b'` after. */
  ghost predicate CycleRight(d: Design, p: Ports, b: Bits, b': Bits)
    requires AllShaped(d) && FfsShaped(d.ffs)
  {
    var v := Wires(b');
    && Solves(d, v)
    && (forall q :: q in FfBits(d) ==> NetVal(q, v) == Get(b, Held(q)))
    && (forall k :: 0 <= k < |p.ins| ==> NetVal(p.ins[k], v) == Get(b, InPin(k)))
    && (forall id :: id !in Driven(d) && id !in FfBits(d) && id !in p.ins ==> NetVal(id, v) == Get(b, Wire(id)))
    && (forall k :: 0 <= k < |p.outs| ==> Get(b', OutPin(k)) == NetVal(p.outs[k], v))
    && forall k, i :: 0 <= k < |d.ffs| && 0 <= i < |d.ffs[k].q| ==>
         Get(b', Next(d.ffs[k].q[i])) == NextState(d.ffs[k], i, v, Get(b, Held(d.ffs[k].q[i])))
  }

  /** Loads and inputs. */
  lemma {:induction false} RunEntry(d: Design, p: Ports, b: Bits)
    requires SingleDriver(d) && PortsOf(d, p)
    ensures var b1 := Run(LoadText(p.qs) + InText(p.ins), b);
      && (forall v: Var :: !v.Wire? ==> Get(b1, v) == Get(b, v))
      && (forall q :: q in FfBits(d) ==> Get(b1, Wire(q)) == Get(b, Held(q)))
      && (forall k :: 0 <= k < |p.ins| ==> Get(b1, Wire(p.ins[k])) == Get(b, InPin(k)))
      && (forall id :: id !in FfBits(d) && id !in p.ins ==> Get(b1, Wire(id)) == Get(b, Wire(id)))
  {
    hide LoadText; hide InText; hide Run; hide FfBits; hide Driven; hide SingleDriver;
    var loads, ins := LoadText(p.qs), InText(p.ins);
    RunApp(loads, ins, b);
    RunLoads(p.qs, b, |p.qs|);
    assert loads[..|p.qs|] == loads && p.qs[..|p.qs|] == p.qs by { LoadTextLength(p.qs); }
    RunIns(p.ins, Run(loads, b), |p.ins|);
    assert ins[..|p.ins|] == ins && p.ins[..|p.ins|] == p.ins by { InTextLength(p.ins); }
  }

  /** Everything but the outputs. */
  lemma {:induction false} LaneState(d: Design, order: seq<nat>, p: Ports, b: Bits)
    requires SingleDriver(d) && AllShaped(d) && FfsRight(d.ffs) && PortsOf(d, p)
    requires IsSchedule(d, order) && Splits(d, order, [])
    ensures Valid(d, order)
    ensures CycleRight(d, p.(outs := []), b, Run(LoadText(p.qs) + InText(p.ins) + CombText(d, order) + FfsText(d.ffs), b))
  {
    hide CellHolds; hide Wires; hide NextState; hide CombText; hide FfsText; hide LoadText; hide InText;
    hide Splits; hide IsSchedule; hide Run; hide FfBits; hide Driven; hide AllShaped; hide Solves; hide FfFaithful;
    ScheduleIsValid(d, order);
    var entry, comb, upd := LoadText(p.qs) + InText(p.ins), CombText(d, order), FfsText(d.ffs);
    RunApp(entry + comb, upd, b);
    RunApp(entry, comb, b);
    RunEntry(d, p, b);
    var b1 := Run(entry, b);
    var b2 := Run(comb, b1);
    var b3 := Run(upd, b2);
    RunOrder(d, order, b1);
    RunFfs(d.ffs, b2);
    SameWires(b2, b3);
    forall k | 0 <= k < |order|
      ensures order[k] < |d.cells| && Shaped(d.cells[order[k]]) && CellHolds(d.cells[order[k]], Wires(b3))
    {
      ShapedAt(d, order, k);
      HoldsAfterUpdates(d.cells[order[k]], b2, b3);
    }
    SolvedAll(d, order, Wires(b3));
    forall id | id !in Driven(d)
      ensures NetVal(id, Wires(b3)) == Get(b1, Wire(id))
    {
      DrivenInDriven(d, order, id);
    }
    forall k, i | 0 <= k < |d.ffs| && 0 <= i < |d.ffs[k].q|
      ensures Get(b3, Next(d.ffs[k].q[i])) == NextState(d.ffs[k], i, Wires(b3), Get(b, Held(d.ffs[k].q[i])))
    {
      FfRhsStable(d.ffs[k], i, b2, b3);
      FfRhsIs(d.ffs[k], i, b3);
      assert Get(b2, Held(d.ffs[k].q[i])) == Get(b, Held(d.ffs[k].q[i]));
    }
  }

  /** The generated text, run in one lane, from any contents of the declared variables. */
  lemma {:induction false} LaneCycle(d: Design, order: seq<nat>, p: Ports, b: Bits)
    requires SingleDriver(d) && AllShaped(d) && FfsRight(d.ffs) && PortsOf(d, p)
    requires IsSchedule(d, order) && Splits(d, order, [])
    ensures Valid(d, order) && CycleRight(d, p, b, Run(CycleText(d, order, p), b))
  {
    hide CellHolds; hide Wires; hide NextState; hide CombText; hide FfsText; hide LoadText; hide InText; hide OutText;
    hide Splits; hide IsSchedule; hide Run; hide FfBits; hide Driven; hide AllShaped; hide Solves; hide FfFaithful;
    hide SingleDriver; hide PortsOf;
    LaneState(d, order, p, b);
    var state := LoadText(p.qs) + InText(p.ins) + CombText(d, order) + FfsText(d.ffs);
    var b3 := Run(state, b);
    RunApp(state, OutText(p.outs), b);
    RunOuts(p.outs, b3, |p.outs|);
    assert OutText(p.outs)[..|p.outs|] == OutText(p.outs) by { OutTextLength(p.outs); }
    var b4 := Run(OutText(p.outs), b3);
    var v, u := Wires(b3), Wires(b4);
    WiresOnly(b3, b4);
    SolvesSame(d, v, u);
    forall k, i | 0 <= k < |d.ffs| && 0 <= i < |d.ffs[k].q|
      ensures Get(b4, Next(d.ffs[k].q[i])) == NextState(d.ffs[k], i, u, Get(b, Held(d.ffs[k].q[i])))
    {
      NextSame(d.ffs[k], i, v, u, Get(b, Held(d.ffs[k].q[i])));
    }
  }

  lemma {:induction false} WiresOnly(b: Bits, b': Bits)
    requires forall v: Var :: !v.OutPin? ==> Get(b', v) == Get(b, v)
    ensures SameNets(Wires(b), Wires(b'))
  {
  }

  ghost predicate SameNets(v: Valuation, u: Valuation) { forall id :: NetVal(id, v) == NetVal(id, u) }

  lemma {:induction false} SolvesSame(d: Design, v: Valuation, u: Valuation)
    requires AllShaped(d) && Solves(d, v) && SameNets(v, u)
    ensures Solves(d, u)
  {
    hide CellHolds;
    forall i | 0 <= i < |d.cells|
      ensures CellHolds(d.cells[i], u)
    {
      assert NetVals(d.cells[i].y, v) == NetVals(d.cells[i].y, u);
      HoldsKept(d.cells[i], v, u);
    }
  }

  lemma {:induction false} NextSame(f: Ff, i: nat, v: Valuation, u: Valuation, held: bool)
    requires i < |f.q| <= |f.d| && SameNets(v, u)
    ensures NextState(f, i, v, held) == NextState(f, i, u, held)
  {
  }

  lemma {:induction false} InTextLength(ins: seq<nat>)
    ensures |InText(ins)| == |ins|
  {
  }

  lemma {:induction false} OutTextLength(outs: seq<nat>)
    ensures |OutText(outs)| == |outs|
  {
  }

  lemma {:induction false} LoadTextLength(qs: seq<nat>)
    ensures |LoadText(qs)| == |qs|
  {
  }

  lemma {:induction false} SameWires(b: Bits, b': Bits)
    requires OnlyNext(b, b')
    ensures forall id :: NetVal(id, Wires(b')) == NetVal(id, Wires(b))
  {
  }

  lemma {:induction false} HoldsAfterUpdates(c: Cell, b: Bits, b': Bits)
    requires Shaped(c) && OnlyNext(b, b') && CellHolds(c, Wires(b))
    ensures CellHolds(c, Wires(b'))
  {
    hide CellHolds; hide Wires;
    SameWires(b, b');
    assert NetVals(c.y, Wires(b)) == NetVals(c.y, Wires(b'));
    HoldsKept(c, Wires(b), Wires(b'));
  }

  lemma {:induction false} SolvedAll(d: Design, order: seq<nat>, v: Valuation)
    requires AllShaped(d) && Splits(d, order, [])
    requires forall k :: 0 <= k < |order| ==> CellHolds(d.cells[order[k]], v)
    ensures Solves(d, v)
  {
    hide CellHolds;
    forall i | 0 <= i < |d.cells|
      ensures CellHolds(d.cells[i], v)
    {
      assert i in order;
    }
  }

  lemma {:induction false} DrivenInDriven(d: Design, order: seq<nat>, id: nat)
    requires Valid(d, order) && id !in Driven(d)
    ensures !DrivenIn(d, order, id)
  {
  }

  /** The 64 lanes are 64 instances: whatever the words held before, after the generated
      function each lane holds the solution of the netlist for that lane's inputs and state,
      that lane's next state, and on the outputs what their nets are. */
  lemma {:induction false} EveryLaneIsAnInstance(d: Design, order: seq<nat>, p: Ports, st: Store, l: nat)
    requires SingleDriver(d) && AllShaped(d) && FfsRight(d.ffs) && PortsOf(d, p)
    requires IsSchedule(d, order) && Splits(d, order, [])
    requires l < W.LANES
    ensures Valid(d, order) && CycleRight(d, p, Lane(st, l), Lane(Exec(CycleText(d, order, p), st), l))
  {
    hide CycleRight; hide CycleText; hide Splits; hide FfBits; hide SingleDriver; hide IsSchedule; hide PortsOf;
    ScheduleIsValid(d, order);
    LanesApart(CycleText(d, order, p), st, l);
    LaneCycle(d, order, p, Lane(st, l));
  }
}
