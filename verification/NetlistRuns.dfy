/** Many cycles of the generated function: each lane is a faithful simulation of one instance
    of the netlist, for as long as it runs and whatever the other lanes are fed. */
module NetlistRuns {
  import opened Netlist
  import opened Schedule
  import opened Emit
  import opened CellMeaning
  import opened CycleMeaning
  import W = Words

  // ---- one instance, by the netlist's equations ----

  /** A cycle of one instance: its nets `v` solve the netlist for the inputs and the state
      `q`, and the new state is what the flip-flops take. */
  ghost predicate InstanceStep(d: Design, p: Ports, input: seq<bool>, q: Valuation, v: Valuation, q': Valuation)
    requires AllShaped(d) && FfsShaped(d.ffs)
  {
    && Solves(d, v)
    && (forall id :: id in FfBits(d) ==> NetVal(id, v) == NetVal(id, q))
    && |input| == |p.ins| && (forall k :: 0 <= k < |p.ins| ==> NetVal(p.ins[k], v) == input[k])
    && forall k, i :: 0 <= k < |d.ffs| && 0 <= i < |d.ffs[k].q| ==>
         NetVal(d.ffs[k].q[i], q') == NextState(d.ffs[k], i, v, NetVal(d.ffs[k].q[i], q))
  }

  ghost predicate InstanceRun(d: Design, p: Ports, inputs: seq<seq<bool>>, vs: seq<Valuation>, qs: seq<Valuation>)
    requires AllShaped(d) && FfsShaped(d.ffs)
  {
    && |vs| == |inputs| && |qs| == |inputs| + 1
    && forall k :: 0 <= k < |inputs| ==> InstanceStep(d, p, inputs[k], qs[k], vs[k], qs[k + 1])
  }

  // ---- 64 instances, by the generated text ----

  /** Between cycles the caller hands the new state over as the old one and sets the input
      arguments, one word a bit. */
  function Feed(d: Design, st: Store, input: seq<W.Word>): Store {
    map v: Var | v in FedVars(d, st, input) ::
      if v.Held? && v.id in FfBits(d) then (if Next(v.id) in st then st[Next(v.id)] else W.Zero())
      else if v.InPin? && v.k < |input| then input[v.k]
      else if v in st then st[v] else W.Zero()
  }

  function FedVars(d: Design, st: Store, input: seq<W.Word>): set<Var> {
    st.Keys + (set q | q in FfBits(d) :: Held(q)) + (set k: nat | k < |input| :: InPin(k))
  }

  function Cycles(d: Design, text: seq<Stmt>, st: Store, inputs: seq<seq<W.Word>>): Store {
    if inputs == [] then st
    else Exec(text, Feed(d, Cycles(d, text, st, inputs[..|inputs| - 1]), inputs[|inputs| - 1]))
  }

  function LaneInput(input: seq<W.Word>, l: nat): (r: seq<bool>)
    requires l < W.LANES
    ensures |r| == |input| && forall k :: 0 <= k < |input| ==> r[k] == input[k][l]
  {
    seq(|input|, k requires 0 <= k < |input| => input[k][l])
  }

  function LaneInputs(inputs: seq<seq<W.Word>>, l: nat): (r: seq<seq<bool>>)
    requires l < W.LANES
    ensures |r| == |inputs| && forall k :: 0 <= k < |inputs| ==> r[k] == LaneInput(inputs[k], l)
  {
    seq(|inputs|, k requires 0 <= k < |inputs| => LaneInput(inputs[k], l))
  }

  /** Every net nobody drives is an input. */
  ghost predicate Closed(d: Design, p: Ports) {
    forall id :: id in Nets(d) && id !in Driven(d) && id !in FfBits(d) ==> id in p.ins
  }

  lemma {:induction false} FedLane(d: Design, st: Store, input: seq<W.Word>, l: nat)
    requires l < W.LANES
    ensures forall q :: q in FfBits(d) ==> Get(Lane(Feed(d, st, input), l), Held(q)) == Get(Lane(st, l), Next(q))
    ensures forall k :: 0 <= k < |input| ==> Get(Lane(Feed(d, st, input), l), InPin(k)) == input[k][l]
  {
    forall q | q in FfBits(d)
      ensures Get(Lane(Feed(d, st, input), l), Held(q)) == Get(Lane(st, l), Next(q))
    {
      assert Held(q) in FedVars(d, st, input);
    }
    forall k | 0 <= k < |input|
      ensures Get(Lane(Feed(d, st, input), l), InPin(k)) == input[k][l]
    {
      assert InPin(k) in FedVars(d, st, input);
    }
  }

  /** The equations leave an instance no choice: two right cycles from the same state and
      inputs have the same nets, the same new state and the same outputs. */
  lemma {:induction false} CycleIsStep(d: Design, order: seq<nat>, p: Ports, b: Bits, b': Bits, input: seq<bool>,
                                       q: Valuation, v: Valuation, q': Valuation)
    requires SingleDriver(d) && AllShaped(d) && FfsShaped(d.ffs) && Closed(d, p)
    requires IsSchedule(d, order) && Splits(d, order, [])
    requires CycleRight(d, p, b, b') && InstanceStep(d, p, input, q, v, q')
    requires forall id :: id in FfBits(d) ==> Get(b, Held(id)) == NetVal(id, q)
    requires forall k :: 0 <= k < |p.ins| ==> Get(b, InPin(k)) == input[k]
    ensures forall id :: id in Nets(d) ==> NetVal(id, Wires(b')) == NetVal(id, v)
    ensures forall id :: id in FfBits(d) ==> Get(b', Next(id)) == NetVal(id, q')
    ensures forall k :: 0 <= k < |p.outs| && p.outs[k] in Nets(d) ==> Get(b', OutPin(k)) == NetVal(p.outs[k], v)
  {
    hide SingleDriver; hide IsSchedule; hide Splits; hide AllShaped; hide Solves; hide NextState; hide Wires;
    hide Nets; hide Driven;
    var u := Wires(b');
    forall id | id in Sources(d)
      ensures NetVal(id, u) == NetVal(id, v)
    {
      if id !in FfBits(d) {
        var k :| 0 <= k < |p.ins| && p.ins[k] == id;
      }
    }
    AtMostOneSolution(d, order, u, v);
    forall id | id in FfBits(d)
      ensures Get(b', Next(id)) == NetVal(id, q')
    {
      var k, i :| 0 <= k < |d.ffs| && 0 <= i < |d.ffs[k].q| && d.ffs[k].q[i] == id;
      FfPortsAreNets(d, k);
      SameNextState(d, k, i, u, v, NetVal(id, q));
    }
  }

  lemma {:induction false} FfPortsAreNets(d: Design, k: nat)
    requires k < |d.ffs|
    ensures FfNets(d.ffs[k]) <= Nets(d)
  {
    var f := d.ffs[k];
    forall b | b in FfNets(f)
      ensures b in Nets(d)
    {
      assert 0 <= k < |d.ffs| && b in FfNets(d.ffs[k]);
    }
  }

  lemma {:induction false} SameNextState(d: Design, k: nat, i: nat, u: Valuation, v: Valuation, held: bool)
    requires FfsShaped(d.ffs) && k < |d.ffs| && i < |d.ffs[k].q|
    requires FfNets(d.ffs[k]) <= Nets(d)
    requires forall id :: id in Nets(d) ==> NetVal(id, u) == NetVal(id, v)
    ensures NextState(d.ffs[k], i, u, held) == NextState(d.ffs[k], i, v, held)
  {
    hide Nets;
    var f := d.ffs[k];
    var ports := f.d + OptBit(f.en) + OptBit(f.srst);
    forall x | x in ports
      ensures BitVal(x, u) == BitVal(x, v)
    {
      if x.Net? { assert x.id in NetsOf(ports); }
    }
    assert f.d[i] in ports;
    if f.en.Some? { assert f.en.value in ports; }
    if f.srst.Some? { assert f.srst.value in ports; }
  }

  /** Over any number of cycles, any inputs of any lanes and any garbage in the locals, lane l
      of the generated code is the instance that starts in lane l's state and is fed lane l's
      inputs: same nets and outputs in the last cycle, same state after it. */
  lemma {:induction false} LanesSimulate(d: Design, order: seq<nat>, p: Ports, st: Store,
                                         inputs: seq<seq<W.Word>>, l: nat, vs: seq<Valuation>, qs: seq<Valuation>)
    requires SingleDriver(d) && AllShaped(d) && FfsRight(d.ffs) && PortsOf(d, p) && Closed(d, p)
    requires IsSchedule(d, order) && Splits(d, order, [])
    requires l < W.LANES && InstanceRun(d, p, LaneInputs(inputs, l), vs, qs)
    requires forall q :: q in FfBits(d) ==> Get(Lane(st, l), Next(q)) == NetVal(q, qs[0])
    ensures Valid(d, order)
    ensures var b := Lane(Cycles(d, CycleText(d, order, p), st, inputs), l);
      && (forall q :: q in FfBits(d) ==> Get(b, Next(q)) == NetVal(q, qs[|inputs|]))
      && (inputs != [] ==>
            && (forall id :: id in Nets(d) ==> NetVal(id, Wires(b)) == NetVal(id, vs[|inputs| - 1]))
            && forall k :: 0 <= k < |p.outs| && p.outs[k] in Nets(d) ==>
                 Get(b, OutPin(k)) == NetVal(p.outs[k], vs[|inputs| - 1]))
    decreases |inputs|
  {
    hide SingleDriver; hide IsSchedule; hide Splits; hide AllShaped; hide InstanceStep; hide CycleText; hide FfFaithful;
    hide CycleRight; hide Exec; hide Feed; hide Nets; hide Driven; hide FfBits; hide Wires; hide PortsOf; hide Closed;
    ScheduleIsValid(d, order);
    if inputs != [] {
      var n := |inputs| - 1;
      var text, before := CycleText(d, order, p), inputs[..n];
      PrefixRuns(d, p, inputs, l, vs, qs);
      LanesSimulate(d, order, p, st, before, l, vs[..n], qs[..n + 1]);
      var m := Cycles(d, text, st, before);
      var fed := Feed(d, m, inputs[n]);
      FedLane(d, m, inputs[n], l);
      EveryLaneIsAnInstance(d, order, p, fed, l);
      StepWidth(d, p, LaneInput(inputs[n], l), qs[n], vs[n], qs[n + 1]);
      CycleIsStep(d, order, p, Lane(fed, l), Lane(Exec(text, fed), l), LaneInput(inputs[n], l), qs[n], vs[n], qs[n + 1]);
    }
  }

  lemma {:induction false} StepWidth(d: Design, p: Ports, input: seq<bool>, q: Valuation, v: Valuation, q': Valuation)
    requires AllShaped(d) && FfsShaped(d.ffs) && InstanceStep(d, p, input, q, v, q')
    ensures |input| == |p.ins|
  {
  }

  lemma {:induction false} PrefixRuns(d: Design, p: Ports, inputs: seq<seq<W.Word>>, l: nat, vs: seq<Valuation>, qs: seq<Valuation>)
    requires AllShaped(d) && FfsShaped(d.ffs) && l < W.LANES && inputs != []
    requires InstanceRun(d, p, LaneInputs(inputs, l), vs, qs)
    ensures var n := |inputs| - 1;
      && InstanceRun(d, p, LaneInputs(inputs[..n], l), vs[..n], qs[..n + 1])
      && InstanceStep(d, p, LaneInput(inputs[n], l), qs[n], vs[n], qs[n + 1])
  {
    hide InstanceStep;
    var n := |inputs| - 1;
    forall k | 0 <= k < n
      ensures InstanceStep(d, p, LaneInputs(inputs[..n], l)[k], qs[..n + 1][k], vs[..n][k], qs[..n + 1][k + 1])
    {
      assert InstanceStep(d, p, LaneInputs(inputs, l)[k], qs[k], vs[k], qs[k + 1]);
    }
  }
}
