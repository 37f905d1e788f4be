/** The simulator object (preprocess/frontend/frontend_sim.cpp, `FrontendSim`): its loops
    over blocks, slots and wrong-path depth, each the transition of `FrontendSpec`. */
module Frontend {
  import opened Options
  import opened FrontendSpec
  import opened History
  import opened Words

  class FrontendSim<L, U, B> {
    const e: Env<L, U, B>
    var tables: L
    var spec: Spec
    var ras: Ras.RasValue
    var ilen: map<nat, nat>
    var smap: map<nat, BlkObs>
    var ubtb: U
    var btb: B
    var fe: seq<FeByte>
    var wp: seq<FeByte>

    function Learned(): Core<L>
      reads this
    {
      Core(tables, spec, ras, ilen, smap)
    }

    ghost function State(): Sim<L, U, B>
      reads this
    {
      Sim(Learned(), ubtb, btb, fe, wp)
    }

    ghost predicate Valid()
      reads this
    {
      GoodEnv(e) && GoodCore(e, Learned())
    }

    constructor (env: Env<L, U, B>, t: L, u: U, b: B, rasDepth: int)
      requires GoodEnv(env)
      ensures Valid() && e == env
      ensures State() == Sim(Core(t, Spec(Reset(), seq(|env.folds|, _ => Zero())), Ras.Init(rasDepth), map[], map[]), u, b, [], [])
    {
      e := env;
      tables, ubtb, btb := t, u, b;
      spec := Spec(Reset(), seq(|env.folds|, _ => Zero()));
      ras := Ras.Init(rasDepth);
      ilen, smap := map[], map[];
      fe, wp := [], [];
    }

    /** The three-stage prediction. */
    method PredictAt(pc: nat) returns (p: FePred)
      requires Valid()
      modifies this`ubtb, this`btb
      ensures Valid() && (State(), p) == Predict(e, old(State()), pc)
    {
      hide Eval;
      var seqfall := pc + e.blockBytes;
      var c := Learned();
      var lu := e.lookupU(ubtb, pc);
      ubtb := lu.0;
      var s1 := Eval(e, c, lu.1, e.ubtbSlots, false, seqfall);
      var lb := e.lookupB(btb, pc);
      btb := lb.0;
      var s2 := Eval(e, c, lb.1, e.btbSlots, false, seqfall);
      var s3 := Eval(e, c, lb.1, e.btbSlots, true, seqfall);
      p := FePred(lu.1.Some?, !SameFlow(s2, s1), if !SameFlow(s3, s2) then 2 else if !SameFlow(s2, s1) then 1 else 0, s3);
    }

    /** Trains the direction tables on a known wrong-path block. */
    method TrainOn(o: BlkObs)
      requires Valid() && GoodObs(o)
      modifies this`tables
      ensures Valid() && Learned() == TrainFrom(e, old(Learned()), o, 0, LastSlot(o))
    {
      var last := LastSlot(o);
      var i := 0;
      while i < last
        invariant i <= last && Valid()
        invariant TrainFrom(e, Learned(), o, i, last) == TrainFrom(e, old(Learned()), o, 0, last)
      {
        var sl := o.br[i];
        if sl.valid && sl.brType == BR_COND {
          tables := e.train(tables, spec, sl.pc, o.takenIdx == Some(i));
        }
        i := i + 1;
      }
    }

    method WriteWp(x: FeByte)
      requires Valid()
      modifies this`fe, this`wp
      ensures Valid() && State() == EmitWp(e, old(State()), x)
    {
      match e.mode {
        case Inline => fe := fe + [x];
        case NoOutput =>
        case Separate => wp := wp + [x];
      }
    }

    /** One block of the wrong path; the result is where it leads. */
    method WrongPathBlock(pc: nat) returns (next: nat)
      requires Valid()
      modifies this
      ensures Valid() && (State(), next) == WrongBlock(e, old(State()), pc)
    {
      hide Predict; hide TrainFrom; hide Speculate;
      var p := PredictAt(pc);
      var known := pc in smap;
      var o := if known then smap[pc] else NO_OBS;
      var aTaken := known && o.takenIdx.Some?;
      var aNext := if !known then pc + e.blockBytes else if aTaken then o.br[o.takenIdx.value].target else o.fallthru;
      var byte := FeByte(p.bubbles, p.ubtbHit, p.btbOverride, p.flow.taken == aTaken, p.flow.next == aNext, true, false);
      WriteWp(byte);
      if known {
        TrainKnown(pc, o);
      }
      SpeculateOn(p, pc);
      next := p.flow.next;
    }

    /** What a known block teaches on the wrong path. */
    method TrainKnown(pc: nat, o: BlkObs)
      requires Valid() && GoodObs(o)
      modifies this`tables, this`ubtb, this`btb
      ensures Valid()
      ensures Learned() == if e.trainTage then TrainFrom(e, old(Learned()), o, 0, LastSlot(o)) else old(Learned())
      ensures (ubtb, btb) == if e.trainBtb then (e.updateU(old(ubtb), pc, o), e.updateB(old(btb), pc, o))
                             else (old(ubtb), old(btb))
    {
      hide TrainFrom;
      if e.trainTage {
        TrainOn(o);
      }
      if e.trainBtb {
        ubtb := e.updateU(ubtb, pc, o);
        btb := e.updateB(btb, pc, o);
      }
    }

    method SpeculateOn(p: FePred, pc: nat)
      requires Valid()
      modifies this`spec, this`ras
      ensures Valid() && Learned() == Speculate(e, old(Learned()), p, pc)
    {
      hide PushSpec; hide Ras.Push; hide Ras.Pop;
      if p.flow.brType == BR_COND && p.flow.taken {
        spec := PushSpec(e.folds, spec, true);
      }
      if p.flow.brType == BR_CALL {
        ras := Ras.Push(ras, Ras.Ent(p.flow.fall, pc, true));
      } else if p.flow.brType == BR_RET {
        ras := Ras.Pop(ras).0;
      }
    }

    /** Runs `depth` wrong-path blocks between a save and a restore. */
    method ExpandWrongPath(p: FePred, pc: nat)
      requires Valid()
      modifies this
      ensures Valid() && State() == Speculation(e, old(State()), p, pc)
    {
      hide WrongBlock; hide PushSpec; hide Ras.Push; hide Ras.Pop;
      var hs, rs := spec, ras;
      if p.flow.idx.Some? && p.flow.brType == BR_COND {
        spec := PushSpec(e.folds, spec, true);
      }
      if p.flow.brType == BR_CALL {
        ras := Ras.Push(ras, Ras.Ent(p.flow.fall, pc, true));
      } else if p.flow.brType == BR_RET {
        ras := Ras.Pop(ras).0;
      }
      WalkWrongPath(p.flow.next);
      spec, ras := hs, rs;
    }

    method WalkWrongPath(start: nat)
      requires Valid()
      modifies this
      ensures Valid() && State() == WrongPath(e, old(State()), start, e.depth)
    {
      hide WrongBlock;
      var wpc := start;
      var d := 0;
      while d < e.depth
        invariant d <= e.depth && Valid()
        invariant WrongPath(e, State(), wpc, e.depth - d) == WrongPath(e, old(State()), start, e.depth)
      {
        wpc := WrongPathBlock(wpc);
        d := d + 1;
      }
    }

    /** Updates everything from what the block really did. */
    method ResolveBlock(b: Blk)
      requires Valid() && GoodObs(b.obs)
      modifies this
      ensures Valid()
      ensures State() == old(State()).(core := Resolve(e, old(Learned()), b),
                                       u := e.updateU(old(ubtb), b.pc, b.obs), b := e.updateB(old(btb), b.pc, b.obs))
    {
      hide ResolveSlots; hide MergeStatic;
      if b.obs.nBr > 0 && !b.taken && b.hasNext && b.nextPc > b.lastPc && b.nextPc - b.lastPc <= 8 {
        ilen := ilen[b.lastPc := b.nextPc - b.lastPc];
      }
      ubtb := e.updateU(ubtb, b.pc, b.obs);
      btb := e.updateB(btb, b.pc, b.obs);
      ResolveBranches(b);
      smap := smap[b.pc := MergeStatic(if b.pc in smap then smap[b.pc] else NO_OBS, b.obs)];
    }

    method ResolveBranches(b: Blk)
      requires Valid() && GoodObs(b.obs)
      modifies this`tables, this`spec, this`ras, this`ilen
      ensures Valid() && Learned() == ResolveSlots(e, old(Learned()), b, 0, LastSlot(b.obs))
    {
      hide ResolveSlot;
      var last := LastSlot(b.obs);
      var i := 0;
      while i < last
        invariant i <= last && Valid()
        invariant ResolveSlots(e, Learned(), b, i, last) == ResolveSlots(e, old(Learned()), b, 0, last)
      {
        ResolveBranch(b, i);
        i := i + 1;
      }
    }

    method ResolveBranch(b: Blk, i: nat)
      requires Valid() && GoodObs(b.obs) && i < MAX_SLOTS
      modifies this`tables, this`spec, this`ras, this`ilen
      ensures Valid() && Learned() == ResolveSlot(e, old(Learned()), b, i)
    {
      hide PushSpec; hide Ras.Push; hide Ras.Pop; hide ActualNext;
      var sl := b.obs.br[i];
      var tk := b.obs.takenIdx == Some(i);
      if !sl.valid {
        return;
      }
      if sl.brType == BR_COND {
        tables := e.train(tables, spec, sl.pc, tk);
        spec := PushSpec(e.folds, spec, tk);
      }
      if sl.brType == BR_CALL {
        var ret := sl.pc + (if sl.pc in ilen then ilen[sl.pc] else e.ilenBytes);
        ras := Ras.Push(ras, Ras.Ent(ret, sl.pc, true));
      } else if sl.brType == BR_RET {
        var popped := Ras.Pop(ras);
        var x := popped.1;
        ras := popped.0;
        var act := ActualNext(b);
        if e.learnCallLen && x.valid && x.addr != act && act > x.callPc && act - x.callPc <= 8 {
          ilen := ilen[x.callPc := act - x.callPc];
        }
      }
    }

    /** One block of the trace. */
    method Step(b0: Blk)
      requires Valid() && GoodObs(b0.obs)
      modifies this
      ensures Valid() && State() == RunBlock(e, old(State()), b0)
    {
      hide Predict; hide Speculation; hide Resolve; hide ActualNext;
      var b := FixFallthru(ilen, b0);
      var p := PredictAt(b.pc);
      var dirOk := p.flow.taken == b.taken;
      var tgtOk := p.flow.next == ActualNext(b);
      var mis := !(dirOk && tgtOk);
      fe := fe + [FeByte(p.bubbles, p.ubtbHit, p.btbOverride, dirOk, tgtOk, false, mis)];
      if mis && e.depth > 0 {
        ExpandWrongPath(p, b.pc);
      }
      ResolveBlock(b);
    }

    /** The whole trace. */
    method RunTrace(blocks: seq<Blk>)
      requires Valid() && forall i :: 0 <= i < |blocks| ==> GoodObs(blocks[i].obs)
      modifies this
      ensures Valid() && State() == Run(e, old(State()), blocks)
    {
      hide RunBlock;
      var i := 0;
      while i < |blocks|
        invariant i <= |blocks| && Valid()
        invariant State() == Run(e, old(State()), blocks[..i])
      {
        assert blocks[..i + 1][..i] == blocks[..i];
        Step(blocks[i]);
        i := i + 1;
      }
      assert blocks[..i] == blocks;
    }
  }
}
