/** What the front end predicts and writes down (preprocess/frontend/frontend_sim.cpp:572-640
    and 435-475): the flow each stage reads off a buffered block, the bubbles, and the bytes of
    both overlays. */
module FrontendFlow {
  import opened Options
  import opened FrontendHistory
  import opened FrontendSpec
  import opened History

  /** Slot `i` sends the flow away: it holds a jump, call or return, or a conditional branch
      that the tables (stage 3) or the stored hint (stages 1 and 2) predict taken. */
  predicate Leaves<L, U, B>(e: Env<L, U, B>, c: Core<L>, x: FtbEntry, i: nat, byTables: bool)
    requires i < MAX_SLOTS
  {
    var sl := x.br[i];
    sl.valid && (
      || (sl.brType != 0 && sl.brType != 7)
      || (byTables && sl.brType == 0 && e.direction(c.tables, c.spec, sl.pc))
      || (!byTables && i < |x.hint| && x.hint[i] >= 2))
  }

  /** The address on top of the bounded stack of calls. */
  function Top<L>(c: Core<L>): nat {
    if StackOf(c.ras) == [] then 0 else StackOf(c.ras)[0].addr
  }

  /** The flow of a stage: the first slot that leaves decides; a return goes to the top of the
      stack, any other branch to its stored target; without such a slot the block is followed
      by its stored fall-through, or by the next block in memory. */
  ghost predicate Goes<L, U, B>(
      e: Env<L, U, B>, c: Core<L>, x: Option<FtbEntry>, n: nat, byTables: bool, pc: nat, f: Flow)
    requires n <= MAX_SLOTS
  {
    && (f.taken <==> x.Some? && exists i :: 0 <= i < n && Leaves(e, c, x.value, i, byTables))
    && (f.taken <==> f.idx.Some?)
    && f.fall == (if x.Some? && x.value.fallthruValid then x.value.fallthru else pc + e.blockBytes)
    && match f.idx
       case Some(i) =>
         && i < n && Leaves(e, c, x.value, i, byTables)
         && (forall j :: 0 <= j < i ==> !Leaves(e, c, x.value, j, byTables))
         && f.brType == x.value.br[i].brType
         && f.next == (if x.value.br[i].brType == 3 then Top(c) else x.value.br[i].target)
       case None => f.brType == 7 && f.next == f.fall
  }

  /** There is one such flow. */
  lemma {:induction false} GoesOneWay<L, U, B>(
      e: Env<L, U, B>, c: Core<L>, x: Option<FtbEntry>, n: nat, byTables: bool, pc: nat, f: Flow, g: Flow)
    requires n <= MAX_SLOTS && Goes(e, c, x, n, byTables, pc, f) && Goes(e, c, x, n, byTables, pc, g)
    ensures f == g
  {
    hide Leaves; hide Top;
    if f.idx.Some? && g.idx.Some? {
      assert f.idx.value == g.idx.value;
    }
  }

  lemma {:induction false} ScanGoes<L, U, B>(
      e: Env<L, U, B>, c: Core<L>, x: FtbEntry, n: nat, byTables: bool, fall: nat, i: nat)
    requires i <= n <= MAX_SLOTS
    requires forall j :: 0 <= j < i ==> !Leaves(e, c, x, j, byTables)
    ensures var f := EvalFrom(e, c, x, n, byTables, fall, i);
            && (f.taken <==> exists j :: 0 <= j < n && Leaves(e, c, x, j, byTables))
            && (f.taken <==> f.idx.Some?) && f.fall == fall
            && (f.idx.Some? ==>
                  && i <= f.idx.value < n && Leaves(e, c, x, f.idx.value, byTables)
                  && (forall j :: 0 <= j < f.idx.value ==> !Leaves(e, c, x, j, byTables))
                  && f.brType == x.br[f.idx.value].brType
                  && f.next == (if x.br[f.idx.value].brType == 3 then Top(c) else x.br[f.idx.value].target))
            && (f.idx.None? ==> f.brType == 7 && f.next == fall)
    decreases n - i
  {
    Ras.RefinesBoundedStack(c.ras, Ras.NO_ENT);
    assert Top(c) == Ras.Peek(c.ras);
    hide Top; hide Ras.Peek;
    if i < n && !Leaves(e, c, x, i, byTables) {
      ScanGoes(e, c, x, n, byTables, fall, i + 1);
    }
  }

  lemma {:induction false} EvalGoes<L, U, B>(
      e: Env<L, U, B>, c: Core<L>, x: Option<FtbEntry>, n: nat, byTables: bool, pc: nat)
    requires n <= MAX_SLOTS
    ensures Goes(e, c, x, n, byTables, pc, Eval(e, c, x, n, byTables, pc + e.blockBytes))
  {
    hide Leaves; hide EvalFrom; hide Top;
    if x.Some? {
      ScanGoes(e, c, x.value, n, byTables, if x.value.fallthruValid then x.value.fallthru else pc + e.blockBytes, 0);
    }
  }

  /** The prediction for the block at `pc`: stage 1 reads the small buffer, stages 2 and 3 the
      large one, the last with the direction tables; a bubble is lost for every stage whose
      flow had to be corrected. */
  ghost predicate Predicts<L, U, B>(e: Env<L, U, B>, s: Sim<L, U, B>, pc: nat, p: FePred, f1: Flow, f2: Flow)
    requires GoodEnv(e)
  {
    var near, far := e.lookupU(s.u, pc).1, e.lookupB(s.b, pc).1;
    && Goes(e, s.core, near, e.ubtbSlots, false, pc, f1)
    && Goes(e, s.core, far, e.btbSlots, false, pc, f2)
    && Goes(e, s.core, far, e.btbSlots, true, pc, p.flow)
    && p.ubtbHit == near.Some?
    && (p.btbOverride <==> f1.taken != f2.taken || f1.next != f2.next)
    && p.bubbles == (if f2.taken != p.flow.taken || f2.next != p.flow.next then 2 else if p.btbOverride then 1 else 0)
  }

  /** Main theorem on the prediction, for every state and address. */
  lemma {:induction false} PredictionIs<L, U, B>(e: Env<L, U, B>, s: Sim<L, U, B>, pc: nat)
    requires GoodEnv(e)
    ensures var (s', p) := Predict(e, s, pc);
            && (exists f1, f2 :: Predicts(e, s, pc, p, f1, f2))
            && s' == s.(u := e.lookupU(s.u, pc).0, b := e.lookupB(s.b, pc).0)
  {
    hide Eval; hide Goes;
    var near, far := e.lookupU(s.u, pc).1, e.lookupB(s.b, pc).1;
    EvalGoes(e, s.core, near, e.ubtbSlots, false, pc);
    EvalGoes(e, s.core, far, e.btbSlots, false, pc);
    EvalGoes(e, s.core, far, e.btbSlots, true, pc);
    var f1 := Eval(e, s.core, near, e.ubtbSlots, false, pc + e.blockBytes);
    var f2 := Eval(e, s.core, far, e.btbSlots, false, pc + e.blockBytes);
    assert Predicts(e, s, pc, Predict(e, s, pc).1, f1, f2);
  }

  // ---- the wrong path, one block at a time ----

  /** What following the flow does to history and stack: a conditional branch taken is pushed
      as taken, a call puts the fall-through on the stack, a return takes one address off. */
  ghost predicate Follows<L>(c: Core<L>, r: Core<L>, f: Flow, pc: nat) {
    && r.spec.hist == (if f.idx.Some? && f.brType == 0 then PushHist(c.spec.hist, true) else c.spec.hist)
    && StackOf(r.ras) == (if f.brType == 4 then Ras.BoundedPush(StackOf(c.ras), Ras.Ent(f.fall, pc, true), |c.ras.s|)
                          else if f.brType == 3 && StackOf(c.ras) != [] then StackOf(c.ras)[1..]
                          else StackOf(c.ras))
    && |r.ras.s| == |c.ras.s| && r.ilen == c.ilen && r.smap == c.smap
  }

  /** Where the block at `pc` would go, as far as the block map knows. */
  function KnownWay<L>(c: Core<L>, blockBytes: nat, pc: nat): (bool, nat)
    requires pc in c.smap ==> GoodObs(c.smap[pc])
  {
    if pc !in c.smap then (false, pc + blockBytes)
    else
      var o := c.smap[pc];
      if o.takenIdx.Some? then (true, o.br[o.takenIdx.value].target) else (false, o.fallthru)
  }

  /** Training on outcomes with one and the same history. */
  function TrainStill<L, U, B>(e: Env<L, U, B>, t: L, s: Spec, xs: seq<Outcome>): L {
    if xs == [] then t
    else e.train(TrainStill(e, t, s, xs[..|xs| - 1]), s, xs[|xs| - 1].pc, xs[|xs| - 1].taken)
  }

  /** The byte of a prediction, the block having gone to `next`, away or straight on. */
  ghost predicate ByteOf<L, U, B>(e: Env<L, U, B>, s: Sim<L, U, B>, pc: nat, p: FePred, taken: bool, next: nat, x: FeByte)
    requires GoodEnv(e)
  {
    && (exists f1, f2 :: Predicts(e, s, pc, p, f1, f2))
    && x.bubbles == p.bubbles && x.ubtbHit == p.ubtbHit && x.btbOverride == p.btbOverride
    && (x.dirOk <==> p.flow.taken == taken)
    && (x.tgtOk <==> p.flow.next == next)
  }

  /** The byte of a wrong-path block, judged by the block map, in the overlay the settings
      choose. */
  ghost predicate WrongByte<L, U, B>(e: Env<L, U, B>, s: Sim<L, U, B>, pc: nat, r: Sim<L, U, B>, p: FePred, x: FeByte)
    requires GoodEnv(e) && GoodCore(e, s.core)
  {
    var way := KnownWay(s.core, e.blockBytes, pc);
    && ByteOf(e, s, pc, p, way.0, way.1, x) && x.wrongPath && !x.redirect
    && r.fe == (if e.mode == Inline then s.fe + [x] else s.fe)
    && r.wp == (if e.mode == Separate then s.wp + [x] else s.wp)
  }

  /** What a wrong-path block changes: the predicted flow is followed, and what the map knows
      of the block trains the tables and the buffers, as far as the settings ask for it. */
  ghost predicate WrongTeaches<L, U, B>(e: Env<L, U, B>, s: Sim<L, U, B>, pc: nat, r: Sim<L, U, B>, p: FePred)
    requires GoodCore(e, s.core)
  {
    var near, far := e.lookupU(s.u, pc).0, e.lookupB(s.b, pc).0;
    var o := if pc in s.core.smap then s.core.smap[pc] else NO_OBS;
    && Follows(s.core, r.core, p.flow, pc)
    && r.core.tables == (if pc in s.core.smap && e.trainTage
                         then TrainStill(e, s.core.tables, s.core.spec, Outcomes(o, ExecutedSlots(o))) else s.core.tables)
    && r.u == (if pc in s.core.smap && e.trainBtb then e.updateU(near, pc, o) else near)
    && r.b == (if pc in s.core.smap && e.trainBtb then e.updateB(far, pc, o) else far)
  }

  /** One block of the wrong path, and where the prediction leads on. */
  ghost predicate WrongStep<L, U, B>(e: Env<L, U, B>, s: Sim<L, U, B>, pc: nat, r: Sim<L, U, B>, next: nat)
    requires GoodEnv(e) && GoodCore(e, s.core)
  {
    exists p, x :: WrongByte(e, s, pc, r, p, x) && WrongTeaches(e, s, pc, r, p) && next == p.flow.next
  }

  lemma {:induction false} TrainsStill<L, U, B>(e: Env<L, U, B>, c: Core<L>, o: BlkObs, i: nat, n: nat)
    requires i <= n <= MAX_SLOTS
    ensures TrainFrom(e, c.(tables := TrainStill(e, c.tables, c.spec, Outcomes(o, i))), o, i, n)
            == c.(tables := TrainStill(e, c.tables, c.spec, Outcomes(o, n)))
    decreases n - i
  {
    if i < n {
      var sl := o.br[i];
      var xs, ys := Outcomes(o, i), Outcomes(o, i + 1);
      if sl.valid && sl.brType == BR_COND {
        assert ys[..|ys| - 1] == xs && ys[|ys| - 1] == Outcome(sl.pc, o.takenIdx == Some(i));
      } else {
        assert ys == xs;
      }
      TrainsStill(e, c, o, i + 1, n);
    }
  }

  lemma {:induction false} PushedSpec<L, U, B>(e: Env<L, U, B>, s: Spec)
    requires GoodFolds(e.folds) && |s.folds| == |e.folds|
    ensures PushSpec(e.folds, s, true).hist == PushHist(s.hist, true)
  {
  }

  /** The update along the predicted path, in and before the wrong path. */
  lemma {:induction false} SpeculateFollows<L, U, B>(e: Env<L, U, B>, s: Sim<L, U, B>, p: FePred, pc: nat)
    requires GoodEnv(e) && GoodCore(e, s.core) && (p.flow.taken <==> p.flow.idx.Some?)
    ensures Follows(s.core, Speculate(e, s.core, p, pc), p.flow, pc)
    ensures Speculate(e, s.core, p, pc).tables == s.core.tables
    ensures Departed(e, s, p, pc) == s.(core := Departed(e, s, p, pc).core)
    ensures Follows(s.core, Departed(e, s, p, pc).core, p.flow, pc)
  {
    hide Ras.Push; hide Ras.Pop; hide StackOf; hide Ras.BoundedPush; hide PushSpec;
    PushedSpec(e, s.core.spec);
    StackOps(s.core.ras, Ras.Ent(p.flow.fall, pc, true));
  }

  lemma {:induction false} WrongBlockTeaches<L, U, B>(e: Env<L, U, B>, s: Sim<L, U, B>, pc: nat)
    requires GoodEnv(e) && GoodCore(e, s.core)
    ensures WrongTeaches(e, s, pc, WrongBlock(e, s, pc).0, Predict(e, s, pc).1)
  {
    hide Predict; hide Predicts; hide Speculate; hide TrainFrom; hide TrainStill; hide Follows; hide Outcomes; hide Departed;
    var (s1, p) := Predict(e, s, pc);
    PredictionIs(e, s, pc);
    TakenHasSlot(e, s, pc, p);
    var known := pc in s.core.smap;
    var o := if known then s.core.smap[pc] else NO_OBS;
    var n := ExecutedSlots(o);
    assert LastSlot(o) == n;
    NoOutcomes(e, s.core, o);
    TrainsStill(e, s.core, o, 0, n);
    var c3 := if known && e.trainTage then TrainFrom(e, s.core, o, 0, n) else s.core;
    SpeculateFollows(e, s.(core := c3), p, pc);
    FollowsFrom(s.core, c3, Speculate(e, c3, p, pc), p.flow, pc);
  }

  lemma {:induction false} WrongBlockIs<L, U, B>(e: Env<L, U, B>, s: Sim<L, U, B>, pc: nat)
    requires GoodEnv(e) && GoodCore(e, s.core)
    ensures WrongStep(e, s, pc, WrongBlock(e, s, pc).0, WrongBlock(e, s, pc).1)
  {
    hide Predict; hide Predicts; hide Speculate; hide TrainFrom; hide WrongTeaches;
    var (s1, p) := Predict(e, s, pc);
    PredictionIs(e, s, pc);
    WrongBlockTeaches(e, s, pc);
    var way := KnownWay(s.core, e.blockBytes, pc);
    var x := FeByte(p.bubbles, p.ubtbHit, p.btbOverride, p.flow.taken == way.0, p.flow.next == way.1, true, false);
    assert ByteOf(e, s, pc, p, way.0, way.1, x);
    assert WrongByte(e, s, pc, WrongBlock(e, s, pc).0, p, x);
  }

  /** Following a flow does not look at the tables. */
  lemma {:induction false} FollowsFrom<L>(c: Core<L>, c': Core<L>, r: Core<L>, f: Flow, pc: nat)
    requires c' == c.(tables := c'.tables) && Follows(c', r, f, pc)
    ensures Follows(c, r, f, pc)
  {
    hide StackOf; hide Ras.BoundedPush;
  }

  lemma {:induction false} NoOutcomes<L, U, B>(e: Env<L, U, B>, c: Core<L>, o: BlkObs)
    ensures TrainStill(e, c.tables, c.spec, Outcomes(o, 0)) == c.tables
  {
  }

  /** Only a slot takes the flow away. */
  lemma {:induction false} TakenHasSlot<L, U, B>(e: Env<L, U, B>, s: Sim<L, U, B>, pc: nat, p: FePred)
    requires GoodEnv(e) && exists f1, f2 :: Predicts(e, s, pc, p, f1, f2)
    ensures p.flow.taken <==> p.flow.idx.Some?
  {
    hide Leaves; hide Top;
  }

  /** A walk of `|pcs| - 1` wrong-path blocks from the first address on. */
  ghost predicate Walk<L, U, B>(e: Env<L, U, B>, states: seq<Sim<L, U, B>>, pcs: seq<nat>)
    requires GoodEnv(e)
  {
    && |states| == |pcs| > 0
    && (forall i :: 0 <= i < |states| ==> GoodCore(e, states[i].core))
    && forall i :: 0 <= i < |pcs| - 1 ==> WrongStep(e, states[i], pcs[i], states[i + 1], pcs[i + 1])
  }

  lemma {:induction false} WrongPathWalks<L, U, B>(e: Env<L, U, B>, s: Sim<L, U, B>, pc: nat, d: nat)
      returns (states: seq<Sim<L, U, B>>, pcs: seq<nat>)
    requires GoodEnv(e) && GoodCore(e, s.core)
    ensures |states| == |pcs| == d + 1 && Walk(e, states, pcs)
    ensures states[0] == s && pcs[0] == pc && states[d] == WrongPath(e, s, pc, d)
    decreases d
  {
    hide WrongBlock; hide WrongStep; hide GoodCore;
    states, pcs := [s], [pc];
    if d > 0 {
      WrongBlockIs(e, s, pc);
      var (s1, next) := WrongBlock(e, s, pc);
      var ss, qs := WrongPathWalks(e, s1, next, d - 1);
      states, pcs := [s] + ss, [pc] + qs;
      forall i | 0 <= i < |pcs| - 1
        ensures WrongStep(e, states[i], pcs[i], states[i + 1], pcs[i + 1])
      {
        if i > 0 { assert states[i] == ss[i - 1] && pcs[i] == qs[i - 1]; }
      }
    }
  }

  // ---- one block of the trace ----

  /** The prediction of a block, its byte, and the state in which the wrong path is entered. */
  ghost predicate Announced<L, U, B>(e: Env<L, U, B>, s: Sim<L, U, B>, b: Blk, p: FePred, x: FeByte, q: Sim<L, U, B>)
    requires GoodEnv(e) && GoodObs(b.obs)
  {
    && ByteOf(e, s, b.pc, p, b.taken, TrueNext(s.core.ilen, b), x)
    && !x.wrongPath && (x.redirect <==> !(x.dirOk && x.tgtOk))
    && q.fe == s.fe + [x] && q.wp == s.wp
    && q.u == e.lookupU(s.u, b.pc).0 && q.b == e.lookupB(s.b, b.pc).0
    && q.core.tables == s.core.tables
    && (if x.redirect && e.depth > 0 then Follows(s.core, q.core, p.flow, b.pc) else q.core == s.core)
  }

  /** What the block then shows to the target buffers, `w` being the end of the wrong path. */
  ghost predicate Written<L, U, B>(e: Env<L, U, B>, s: Sim<L, U, B>, b: Blk, w: Sim<L, U, B>, r: Sim<L, U, B>) {
    var f := FixFallthru(s.core.ilen, b).obs;
    && r.fe == w.fe && r.wp == w.wp
    && r.u == e.updateU(w.u, b.pc, f) && r.b == e.updateB(w.b, b.pc, f)
    && f == b.obs.(fallthru := f.fallthru, fallthruValid := !b.taken && b.hasNext)
    && (!b.taken && b.hasNext ==> f.fallthru == b.nextPc)
  }

  /** Main theorem on one block.  It is predicted in the state before it, and its byte says so
      and asks for a redirect exactly if direction or address were wrong.  Only then the wrong
      path is walked: `depth` blocks from the predicted address on, entered with the predicted
      branch followed.  The target buffers end with what the block really did. */
  lemma {:induction false} BlockIs<L, U, B>(e: Env<L, U, B>, s: Sim<L, U, B>, b0: Blk)
      returns (p: FePred, x: FeByte, states: seq<Sim<L, U, B>>, pcs: seq<nat>)
    requires GoodEnv(e) && GoodCore(e, s.core) && GoodObs(b0.obs)
    ensures |states| == |pcs| == (if x.redirect then e.depth else 0) + 1
    ensures Announced(e, s, b0, p, x, states[0]) && Walk(e, states, pcs) && pcs[0] == p.flow.next
    ensures Written(e, s, b0, states[|states| - 1], RunBlock(e, s, b0))
  {
    hide Predict; hide Predicts; hide Resolve; hide ActualNext; hide WrongPath; hide Departed; hide TrueNext;
    hide FixFallthru; hide Walk; hide Follows; hide GoodCore;
    var b := FixFallthru(s.core.ilen, b0);
    FallThroughIs(s.core.ilen, b0);
    PredictionIs(e, s, b.pc);
    var (s2, p2, mis) := Announce(e, s, b);
    p := p2;
    TakenHasSlot(e, s, b.pc, p);
    x := FeByte(p.bubbles, p.ubtbHit, p.btbOverride, p.flow.taken == b.taken, p.flow.next == ActualNext(b), false, mis);
    assert ByteOf(e, s, b0.pc, p, b0.taken, TrueNext(s.core.ilen, b0), x);
    if mis && e.depth > 0 {
      SpeculateFollows(e, s2, p, b.pc);
      states, pcs := WrongPathWalks(e, Departed(e, s2, p, b.pc), p.flow.next, e.depth);
    } else {
      states, pcs := [s2], [p.flow.next];
      StandsStill(e, states, pcs);
    }
  }

  lemma {:induction false} StandsStill<L, U, B>(e: Env<L, U, B>, states: seq<Sim<L, U, B>>, pcs: seq<nat>)
    requires GoodEnv(e) && |states| == |pcs| == 1 && GoodCore(e, states[0].core)
    ensures Walk(e, states, pcs)
  {
  }

  /** The fall-through of a block: exact if it fell through and the trace gives the next
      address, else a guess and marked as one; and where the block really went. */
  lemma {:induction false} FallThroughIs(ilen: map<nat, nat>, b: Blk)
    requires GoodObs(b.obs)
    ensures var f := FixFallthru(ilen, b);
            && f == b.(obs := b.obs.(fallthru := f.obs.fallthru, fallthruValid := !b.taken && b.hasNext))
            && (!b.taken && b.hasNext ==> f.obs.fallthru == b.nextPc)
            && GoodObs(f.obs) && ActualNext(f) == TrueNext(ilen, b)
  {
  }
}
