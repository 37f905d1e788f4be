/** With the simulator's own target buffer and bimodal table: learned state is independent of
    the wrong-path depth exactly when the wrong path does not train. */
module FrontendWitness {
  import opened Options
  import opened FrontendSpec
  import opened FrontendDepth
  import opened History
  import T = TargetBuffer

  /** A simulator whose second-level buffer and direction table are those of the code; the
      first-level buffer, which only costs bubbles, and all settings are arbitrary. A fetch
      block is at least one instruction wide. */
  ghost predicate OfCode<U>(e: Env<T.Bimodal, U, T.Btb>) {
    && GoodEnv(e) && e.blockBytes >= 2
    && (forall l: T.Bimodal, s: Spec, pc: nat :: e.direction(l, s, pc) == T.Direction(l, pc))
    && (forall l: T.Bimodal, s: Spec, pc: nat, t: bool :: e.train(l, s, pc, t) == T.Train(l, pc, t))
    && (forall b: T.Btb, pc: nat :: e.lookupB(b, pc) == T.Lookup(b, pc))
    && (forall b: T.Btb, pc: nat, o: BlkObs :: T.ValidBtb(b) ==> e.updateB(b, pc, o) == T.Update(b, pc, o))
  }

  /** Nothing learned, nothing buffered, every counter weakly taken. */
  ghost predicate ColdStart<U>(e: Env<T.Bimodal, U, T.Btb>, s: Sim<T.Bimodal, U, T.Btb>) {
    && GoodCore(e, s.core) && s.core.smap == map[] && s.core.ilen == map[]
    && T.ValidBtb(s.b) && T.NothingHeld(s.b)
    && var l := s.core.tables;
       && |l.ctr| > 0 && l.thr >= 1 && l.max == 2 * l.thr - 1
       && forall i :: 0 <= i < |l.ctr| ==> l.ctr[i] == l.thr
  }

  /** One such simulator, freshly configured, without a first-level buffer. */
  function Configured(depth: nat, trainTage: bool, slots: nat): Env<T.Bimodal, bool, T.Btb> {
    Env((l: T.Bimodal, s: Spec, pc: nat) => T.Direction(l, pc),
        (l: T.Bimodal, s: Spec, pc: nat, t: bool) => T.Train(l, pc, t),
        (u: bool, pc: nat) => (u, None), (u: bool, pc: nat, o: BlkObs) => u,
        (b: T.Btb, pc: nat) => T.Lookup(b, pc),
        (b: T.Btb, pc: nat, o: BlkObs) => if T.ValidBtb(b) then T.Update(b, pc, o) else b,
        1, slots, 16, depth, Separate, false, trainTage, [], 4, true)
  }

  lemma {:induction false} ConfiguredIsOfCode(depth: nat, trainTage: bool, idxBits: nat, ways: nat, slots: nat,
                                              indexBits: nat, ctrBits: nat)
    requires ways >= 1 && 1 <= slots <= MAX_SLOTS && ctrBits >= 1
    ensures var e := Configured(depth, trainTage, slots);
      var c := Core(T.ColdBimodal(indexBits, ctrBits), Spec(Reset(), []), Ras.Init(16), map[], map[]);
      OfCode(e) && ColdStart(e, Sim(c, false, T.Cold(idxBits, ways, slots), [], []))
  {
    hide T.Lookup; hide T.Update; hide T.Direction; hide T.Train;
  }

  // ---- a block that ends in a jump back to the block before it ----

  const LEAP_PC: nat := 64

  /** The address fetched behind the block at `LEAP_PC` when nothing is predicted. */
  function ForkPc<U>(e: Env<T.Bimodal, U, T.Btb>): nat { LEAP_PC + e.blockBytes }

  /** A conditional branch that falls through, and a jump to the other block. */
  function Fork<U>(e: Env<T.Bimodal, U, T.Btb>): Blk {
    var pc := ForkPc(e);
    var o := BlkObs(2, [BrSlot(pc, pc + 64, BR_COND, true), BrSlot(pc + 4, LEAP_PC, BR_JAL, true), NO_SLOT, NO_SLOT],
                    Some(1), false, 0, false);
    Blk(pc, pc + 4, o, true, LEAP_PC, true, 4)
  }

  /** A jump over it. */
  function Leap<U>(e: Env<T.Bimodal, U, T.Btb>): Blk {
    var o := BlkObs(1, [BrSlot(LEAP_PC, ForkPc(e) + 64, BR_JAL, true), NO_SLOT, NO_SLOT, NO_SLOT], Some(0), false, 0, false);
    Blk(LEAP_PC, LEAP_PC, o, true, ForkPc(e) + 64, true, 4)
  }

  /** Every block starts where the one before it says. */
  predicate Linked(blocks: seq<Blk>) {
    forall i :: 0 <= i < |blocks| - 1 ==> blocks[i].hasNext && blocks[i].nextPc == blocks[i + 1].pc
  }

  lemma {:induction false} GoodOfCode<U>(e: Env<T.Bimodal, U, T.Btb>)
    requires OfCode(e)
    ensures GoodEnv(e) && Ticking(e, (l: T.Bimodal) => l.tick)
  {
  }

  // ---- the first pass ----

  /** With nothing known the wrong path reaches nothing and leaves the buffer as it is. */
  lemma {:induction false} NothingReached<U>(e: Env<T.Bimodal, U, T.Btb>, s: Sim<T.Bimodal, U, T.Btb>, pc: nat, d: nat)
    requires OfCode(e) && GoodCore(e, s.core) && s.core.smap == map[] && T.NothingHeld(s.b)
    ensures Reached(e, s, pc, d) == 0 && WrongPath(e, s, pc, d).b == s.b
    decreases d
  {
    hide OfCode; hide WrongBlock; hide T.NothingHeld;
    if d > 0 {
      GoodOfCode(e);
      UnknownBlock(e, s, pc);
      NothingReached(e, WrongBlock(e, s, pc).0, WrongBlock(e, s, pc).1, d - 1);
    }
  }

  lemma {:induction false} UnknownBlock<U>(e: Env<T.Bimodal, U, T.Btb>, s: Sim<T.Bimodal, U, T.Btb>, pc: nat)
    requires OfCode(e) && GoodCore(e, s.core) && s.core.smap == map[] && T.NothingHeld(s.b)
    ensures WrongBlock(e, s, pc).0.core.smap == map[] && WrongBlock(e, s, pc).0.b == s.b
  {
    hide Eval; hide Ras.Push; hide Ras.Pop; hide PushSpec; hide T.Lookup;
    T.NothingFound(s.b, pc);
  }

  /** What is known after the first block. */
  ghost predicate ForkKnown<U>(e: Env<T.Bimodal, U, T.Btb>, c: Core<T.Bimodal>, thr: nat) {
    && GoodCore(e, c)
    && c.smap == map[ForkPc(e) := MergeStatic(NO_OBS, FixFallthru(map[], Fork(e)).obs)]
    && |c.tables.ctr| > 0 && T.Counter(c.tables, ForkPc(e)) == thr - 1
  }

  /** The buffer does not hold the other block yet. */
  ghost predicate Forked<U>(e: Env<T.Bimodal, U, T.Btb>, s: Sim<T.Bimodal, U, T.Btb>, thr: nat) {
    ForkKnown(e, s.core, thr) && T.Lookup(s.b, LEAP_PC).1 == None
  }

  lemma {:induction false} FirstPass<U>(e: Env<T.Bimodal, U, T.Btb>, s: Sim<T.Bimodal, U, T.Btb>)
    requires OfCode(e) && ColdStart(e, s) && (e.trainTage || e.depth == 0)
    ensures Forked(e, RunBlock(e, s, Fork(e)), s.core.tables.thr)
  {
    hide OfCode; hide Ticking; hide T.Lookup; hide T.ValidBtb; hide T.NothingHeld; hide Learn; hide Announce; hide Departed; hide Resolve;
    hide MergeStatic; hide T.Update;
    GoodOfCode(e);
    var b := FixFallthru(s.core.ilen, Fork(e));
    var (s2, p, mis) := Announce(e, s, b);
    AnnounceBuffer(e, s, b);
    if mis && e.depth > 0 {
      NothingReached(e, Departed(e, s2, p, b.pc), p.flow.next, e.depth);
    }
    if e.trainTage {
      BlockTicks(e, (l: T.Bimodal) => l.tick, s, Fork(e));
    } else {
      ShallowBlock(e, s, Fork(e));
    }
    LearnFork(e, s.core);
    WrittenOnly(e, s.b, b.pc, b.obs);
  }

  lemma {:induction false} AnnounceBuffer<U>(e: Env<T.Bimodal, U, T.Btb>, s: Sim<T.Bimodal, U, T.Btb>, b: Blk)
    requires OfCode(e) && GoodObs(b.obs) && T.NothingHeld(s.b)
    ensures Announce(e, s, b).0.b == s.b
  {
    hide Eval; hide T.Lookup; hide T.NothingHeld; hide ActualNext;
    T.NothingFound(s.b, b.pc);
  }

  lemma {:induction false} WrittenOnly<U>(e: Env<T.Bimodal, U, T.Btb>, b: T.Btb, pc: nat, o: BlkObs)
    requires OfCode(e) && T.ValidBtb(b) && T.NothingHeld(b) && pc == ForkPc(e)
    ensures T.Lookup(e.updateB(b, pc, o), LEAP_PC).1 == None
  {
    hide T.Lookup; hide T.Update; hide T.NothingHeld; hide T.ValidBtb;
    T.OtherNotFound(b, pc, o, LEAP_PC);
  }

  /** The counter of the branch goes down by one. */
  lemma {:induction false} LearnFork<U>(e: Env<T.Bimodal, U, T.Btb>, c: Core<T.Bimodal>)
    requires OfCode(e) && GoodCore(e, c) && c.smap == map[] && c.ilen == map[]
    requires T.Counter(c.tables, ForkPc(e)) == c.tables.thr >= 1 && |c.tables.ctr| > 0
    ensures var r := Learn(e, c, Fork(e));
      && r.smap == map[ForkPc(e) := MergeStatic(NO_OBS, FixFallthru(map[], Fork(e)).obs)]
      && |r.tables.ctr| > 0 && T.Counter(r.tables, ForkPc(e)) == c.tables.thr - 1
  {
    hide PushSpec; hide MergeStatic; hide T.Counter; hide T.Train;
    var b := FixFallthru(c.ilen, Fork(e));
    var c1 := ResolveSlot(e, c, b, 0);
    var c2 := ResolveSlot(e, c1, b, 1);
    assert ResolveSlots(e, c2, b, 2, 2) == c2;
    assert ResolveSlots(e, c1, b, 1, 2) == c2;
    T.TrainedDown(c.tables, ForkPc(e));
  }

  // ---- the second pass ----

  /** No known block trains a branch taken. */
  ghost predicate Falling(c: Core<T.Bimodal>) {
    forall pc, i :: pc in c.smap && 0 <= i < MAX_SLOTS && c.smap[pc].br[i].valid && c.smap[pc].br[i].brType == BR_COND
      ==> c.smap[pc].takenIdx != Some(i)
  }

  lemma {:induction false} TrainFalls<U>(e: Env<T.Bimodal, U, T.Btb>, c: Core<T.Bimodal>, o: BlkObs, i: nat, n: nat)
    requires OfCode(e) && n <= MAX_SLOTS
    requires forall k :: 0 <= k < MAX_SLOTS && o.br[k].valid && o.br[k].brType == BR_COND ==> o.takenIdx != Some(k)
    ensures T.AtMost(TrainFrom(e, c, o, i, n).tables, c.tables)
    decreases n - i
  {
    hide T.Train;
    if i < n {
      var sl := o.br[i];
      var c1 := if sl.valid && sl.brType == BR_COND
                then c.(tables := e.train(c.tables, c.spec, sl.pc, o.takenIdx == Some(i))) else c;
      T.TrainedDown(c.tables, sl.pc);
      TrainFalls(e, c1, o, i + 1, n);
    }
  }

  lemma {:induction false} BlockFalls<U>(e: Env<T.Bimodal, U, T.Btb>, s: Sim<T.Bimodal, U, T.Btb>, pc: nat)
    requires OfCode(e) && GoodCore(e, s.core) && Falling(s.core)
    ensures var c := WrongBlock(e, s, pc).0.core;
      c.smap == s.core.smap && T.AtMost(c.tables, s.core.tables)
  {
    hide OfCode; hide Eval; hide Ras.Push; hide Ras.Pop; hide PushSpec; hide TrainFrom;
    if pc in s.core.smap {
      var o := s.core.smap[pc];
      TrainFalls(e, s.core, o, 0, LastSlot(o));
      TrainKeepsRest(e, s.core, o, 0, LastSlot(o));
    }
  }

  lemma {:induction false} PathFalls<U>(e: Env<T.Bimodal, U, T.Btb>, s: Sim<T.Bimodal, U, T.Btb>, pc: nat, d: nat)
    requires OfCode(e) && GoodCore(e, s.core) && Falling(s.core)
    ensures GoodEnv(e) && T.AtMost(WrongPath(e, s, pc, d).core.tables, s.core.tables)
    decreases d
  {
    hide OfCode; hide WrongBlock; hide Falling;
    GoodOfCode(e);
    if d > 0 {
      BlockFalls(e, s, pc);
      SameFalling(s.core, WrongBlock(e, s, pc).0.core);
      PathFalls(e, WrongBlock(e, s, pc).0, WrongBlock(e, s, pc).1, d - 1);
    }
  }

  lemma {:induction false} SameFalling(c: Core<T.Bimodal>, c': Core<T.Bimodal>)
    requires Falling(c) && c'.smap == c.smap
    ensures Falling(c')
  {
  }

  /** A wrong path that starts at the fork lowers its counter. */
  lemma {:induction false} ForkFalls<U>(e: Env<T.Bimodal, U, T.Btb>, s: Sim<T.Bimodal, U, T.Btb>, thr: nat, d: nat)
    requires OfCode(e) && e.trainTage && ForkKnown(e, s.core, thr) && thr >= 2 && d >= 1
    ensures GoodEnv(e) && T.Counter(WrongPath(e, s, ForkPc(e), d).core.tables, ForkPc(e)) <= thr - 2
  {
    hide OfCode; hide WrongBlock; hide Falling; hide T.Counter; hide T.AtMost;
    GoodOfCode(e);
    var (s1, next) := WrongBlock(e, s, ForkPc(e));
    ForkTrained(e, s, thr);
    PathFalls(e, s1, next, d - 1);
    T.CounterAtMost(WrongPath(e, s1, next, d - 1).core.tables, s1.core.tables, ForkPc(e));
  }

  lemma {:induction false} ForkTrained<U>(e: Env<T.Bimodal, U, T.Btb>, s: Sim<T.Bimodal, U, T.Btb>, thr: nat)
    requires OfCode(e) && e.trainTage && ForkKnown(e, s.core, thr) && thr >= 2
    ensures var c := WrongBlock(e, s, ForkPc(e)).0.core;
      c.smap == s.core.smap && Falling(c) && T.Counter(c.tables, ForkPc(e)) == thr - 2
  {
    hide Eval; hide Ras.Push; hide Ras.Pop; hide PushSpec; hide T.Counter; hide T.Train; hide T.Lookup; hide T.Update;
    var o := s.core.smap[ForkPc(e)];
    T.TrainedDown(s.core.tables, ForkPc(e));
    var c1 := s.core.(tables := T.Train(s.core.tables, ForkPc(e), false));
    assert TrainFrom(e, c1, o, 2, 2) == c1;
    assert TrainFrom(e, c1, o, 1, 2) == c1;
    assert TrainFrom(e, s.core, o, 0, 2) == c1;
  }

  /** The jump is not in the buffer, so fetch runs on into the fork. */
  lemma {:induction false} LeapMissed<U>(e: Env<T.Bimodal, U, T.Btb>, s: Sim<T.Bimodal, U, T.Btb>, thr: nat)
    requires OfCode(e) && Forked(e, s, thr)
    ensures var b := FixFallthru(s.core.ilen, Leap(e));
      var (s2, p, mis) := Announce(e, s, b);
      mis && p.flow.next == ForkPc(e) && Departed(e, s2, p, b.pc) == s2 && s2.core == s.core
  {
    hide T.Lookup; hide Ras.Push; hide Ras.Pop; hide PushSpec;
  }

  lemma {:induction false} LeapTeachesNothing<U>(e: Env<T.Bimodal, U, T.Btb>, c: Core<T.Bimodal>, ilen: map<nat, nat>)
    requires GoodEnv(e) && GoodCore(e, c)
    ensures var b := FixFallthru(ilen, Leap(e)); Resolve(e, c, b).tables == c.tables
  {
    hide MergeStatic; hide PushSpec;
    var b := FixFallthru(ilen, Leap(e));
    assert ResolveSlots(e, c, b, 1, 1) == c;
  }

  lemma {:induction false} SecondPass<U>(e: Env<T.Bimodal, U, T.Btb>, s: Sim<T.Bimodal, U, T.Btb>, thr: nat)
    requires OfCode(e) && Forked(e, s, thr) && thr >= 2 && (e.trainTage || e.depth == 0)
    ensures GoodEnv(e) && GoodCore(e, s.core)
    ensures var n := T.Counter(RunBlock(e, s, Leap(e)).core.tables, ForkPc(e));
      if e.depth == 0 then n == thr - 1 else n <= thr - 2
  {
    hide OfCode; hide Announce; hide Departed; hide WrongPath; hide Resolve; hide T.Counter; hide T.Lookup; hide MergeStatic;
    GoodOfCode(e);
    LeapMissed(e, s, thr);
    var b := FixFallthru(s.core.ilen, Leap(e));
    var (s2, p, mis) := Announce(e, s, b);
    if e.depth > 0 {
      ForkFalls(e, s2, thr, e.depth);
      LeapTeachesNothing(e, Speculation(e, s2, p, b.pc).core, s.core.ilen);
    } else {
      LeapTeachesNothing(e, s2.core, s.core.ilen);
    }
  }

  lemma {:induction false} TwoPasses<U>(e: Env<T.Bimodal, U, T.Btb>, s: Sim<T.Bimodal, U, T.Btb>)
    requires OfCode(e) && ColdStart(e, s) && s.core.tables.thr >= 2 && (e.trainTage || e.depth == 0)
    ensures GoodEnv(e) && GoodCore(e, s.core)
    ensures var n := T.Counter(Run(e, s, [Fork(e), Leap(e)]).core.tables, ForkPc(e));
      if e.depth == 0 then n == s.core.tables.thr - 1 else n <= s.core.tables.thr - 2
  {
    hide OfCode; hide RunBlock; hide Forked; hide T.Counter; hide ColdStart; hide Fork; hide Leap;
    GoodOfCode(e);
    ColdIsGood(e, s);
    GoodBlocks(e);
    FirstPass(e, s);
    SecondPass(e, RunBlock(e, s, Fork(e)), s.core.tables.thr);
    var two, one := [Fork(e), Leap(e)], [Fork(e)];
    assert two[..1] == one && one[..0] == [];
    assert Run(e, s, one[..0]) == s;
    assert Run(e, s, one) == RunBlock(e, s, Fork(e));
  }

  lemma {:induction false} ColdIsGood<U>(e: Env<T.Bimodal, U, T.Btb>, s: Sim<T.Bimodal, U, T.Btb>)
    requires ColdStart(e, s)
    ensures GoodCore(e, s.core)
  {
  }

  lemma {:induction false} GoodBlocks<U>(e: Env<T.Bimodal, U, T.Btb>)
    ensures GoodTrace([Fork(e), Leap(e)]) && Linked([Fork(e), Leap(e)])
    ensures GoodObs(Fork(e).obs) && GoodObs(Leap(e).obs)
  {
  }

  lemma {:induction false} ShallowOfCode<U>(e: Env<T.Bimodal, U, T.Btb>, s: Sim<T.Bimodal, U, T.Btb>)
    requires OfCode(e) && ColdStart(e, s)
    ensures var e0 := e.(depth := 0); OfCode(e0) && ColdStart(e0, s) && Fork(e0) == Fork(e) && Leap(e0) == Leap(e)
  {
  }

  /** With the code's own predictors, every buffer geometry, counters of two or more bits,
      every first-level buffer and every depth of at least one: depth makes no difference to
      the direction counters on any trace of blocks that follow each other if and only if
      the wrong path does not train. Without training it makes none to anything learned. */
  lemma {:induction false} IndependenceNeedsTrainingOff<U>(e: Env<T.Bimodal, U, T.Btb>, s: Sim<T.Bimodal, U, T.Btb>)
    requires OfCode(e) && e.depth >= 1 && ColdStart(e, s) && s.core.tables.thr >= 2
    ensures var e0 := e.(depth := 0);
      && GoodEnv(e) && GoodEnv(e0) && GoodCore(e0, s.core)
      && ((forall blocks :: GoodTrace(blocks) && Linked(blocks) ==>
             Run(e, s, blocks).core.tables.ctr == Run(e0, s, blocks).core.tables.ctr) <==> !e.trainTage)
      && (!e.trainTage ==> forall blocks :: GoodTrace(blocks) ==> Run(e, s, blocks).core == Run(e0, s, blocks).core)
  {
    hide Run; hide LearnAll; hide OfCode; hide ColdStart; hide Linked; hide Fork; hide Leap;
    GoodOfCode(e);
    ColdIsGood(e, s);
    var e0 := e.(depth := 0);
    if e.trainTage {
      ShallowOfCode(e, s);
      TwoPasses(e, s);
      TwoPasses(e0, s);
      GoodBlocks(e);
      var blocks := [Fork(e), Leap(e)];
      assert GoodTrace(blocks) && Linked(blocks);
    } else {
      forall blocks | GoodTrace(blocks)
        ensures Run(e, s, blocks).core == Run(e0, s, blocks).core
      {
        RunLearnsAll(e, s, blocks);
        RunLearnsAll(e0, s, blocks);
        LearnAllSame(e, e0, s.core, blocks);
      }
    }
  }
}
