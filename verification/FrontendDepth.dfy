/** Wrong-path training of the front-end simulator: when exactly what a trace teaches depends
    on how deep the wrong path is followed. */
module FrontendDepth {
  import opened Options
  import opened FrontendSpec
  import opened FrontendProofs

  /** Every training moves a count of the tables, as the update tick of TAGE does. */
  ghost predicate Ticking<L(!new), U, B>(e: Env<L, U, B>, tick: L -> int) {
    forall l, s, pc, t :: tick(e.train(l, s, pc, t)) == tick(l) + 1
  }

  /** The conditional branches among slots i to n of a block. */
  function Conds(o: BlkObs, i: nat, n: nat): nat
    requires n <= MAX_SLOTS
    decreases n - i
  {
    if i >= n then 0 else (if o.br[i].valid && o.br[i].brType == BR_COND then 1 else 0) + Conds(o, i + 1, n)
  }

  /** The executed conditional branches of a block. */
  function Executed(o: BlkObs): nat
    requires GoodObs(o)
  {
    Conds(o, 0, LastSlot(o))
  }

  // ---- what the wrong path reaches ----

  /** Conditional branches of known blocks on `d` blocks of wrong path from `pc`. */
  function Reached<L, U, B>(e: Env<L, U, B>, s: Sim<L, U, B>, pc: nat, d: nat): nat
    requires GoodEnv(e) && GoodCore(e, s.core)
    decreases d
  {
    if d == 0 then 0
    else
      var (s1, next) := WrongBlock(e, s, pc);
      (if pc in s.core.smap then Executed(s.core.smap[pc]) else 0) + Reached(e, s1, next, d - 1)
  }

  /** The same for the wrong path, if any, behind one block of the trace. */
  function ReachedBehind<L, U, B>(e: Env<L, U, B>, s: Sim<L, U, B>, b0: Blk): nat
    requires GoodEnv(e) && GoodCore(e, s.core) && GoodObs(b0.obs)
  {
    var b := FixFallthru(s.core.ilen, b0);
    var (s2, p, mis) := Announce(e, s, b);
    if mis && e.depth > 0 then Reached(e, Departed(e, s2, p, b.pc), p.flow.next, e.depth) else 0
  }

  ghost predicate GoodTrace(blocks: seq<Blk>) { forall i :: 0 <= i < |blocks| ==> GoodObs(blocks[i].obs) }

  /** The same over a whole trace. */
  function ReachedIn<L, U, B>(e: Env<L, U, B>, s: Sim<L, U, B>, blocks: seq<Blk>): nat
    requires GoodEnv(e) && GoodCore(e, s.core) && forall i :: 0 <= i < |blocks| ==> GoodObs(blocks[i].obs)
  {
    if blocks == [] then 0
    else
      var p := blocks[..|blocks| - 1];
      ReachedIn(e, s, p) + ReachedBehind(e, Run(e, s, p), blocks[|blocks| - 1])
  }

  // ---- what the trace alone teaches ----

  function LearnAll<L, U, B>(e: Env<L, U, B>, c: Core<L>, blocks: seq<Blk>): (r: Core<L>)
    requires GoodEnv(e) && GoodCore(e, c) && forall i :: 0 <= i < |blocks| ==> GoodObs(blocks[i].obs)
    ensures GoodCore(e, r)
  {
    if blocks == [] then c else Learn(e, LearnAll(e, c, blocks[..|blocks| - 1]), blocks[|blocks| - 1])
  }

  function ExecutedIn(blocks: seq<Blk>): nat
    requires forall i :: 0 <= i < |blocks| ==> GoodObs(blocks[i].obs)
  {
    if blocks == [] then 0 else ExecutedIn(blocks[..|blocks| - 1]) + Executed(blocks[|blocks| - 1].obs)
  }

  // ---- counting trainings ----

  lemma {:induction false} TrainTicks<L(!new), U, B>(e: Env<L, U, B>, tick: L -> int, c: Core<L>, o: BlkObs, i: nat, n: nat)
    requires Ticking(e, tick) && n <= MAX_SLOTS
    ensures tick(TrainFrom(e, c, o, i, n).tables) == tick(c.tables) + Conds(o, i, n)
    ensures Conds(o, i, n) == 0 ==> TrainFrom(e, c, o, i, n) == c
    decreases n - i
  {
    if i < n {
      var sl := o.br[i];
      var c1 := if sl.valid && sl.brType == BR_COND
                then c.(tables := e.train(c.tables, c.spec, sl.pc, o.takenIdx == Some(i))) else c;
      TrainTicks(e, tick, c1, o, i + 1, n);
    }
  }

  lemma {:induction false} WrongBlockTicks<L(!new), U, B>(e: Env<L, U, B>, tick: L -> int, s: Sim<L, U, B>, pc: nat)
    requires GoodEnv(e) && GoodCore(e, s.core) && Ticking(e, tick) && e.trainTage
    ensures var c := WrongBlock(e, s, pc).0.core; var n := if pc in s.core.smap then Executed(s.core.smap[pc]) else 0;
      && c.ilen == s.core.ilen && c.smap == s.core.smap
      && tick(c.tables) == tick(s.core.tables) + n
      && (n == 0 ==> c.tables == s.core.tables)
  {
    hide Eval; hide Ticking; hide Ras.Push; hide Ras.Pop; hide PushSpec;
    if pc in s.core.smap {
      var o := s.core.smap[pc];
      TrainTicks(e, tick, s.core, o, 0, LastSlot(o));
      TrainKeepsRest(e, s.core, o, 0, LastSlot(o));
    }
  }

  lemma {:induction false} WrongPathTicks<L(!new), U, B>(e: Env<L, U, B>, tick: L -> int, s: Sim<L, U, B>, pc: nat, d: nat)
    requires GoodEnv(e) && GoodCore(e, s.core) && Ticking(e, tick) && e.trainTage
    ensures var c := WrongPath(e, s, pc, d).core;
      && c.ilen == s.core.ilen && c.smap == s.core.smap
      && tick(c.tables) == tick(s.core.tables) + Reached(e, s, pc, d)
      && (Reached(e, s, pc, d) == 0 ==> c.tables == s.core.tables)
    decreases d
  {
    hide WrongBlock; hide Ticking; hide Executed;
    if d > 0 {
      WrongBlockTicks(e, tick, s, pc);
      WrongPathTicks(e, tick, WrongBlock(e, s, pc).0, WrongBlock(e, s, pc).1, d - 1);
    }
  }

  lemma {:induction false} SlotsTick<L(!new), U, B>(e: Env<L, U, B>, tick: L -> int, c: Core<L>, b: Blk, i: nat, n: nat)
    requires GoodEnv(e) && GoodCore(e, c) && GoodObs(b.obs) && n <= MAX_SLOTS && Ticking(e, tick)
    ensures tick(ResolveSlots(e, c, b, i, n).tables) == tick(c.tables) + Conds(b.obs, i, n)
    decreases n - i
  {
    hide PushSpec; hide Ras.Push; hide Ras.Pop; hide ActualNext;
    if i < n { SlotsTick(e, tick, ResolveSlot(e, c, b, i), b, i + 1, n); }
  }

  lemma {:induction false} LearnTicks<L(!new), U, B>(e: Env<L, U, B>, tick: L -> int, c: Core<L>, b: Blk)
    requires GoodEnv(e) && GoodCore(e, c) && GoodObs(b.obs) && Ticking(e, tick)
    ensures tick(Learn(e, c, b).tables) == tick(c.tables) + Executed(b.obs)
  {
    ResolveTicks(e, tick, c, FixFallthru(c.ilen, b));
    SameConds(b.obs, FixFallthru(c.ilen, b).obs, 0, LastSlot(b.obs));
  }

  lemma {:induction false} SameConds(o: BlkObs, o': BlkObs, i: nat, n: nat)
    requires o.br == o'.br && n <= MAX_SLOTS
    ensures Conds(o, i, n) == Conds(o', i, n)
    decreases n - i
  {
    if i < n { SameConds(o, o', i + 1, n); }
  }

  lemma {:induction false} ResolveTicks<L(!new), U, B>(e: Env<L, U, B>, tick: L -> int, c: Core<L>, b: Blk)
    requires GoodEnv(e) && GoodCore(e, c) && GoodObs(b.obs) && Ticking(e, tick)
    ensures tick(Resolve(e, c, b).tables) == tick(c.tables) + Executed(b.obs)
  {
    hide ResolveSlots; hide Ticking; hide MergeStatic; hide Conds;
    var ilen := if b.obs.nBr > 0 && !b.taken && b.hasNext && b.nextPc > b.lastPc && b.nextPc - b.lastPc <= 8
                then c.ilen[b.lastPc := b.nextPc - b.lastPc] else c.ilen;
    SlotsTick(e, tick, c.(ilen := ilen), b, 0, LastSlot(b.obs));
  }

  /** One block: the tables tick once for each executed conditional branch, and once for each
      one the wrong path behind it reaches; if it reaches none, the trace alone has taught. */
  lemma {:induction false} BlockTicks<L(!new), U, B>(e: Env<L, U, B>, tick: L -> int, s: Sim<L, U, B>, b0: Blk)
    requires GoodEnv(e) && GoodCore(e, s.core) && GoodObs(b0.obs) && Ticking(e, tick) && e.trainTage
    ensures tick(RunBlock(e, s, b0).core.tables)
            == tick(s.core.tables) + Executed(b0.obs) + ReachedBehind(e, s, b0)
    ensures ReachedBehind(e, s, b0) == 0 ==> RunBlock(e, s, b0).core == Learn(e, s.core, b0)
  {
    hide Announce; hide Departed; hide WrongPath; hide Reached; hide Resolve; hide Ticking; hide Conds;
    var b := FixFallthru(s.core.ilen, b0);
    var (s2, p, mis) := Announce(e, s, b);
    SameConds(b0.obs, b.obs, 0, LastSlot(b.obs));
    if mis && e.depth > 0 {
      WrongPathTicks(e, tick, Departed(e, s2, p, b.pc), p.flow.next, e.depth);
      ResolveTicks(e, tick, Speculation(e, s2, p, b.pc).core, b);
    } else {
      ResolveTicks(e, tick, s2.core, b);
    }
  }

  lemma {:induction false} RunTicks<L(!new), U, B>(e: Env<L, U, B>, tick: L -> int, s: Sim<L, U, B>, blocks: seq<Blk>)
    requires GoodEnv(e) && GoodCore(e, s.core) && GoodTrace(blocks) && Ticking(e, tick) && e.trainTage
    ensures tick(Run(e, s, blocks).core.tables)
            == tick(s.core.tables) + ExecutedIn(blocks) + ReachedIn(e, s, blocks)
    ensures ReachedIn(e, s, blocks) == 0 ==> Run(e, s, blocks).core == LearnAll(e, s.core, blocks)
    decreases |blocks|
  {
    hide RunBlock; hide ReachedBehind; hide Ticking; hide Executed; hide Learn;
    if blocks != [] {
      var p := blocks[..|blocks| - 1];
      RunTicks(e, tick, s, p);
      BlockTicks(e, tick, Run(e, s, p), blocks[|blocks| - 1]);
    }
  }

  lemma {:induction false} LearnAllTicks<L(!new), U, B>(e: Env<L, U, B>, tick: L -> int, c: Core<L>, blocks: seq<Blk>)
    requires GoodEnv(e) && GoodCore(e, c) && GoodTrace(blocks) && Ticking(e, tick)
    ensures tick(LearnAll(e, c, blocks).tables) == tick(c.tables) + ExecutedIn(blocks)
    decreases |blocks|
  {
    hide Ticking; hide Executed; hide Learn;
    if blocks != [] {
      var p := blocks[..|blocks| - 1];
      LearnAllTicks(e, tick, c, p);
      LearnTicks(e, tick, LearnAll(e, c, p), blocks[|blocks| - 1]);
    }
  }

  /** Without wrong path, or without training on it, a run learns what the trace teaches. */
  lemma {:induction false} RunLearnsAll<L, U, B>(e: Env<L, U, B>, s: Sim<L, U, B>, blocks: seq<Blk>)
    requires GoodEnv(e) && GoodCore(e, s.core) && forall i :: 0 <= i < |blocks| ==> GoodObs(blocks[i].obs)
    requires e.depth == 0 || !e.trainTage
    ensures Run(e, s, blocks).core == LearnAll(e, s.core, blocks)
    decreases |blocks|
  {
    hide RunBlock; hide Learn;
    if blocks != [] {
      var p, b := blocks[..|blocks| - 1], blocks[|blocks| - 1];
      RunLearnsAll(e, s, p);
      if e.depth == 0 { ShallowBlock(e, Run(e, s, p), b); } else { BlockLearnsFromTraceOnly(e, Run(e, s, p), b); }
    }
  }

  lemma {:induction false} ShallowBlock<L, U, B>(e: Env<L, U, B>, s: Sim<L, U, B>, b: Blk)
    requires GoodEnv(e) && GoodCore(e, s.core) && GoodObs(b.obs) && e.depth == 0
    ensures RunBlock(e, s, b).core == Learn(e, s.core, b)
  {
    hide Announce; hide Resolve;
  }

  /** When wrong-path training is on: for every trace, settings and buffers, a run at any
      depth ends with what a run at depth 0 learns if and only if no wrong-path block it ever
      follows is a known block with an executed conditional branch. */
  lemma {:induction false} DepthMattersIffReached<L(!new), U, B>(
      e: Env<L, U, B>, tick: L -> int, s: Sim<L, U, B>, blocks: seq<Blk>)
    requires GoodEnv(e) && GoodCore(e, s.core) && GoodTrace(blocks) && Ticking(e, tick) && e.trainTage
    ensures var e0 := e.(depth := 0);
      && GoodEnv(e0) && GoodCore(e0, s.core)
      && (Run(e, s, blocks).core == Run(e0, s, blocks).core <==> ReachedIn(e, s, blocks) == 0)
  {
    hide Run; hide LearnAll; hide ReachedIn;
    var e0 := e.(depth := 0);
    RunLearnsAll(e0, s, blocks);
    LearnAllSame(e, e0, s.core, blocks);
    RunTicks(e, tick, s, blocks);
    LearnAllTicks(e, tick, s.core, blocks);
  }

  /** What a trace teaches does not depend on the depth. */
  lemma {:induction false} LearnAllSame<L, U, B>(e: Env<L, U, B>, e0: Env<L, U, B>, c: Core<L>, blocks: seq<Blk>)
    requires GoodEnv(e) && GoodEnv(e0) && GoodCore(e, c) && GoodCore(e0, c) && SameTage(e, e0)
    requires forall i :: 0 <= i < |blocks| ==> GoodObs(blocks[i].obs)
    ensures LearnAll(e, c, blocks) == LearnAll(e0, c, blocks)
    decreases |blocks|
  {
    hide Learn;
    if blocks != [] {
      var p := blocks[..|blocks| - 1];
      LearnAllSame(e, e0, c, p);
      LearnSame(e, e0, LearnAll(e, c, p), blocks[|blocks| - 1]);
    }
  }
}
