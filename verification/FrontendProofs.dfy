/** Two-run non-interference of the front-end simulator, and the sizes of its overlays. */
module FrontendProofs {
  import opened Options
  import opened FrontendSpec
  import opened History

  // ---- the wrong path leaves the learned state alone ----

  /** Same tables, lengths and block map; history and return stack may have moved. */
  predicate SameLearned<L(==)>(a: Core<L>, b: Core<L>) {
    a.tables == b.tables && a.ilen == b.ilen && a.smap == b.smap
  }

  lemma {:induction false} WrongBlockKeeps<L, U, B>(e: Env<L, U, B>, s: Sim<L, U, B>, pc: nat)
    requires GoodEnv(e) && GoodCore(e, s.core) && !e.trainTage
    ensures SameLearned(WrongBlock(e, s, pc).0.core, s.core)
  {
    hide Eval; hide Ras.Push; hide Ras.Pop; hide PushSpec;
  }

  lemma {:induction false} WrongPathKeeps<L, U, B>(e: Env<L, U, B>, s: Sim<L, U, B>, pc: nat, d: nat)
    requires GoodEnv(e) && GoodCore(e, s.core) && !e.trainTage
    ensures SameLearned(WrongPath(e, s, pc, d).core, s.core)
    decreases d
  {
    hide WrongBlock;
    if d > 0 {
      WrongBlockKeeps(e, s, pc);
      WrongPathKeeps(e, WrongBlock(e, s, pc).0, WrongBlock(e, s, pc).1, d - 1);
    }
  }

  /** Speculation is undone exactly: tables, history, folded registers, return stack,
      learned lengths and block map are what they were. */
  lemma {:induction false} SpeculationIsUndone<L, U, B>(e: Env<L, U, B>, s: Sim<L, U, B>, p: FePred, pc: nat)
    requires GoodEnv(e) && GoodCore(e, s.core) && !e.trainTage
    ensures Speculation(e, s, p, pc).core == s.core
  {
    hide WrongPath; hide Departed;
    WrongPathKeeps(e, Departed(e, s, p, pc), p.flow.next, e.depth);
  }

  /** After a block the learned state is a function of the learned state before and the
      block, whatever was predicted and however deep the wrong path went. */
  lemma {:induction false} BlockLearnsFromTraceOnly<L, U, B>(e: Env<L, U, B>, s: Sim<L, U, B>, b: Blk)
    requires GoodEnv(e) && GoodCore(e, s.core) && GoodObs(b.obs) && !e.trainTage
    ensures RunBlock(e, s, b).core == Learn(e, s.core, b)
  {
    hide Announce; hide Speculation; hide Resolve;
    var b1 := FixFallthru(s.core.ilen, b);
    var (s2, p, mis) := Announce(e, s, b1);
    SpeculationIsUndone(e, s2, p, b1.pc);
  }

  // ---- two simulators ----

  /** Simulators that agree on the direction tables, the history geometry and the
      return-stack settings; their buffers, depth, output mode and BTB training are free. */
  ghost predicate SameTage<L, U1, B1, U2, B2>(e1: Env<L, U1, B1>, e2: Env<L, U2, B2>) {
    && e1.train == e2.train && e1.folds == e2.folds
    && e1.ilenBytes == e2.ilenBytes && e1.learnCallLen == e2.learnCallLen
  }

  lemma {:induction false} ResolveSlotSame<L, U1, B1, U2, B2>(e1: Env<L, U1, B1>, e2: Env<L, U2, B2>, c: Core<L>, b: Blk, i: nat)
    requires SameTage(e1, e2) && GoodEnv(e1) && GoodEnv(e2) && GoodCore(e1, c) && GoodCore(e2, c)
    requires GoodObs(b.obs) && i < MAX_SLOTS
    ensures ResolveSlot(e1, c, b, i) == ResolveSlot(e2, c, b, i)
  {
  }

  lemma {:induction false} ResolveSlotsSame<L, U1, B1, U2, B2>(
      e1: Env<L, U1, B1>, e2: Env<L, U2, B2>, c: Core<L>, b: Blk, i: nat, n: nat)
    requires SameTage(e1, e2) && GoodEnv(e1) && GoodEnv(e2) && GoodCore(e1, c) && GoodCore(e2, c)
    requires GoodObs(b.obs) && n <= MAX_SLOTS
    ensures ResolveSlots(e1, c, b, i, n) == ResolveSlots(e2, c, b, i, n)
    decreases n - i
  {
    hide ResolveSlot;
    if i < n {
      ResolveSlotSame(e1, e2, c, b, i);
      ResolveSlotsSame(e1, e2, ResolveSlot(e1, c, b, i), b, i + 1, n);
    }
  }

  lemma {:induction false} LearnSame<L, U1, B1, U2, B2>(e1: Env<L, U1, B1>, e2: Env<L, U2, B2>, c: Core<L>, b0: Blk)
    requires SameTage(e1, e2) && GoodEnv(e1) && GoodEnv(e2) && GoodCore(e1, c) && GoodCore(e2, c) && GoodObs(b0.obs)
    ensures Learn(e1, c, b0) == Learn(e2, c, b0)
  {
    hide ResolveSlots; hide MergeStatic;
    var b := FixFallthru(c.ilen, b0);
    var ilen := if b.obs.nBr > 0 && !b.taken && b.hasNext && b.nextPc > b.lastPc && b.nextPc - b.lastPc <= 8
                then c.ilen[b.lastPc := b.nextPc - b.lastPc] else c.ilen;
    ResolveSlotsSame(e1, e2, c.(ilen := ilen), b, 0, LastSlot(b.obs));
  }

  /** Non-interference.  With wrong-path table training off, two simulators fed the same
      trace agree, after every prefix, on direction tables, history, folded registers,
      return stack, learned lengths and block map, whatever their buffers and depth. */
  lemma {:induction false} RunsDoNotInterfere<L, U1, B1, U2, B2>(
      e1: Env<L, U1, B1>, e2: Env<L, U2, B2>, s1: Sim<L, U1, B1>, s2: Sim<L, U2, B2>, blocks: seq<Blk>)
    requires SameTage(e1, e2) && GoodEnv(e1) && GoodEnv(e2) && !e1.trainTage && !e2.trainTage
    requires s1.core == s2.core && GoodCore(e1, s1.core) && GoodCore(e2, s2.core)
    requires forall i :: 0 <= i < |blocks| ==> GoodObs(blocks[i].obs)
    ensures Run(e1, s1, blocks).core == Run(e2, s2, blocks).core
    decreases |blocks|
  {
    hide RunBlock; hide Learn;
    if blocks != [] {
      var p, b := blocks[..|blocks| - 1], blocks[|blocks| - 1];
      RunsDoNotInterfere(e1, e2, s1, s2, p);
      var t1, t2 := Run(e1, s1, p), Run(e2, s2, p);
      BlockLearnsFromTraceOnly(e1, t1, b);
      BlockLearnsFromTraceOnly(e2, t2, b);
      LearnSame(e1, e2, t1.core, b);
    }
  }

  // ---- the folded registers stay folded ----

  ghost predicate AllFolded(cfg: seq<FoldCfg>, s: Spec)
    requires GoodFolds(cfg)
  {
    |s.folds| == |cfg| && forall i :: 0 <= i < |cfg| ==> s.folds[i] == Fold(s.hist, cfg[i].olen, cfg[i].tlen)
  }

  lemma {:induction false} PushFolded(cfg: seq<FoldCfg>, s: Spec, taken: bool)
    requires GoodFolds(cfg) && AllFolded(cfg, s)
    ensures AllFolded(cfg, PushSpec(cfg, s, taken))
  {
    hide Fold; hide UpdateFold; hide PushHist;
    forall i | 0 <= i < |cfg|
      ensures PushSpec(cfg, s, taken).folds[i] == Fold(PushHist(s.hist, taken), cfg[i].olen, cfg[i].tlen)
    {
      UpdateIsFold(s.hist, taken, cfg[i].olen, cfg[i].tlen);
    }
  }

  lemma {:induction false} SlotsFolded<L, U, B>(e: Env<L, U, B>, c: Core<L>, b: Blk, i: nat, n: nat)
    requires GoodEnv(e) && GoodCore(e, c) && GoodObs(b.obs) && n <= MAX_SLOTS && AllFolded(e.folds, c.spec)
    ensures AllFolded(e.folds, ResolveSlots(e, c, b, i, n).spec)
    decreases n - i
  {
    hide AllFolded; hide PushSpec;
    if i < n {
      PushFolded(e.folds, c.spec, b.obs.takenIdx == Some(i));
      SlotsFolded(e, ResolveSlot(e, c, b, i), b, i + 1, n);
    }
  }

  /** After every block, with any settings, each folded register is the fold of the
      global history: the wrong path's pushes are undone in step. */
  lemma {:induction false} RegistersStayFolded<L, U, B>(e: Env<L, U, B>, s: Sim<L, U, B>, blocks: seq<Blk>)
    requires GoodEnv(e) && GoodCore(e, s.core) && AllFolded(e.folds, s.core.spec)
    requires forall i :: 0 <= i < |blocks| ==> GoodObs(blocks[i].obs)
    ensures AllFolded(e.folds, Run(e, s, blocks).core.spec)
    decreases |blocks|
  {
    hide AllFolded; hide Eval; hide ResolveSlots; hide WrongPath; hide PushSpec; hide MergeStatic;
    if blocks != [] {
      var p := blocks[..|blocks| - 1];
      RegistersStayFolded(e, s, p);
      BlockFolded(e, Run(e, s, p), blocks[|blocks| - 1]);
    }
  }

  lemma {:induction false} BlockFolded<L, U, B>(e: Env<L, U, B>, s: Sim<L, U, B>, b0: Blk)
    requires GoodEnv(e) && GoodCore(e, s.core) && AllFolded(e.folds, s.core.spec) && GoodObs(b0.obs)
    ensures AllFolded(e.folds, RunBlock(e, s, b0).core.spec)
  {
    hide AllFolded; hide Announce; hide ResolveSlots; hide WrongPath; hide PushSpec; hide MergeStatic; hide ActualNext;
    var b := FixFallthru(s.core.ilen, b0);
    var (s2, p, mis) := Announce(e, s, b);
    var s3 := if mis && e.depth > 0 then Speculation(e, s2, p, b.pc) else s2;
    assert s3.core.spec == s.core.spec;
    var ilen := if b.obs.nBr > 0 && !b.taken && b.hasNext && b.nextPc > b.lastPc && b.nextPc - b.lastPc <= 8
                then s3.core.ilen[b.lastPc := b.nextPc - b.lastPc] else s3.core.ilen;
    SlotsFolded(e, s3.core.(ilen := ilen), b, 0, LastSlot(b.obs));
  }

  // ---- the overlays ----

  function Redirects(fe: seq<FeByte>): nat {
    if fe == [] then 0 else Redirects(fe[..|fe| - 1]) + (if fe[|fe| - 1].redirect then 1 else 0)
  }

  lemma {:induction false} WrongPathBytes<L, U, B>(e: Env<L, U, B>, s: Sim<L, U, B>, pc: nat, d: nat)
    requires GoodEnv(e) && GoodCore(e, s.core) && e.mode == Separate
    ensures WrongPath(e, s, pc, d).fe == s.fe && |WrongPath(e, s, pc, d).wp| == |s.wp| + d
    decreases d
  {
    hide Eval; hide Speculate; hide TrainFrom;
    if d > 0 {
      WrongPathBytes(e, WrongBlock(e, s, pc).0, WrongBlock(e, s, pc).1, d - 1);
    }
  }

  /** One block adds one `.fe` byte, and `depth` wrong-path bytes exactly when that byte
      carries the redirect mark. */
  lemma {:induction false} BlockBytes<L, U, B>(e: Env<L, U, B>, s: Sim<L, U, B>, b0: Blk)
    requires GoodEnv(e) && GoodCore(e, s.core) && GoodObs(b0.obs) && e.mode == Separate
    ensures var r := RunBlock(e, s, b0);
            && |r.fe| == |s.fe| + 1 && r.fe[..|s.fe|] == s.fe
            && |r.wp| == |s.wp| + (if r.fe[|s.fe|].redirect then e.depth else 0)
  {
    hide Eval; hide Resolve; hide ActualNext; hide WrongPath; hide Departed;
    var b := FixFallthru(s.core.ilen, b0);
    var (s2, p, mis) := Announce(e, s, b);
    WrongPathBytes(e, Departed(e, s2, p, b.pc), p.flow.next, e.depth);
  }

  lemma {:induction false} MulZero(d: nat)
    ensures d * 0 == 0
  {
  }

  lemma {:induction false} MulNext(d: nat, k: nat)
    ensures d * (k + 1) == d * k + d
  {
  }

  /** In separate mode `.fe` has one byte per block, and `.fe.wp` has `depth` bytes per
      redirect byte of `.fe`. */
  lemma {:induction false} OverlaySizes<L, U, B>(e: Env<L, U, B>, s: Sim<L, U, B>, blocks: seq<Blk>)
    requires GoodEnv(e) && GoodCore(e, s.core) && e.mode == Separate && s.fe == [] && s.wp == []
    requires forall i :: 0 <= i < |blocks| ==> GoodObs(blocks[i].obs)
    ensures var r := Run(e, s, blocks);
            |r.fe| == |blocks| && |r.wp| == e.depth * Redirects(r.fe)
    decreases |blocks|
  {
    hide RunBlock; hide GoodEnv; hide GoodCore;
    if blocks == [] {
      MulZero(e.depth);
    } else {
      var p := blocks[..|blocks| - 1];
      OverlaySizes(e, s, p);
      BlockBytes(e, Run(e, s, p), blocks[|blocks| - 1]);
      var r := Run(e, s, blocks);
      assert r.fe[..|r.fe| - 1] == Run(e, s, p).fe;
      MulNext(e.depth, Redirects(Run(e, s, p).fe));
    }
  }
}
