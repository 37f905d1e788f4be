/** What the front end has learned after a trace (preprocess/frontend/frontend_sim.cpp:650-695
    and 540-552), told from the observed blocks alone: the outcomes in the global history, the
    calls on the return stack, the training of the tables, and the block map. */
module FrontendHistory {
  import opened Options
  import opened FrontendDepth
  import opened FrontendProofs
  import opened FrontendSpec
  import opened History

  // ---- what the trace shows ----

  datatype Outcome = Outcome(pc: nat, taken: bool)

  /** How many slots of a block were executed: up to the taken one, or all that were recorded. */
  function ExecutedSlots(o: BlkObs): (n: nat)
    requires GoodObs(o)
    ensures n <= MAX_SLOTS
  {
    if o.takenIdx.Some? then o.takenIdx.value + 1 else if o.nBr <= 4 then o.nBr else 4
  }

  /** The conditional branches among the first `n` slots, in order. */
  function Outcomes(o: BlkObs, n: nat): seq<Outcome>
    requires n <= MAX_SLOTS
  {
    if n == 0 then []
    else
      var sl := o.br[n - 1];
      Outcomes(o, n - 1) + (if sl.valid && sl.brType == 0 then [Outcome(sl.pc, o.takenIdx == Some(n - 1))] else [])
  }

  /** Every executed conditional branch of a trace. */
  function TraceOutcomes(blocks: seq<Blk>): seq<Outcome>
    requires GoodTrace(blocks)
  {
    if blocks == [] then []
    else
      var b := blocks[|blocks| - 1];
      TraceOutcomes(blocks[..|blocks| - 1]) + Outcomes(b.obs, ExecutedSlots(b.obs))
  }

  /** A history after more outcomes. */
  function Pushed(h: Hist, xs: seq<Outcome>): Hist {
    if xs == [] then h else PushHist(Pushed(h, xs[..|xs| - 1]), xs[|xs| - 1].taken)
  }

  /** Training on each outcome in turn, with the history and the registers as they were. */
  function TrainAll<L, U, B>(e: Env<L, U, B>, t: L, s: Spec, xs: seq<Outcome>): (r: (L, Spec))
    requires GoodFolds(e.folds) && |s.folds| == |e.folds|
    ensures |r.1.folds| == |e.folds|
  {
    if xs == [] then (t, s)
    else
      var (t1, s1) := TrainAll(e, t, s, xs[..|xs| - 1]);
      var x := xs[|xs| - 1];
      (e.train(t1, s1, x.pc, x.taken), PushSpec(e.folds, s1, x.taken))
  }

  lemma {:induction false} PushedBit(h: Hist, xs: seq<Outcome>, i: nat)
    requires i < HIST_BITS
    ensures HistBit(Pushed(h, xs), i) == if i < |xs| then xs[|xs| - 1 - i].taken else HistBit(h, i - |xs|)
    decreases |xs|
  {
    if xs != [] && i > 0 { PushedBit(h, xs[..|xs| - 1], i - 1); }
  }

  lemma {:induction false} TrainAllConcat<L, U, B>(e: Env<L, U, B>, t: L, s: Spec, xs: seq<Outcome>, ys: seq<Outcome>)
    requires GoodFolds(e.folds) && |s.folds| == |e.folds|
    ensures TrainAll(e, t, s, xs + ys) == TrainAll(e, TrainAll(e, t, s, xs).0, TrainAll(e, t, s, xs).1, ys)
    decreases |ys|
  {
    if ys == [] {
      assert xs + ys == xs;
    } else {
      TrainAllConcat(e, t, s, xs, ys[..|ys| - 1]);
      assert (xs + ys)[..|xs + ys| - 1] == xs + ys[..|ys| - 1];
    }
  }

  lemma {:induction false} TrainAllHist<L, U, B>(e: Env<L, U, B>, t: L, s: Spec, xs: seq<Outcome>)
    requires GoodFolds(e.folds) && |s.folds| == |e.folds|
    ensures TrainAll(e, t, s, xs).1.hist == Pushed(s.hist, xs)
    decreases |xs|
  {
    if xs != [] { TrainAllHist(e, t, s, xs[..|xs| - 1]); }
  }

  // ---- calls and returns ----

  /** The bounded stack of calls, newest first, and the learned instruction lengths. */
  datatype Callers = Callers(stack: seq<Ras.Ent>, len: map<nat, nat>)

  /** Where a block really went. */
  function TrueNext(len: map<nat, nat>, b: Blk): nat
    requires GoodObs(b.obs)
  {
    if b.hasNext then b.nextPc
    else if b.taken && b.obs.takenIdx.Some? then b.obs.br[b.obs.takenIdx.value].target
    else b.lastPc + (if b.lastPc in len then len[b.lastPc] else b.ilenGuess)
  }

  /** A call puts the address behind it on the stack; a return takes one off, and if that was
      a near miss the length of the call is learned. */
  function CallSlot<L, U, B>(e: Env<L, U, B>, n: nat, o: BlkObs, next: nat, i: nat, k: Callers): Callers
    requires i < MAX_SLOTS
  {
    var sl := o.br[i];
    if sl.valid && sl.brType == 4 then
      var len := if sl.pc in k.len then k.len[sl.pc] else e.ilenBytes;
      k.(stack := Ras.BoundedPush(k.stack, Ras.Ent(sl.pc + len, sl.pc, true), n))
    else if sl.valid && sl.brType == 3 && k.stack != [] then
      var x := k.stack[0];
      Callers(k.stack[1..],
              if e.learnCallLen && x.valid && x.addr != next && x.callPc < next <= x.callPc + 8
              then k.len[x.callPc := next - x.callPc] else k.len)
    else k
  }

  function CallSlots<L, U, B>(e: Env<L, U, B>, n: nat, o: BlkObs, next: nat, m: nat, k: Callers): Callers
    requires m <= MAX_SLOTS
  {
    if m == 0 then k else CallSlot(e, n, o, next, m - 1, CallSlots(e, n, o, next, m - 1, k))
  }

  /** One block: a branch that fell through shows its own length, then its slots in order. */
  function CallBlock<L, U, B>(e: Env<L, U, B>, n: nat, b: Blk, k: Callers): Callers
    requires GoodObs(b.obs)
  {
    var len := if b.obs.nBr > 0 && !b.taken && b.hasNext && b.lastPc < b.nextPc <= b.lastPc + 8
               then k.len[b.lastPc := b.nextPc - b.lastPc] else k.len;
    CallSlots(e, n, b.obs, TrueNext(k.len, b), ExecutedSlots(b.obs), k.(len := len))
  }

  function TraceCalls<L, U, B>(e: Env<L, U, B>, n: nat, blocks: seq<Blk>, k: Callers): Callers
    requires GoodTrace(blocks)
  {
    if blocks == [] then k
    else CallBlock(e, n, blocks[|blocks| - 1], TraceCalls(e, n, blocks[..|blocks| - 1], k))
  }

  /** The live entries of the return stack, newest first. */
  function StackOf(r: Ras.RasValue): seq<Ras.Ent> { Ras.Stack(r) }

  function CallersOf<L>(c: Core<L>): Callers { Callers(StackOf(c.ras), c.ilen) }

  lemma {:induction false} StackOps(r: Ras.RasValue, e: Ras.Ent)
    ensures StackOf(Ras.Push(r, e)) == Ras.BoundedPush(StackOf(r), e, |r.s|)
    ensures Ras.Pop(r).1 == if StackOf(r) == [] then Ras.NO_ENT else StackOf(r)[0]
    ensures StackOf(Ras.Pop(r).0) == if StackOf(r) == [] then [] else StackOf(r)[1..]
  {
    Ras.RefinesBoundedStack(r, e);
    hide Ras.Push; hide Ras.Pop; hide Ras.Stack; hide Ras.BoundedPush;
  }

  // ---- one block ----

  lemma {:induction false} SlotsSnoc<L, U, B>(e: Env<L, U, B>, c: Core<L>, b: Blk, i: nat, n: nat)
    requires GoodEnv(e) && GoodCore(e, c) && GoodObs(b.obs) && i < n <= MAX_SLOTS
    ensures ResolveSlots(e, c, b, i, n) == ResolveSlot(e, ResolveSlots(e, c, b, i, n - 1), b, n - 1)
    decreases n - i
  {
    hide ResolveSlot;
    if i + 1 < n { SlotsSnoc(e, ResolveSlot(e, c, b, i), b, i + 1, n); }
  }

  /** Tables and history, over the first `n` slots. */
  lemma {:induction false} SlotsTrain<L, U, B>(e: Env<L, U, B>, c: Core<L>, b: Blk, n: nat)
    requires GoodEnv(e) && GoodCore(e, c) && GoodObs(b.obs) && n <= MAX_SLOTS
    ensures var r := ResolveSlots(e, c, b, 0, n);
            (r.tables, r.spec) == TrainAll(e, c.tables, c.spec, Outcomes(b.obs, n)) && r.smap == c.smap
    decreases n
  {
    hide PushSpec; hide Ras.Push; hide Ras.Pop; hide ActualNext;
    if n > 0 {
      SlotsTrain(e, c, b, n - 1);
      SlotsSnoc(e, c, b, 0, n);
      var x := Outcomes(b.obs, n - 1);
      var sl := b.obs.br[n - 1];
      if sl.valid && sl.brType == BR_COND {
        var xs := Outcomes(b.obs, n);
        assert xs[..|xs| - 1] == x && xs[|xs| - 1] == Outcome(sl.pc, b.obs.takenIdx == Some(n - 1));
      } else {
        assert Outcomes(b.obs, n) == x;
      }
    }
  }

  lemma {:induction false} SlotCalls<L, U, B>(e: Env<L, U, B>, c: Core<L>, b: Blk, i: nat)
    requires GoodEnv(e) && GoodCore(e, c) && GoodObs(b.obs) && i < MAX_SLOTS
    ensures var r := ResolveSlot(e, c, b, i);
            && |r.ras.s| == |c.ras.s|
            && CallersOf(r) == CallSlot(e, |c.ras.s|, b.obs, ActualNext(b), i, CallersOf(c))
  {
    hide PushSpec; hide Ras.Push; hide Ras.Pop; hide ActualNext; hide StackOf; hide Ras.BoundedPush;
    var sl := b.obs.br[i];
    var ret := sl.pc + (if sl.pc in c.ilen then c.ilen[sl.pc] else e.ilenBytes);
    StackOps(c.ras, Ras.Ent(ret, sl.pc, true));
  }

  lemma {:induction false} SlotsCalls<L, U, B>(e: Env<L, U, B>, c: Core<L>, b: Blk, n: nat)
    requires GoodEnv(e) && GoodCore(e, c) && GoodObs(b.obs) && n <= MAX_SLOTS
    ensures var r := ResolveSlots(e, c, b, 0, n);
            && |r.ras.s| == |c.ras.s|
            && CallersOf(r) == CallSlots(e, |c.ras.s|, b.obs, ActualNext(b), n, CallersOf(c))
    decreases n
  {
    hide ResolveSlot; hide ActualNext; hide CallSlot; hide StackOf;
    if n > 0 {
      SlotsCalls(e, c, b, n - 1);
      SlotsSnoc(e, c, b, 0, n);
      SlotCalls(e, ResolveSlots(e, c, b, 0, n - 1), b, n - 1);
    }
  }

  /** Whatever the wrong path does, a block is resolved from the state before it, but for what
      the wrong path taught the tables; without training on it, not even those. */
  lemma {:induction false} BlockResolves<L, U, B>(e: Env<L, U, B>, s: Sim<L, U, B>, b0: Blk) returns (t: L)
    requires GoodEnv(e) && GoodCore(e, s.core) && GoodObs(b0.obs)
    ensures GoodCore(e, s.core.(tables := t))
    ensures RunBlock(e, s, b0).core == Resolve(e, s.core.(tables := t), FixFallthru(s.core.ilen, b0))
    ensures e.depth == 0 || !e.trainTage ==> t == s.core.tables
  {
    hide Announce; hide Departed; hide Resolve; hide WrongPath;
    var b := FixFallthru(s.core.ilen, b0);
    var (s2, p, mis) := Announce(e, s, b);
    t := s.core.tables;
    if mis && e.depth > 0 {
      var d := Departed(e, s2, p, b.pc);
      WrongPathKeepsMaps(e, d, p.flow.next, e.depth);
      t := WrongPath(e, d, p.flow.next, e.depth).core.tables;
      if !e.trainTage { WrongPathKeeps(e, d, p.flow.next, e.depth); }
    }
  }

  /** The wrong path never writes the lengths or the block map. */
  lemma {:induction false} WrongPathKeepsMaps<L, U, B>(e: Env<L, U, B>, s: Sim<L, U, B>, pc: nat, d: nat)
    requires GoodEnv(e) && GoodCore(e, s.core)
    ensures var c := WrongPath(e, s, pc, d).core; c.ilen == s.core.ilen && c.smap == s.core.smap
    decreases d
  {
    hide WrongBlock;
    if d > 0 {
      WrongBlockKeepsMaps(e, s, pc);
      WrongPathKeepsMaps(e, WrongBlock(e, s, pc).0, WrongBlock(e, s, pc).1, d - 1);
    }
  }

  lemma {:induction false} WrongBlockKeepsMaps<L, U, B>(e: Env<L, U, B>, s: Sim<L, U, B>, pc: nat)
    requires GoodEnv(e) && GoodCore(e, s.core)
    ensures var c := WrongBlock(e, s, pc).0.core; c.ilen == s.core.ilen && c.smap == s.core.smap
  {
    hide Eval; hide Ras.Push; hide Ras.Pop; hide PushSpec; hide TrainFrom;
    var o := if pc in s.core.smap then s.core.smap[pc] else NO_OBS;
    TrainKeepsRest(e, s.core, o, 0, LastSlot(o));
  }

  lemma {:induction false} SameOutcomes(o: BlkObs, o': BlkObs, n: nat)
    requires o.br == o'.br && o.takenIdx == o'.takenIdx && n <= MAX_SLOTS
    ensures Outcomes(o, n) == Outcomes(o', n)
    decreases n
  {
    if n > 0 { SameOutcomes(o, o', n - 1); }
  }

  lemma {:induction false} SameCalls<L, U, B>(e: Env<L, U, B>, n: nat, o: BlkObs, o': BlkObs, next: nat, m: nat, k: Callers)
    requires o.br == o'.br && m <= MAX_SLOTS
    ensures CallSlots(e, n, o, next, m, k) == CallSlots(e, n, o', next, m, k)
    decreases m
  {
    hide Ras.BoundedPush;
    if m > 0 { SameCalls(e, n, o, o', next, m - 1, k); }
  }

  /** What resolving a block does to tables, history, calls and lengths. */
  lemma {:induction false} ResolveIs<L, U, B>(e: Env<L, U, B>, c: Core<L>, b0: Blk)
    requires GoodEnv(e) && GoodCore(e, c) && GoodObs(b0.obs)
    ensures var r := Resolve(e, c, FixFallthru(c.ilen, b0));
            && (r.tables, r.spec) == TrainAll(e, c.tables, c.spec, Outcomes(b0.obs, ExecutedSlots(b0.obs)))
            && |r.ras.s| == |c.ras.s|
            && CallersOf(r) == CallBlock(e, |c.ras.s|, b0, CallersOf(c))
  {
    hide ResolveSlots; hide TrainAll; hide CallSlots; hide MergeStatic; hide StackOf; hide Outcomes;
    var b := FixFallthru(c.ilen, b0);
    var ilen := if b.obs.nBr > 0 && !b.taken && b.hasNext && b.nextPc > b.lastPc && b.nextPc - b.lastPc <= 8
                then c.ilen[b.lastPc := b.nextPc - b.lastPc] else c.ilen;
    var c0 := c.(ilen := ilen);
    var n := ExecutedSlots(b0.obs);
    assert LastSlot(b.obs) == n;
    SlotsTrain(e, c0, b, n);
    SlotsCalls(e, c0, b, n);
    SameOutcomes(b0.obs, b.obs, n);
    assert ActualNext(b) == TrueNext(c.ilen, b0);
    SameCalls(e, |c.ras.s|, b0.obs, b.obs, ActualNext(b), n, CallersOf(c0));
  }

  // ---- every run ----

  /** Main theorem on the history.  After any run, with any settings, the global history is
      the one it started from with the outcomes of the executed conditional branches pushed in
      trace order: bit `i` is the `i`-th newest of them, and behind them the old history. */
  lemma {:induction false} HistoryIsOfTrace<L, U, B>(e: Env<L, U, B>, s: Sim<L, U, B>, blocks: seq<Blk>, i: nat)
    requires GoodEnv(e) && GoodCore(e, s.core) && GoodTrace(blocks) && i < HIST_BITS
    ensures var xs := TraceOutcomes(blocks);
            HistBit(Run(e, s, blocks).core.spec.hist, i)
            == if i < |xs| then xs[|xs| - 1 - i].taken else HistBit(s.core.spec.hist, i - |xs|)
  {
    hide Run; hide TraceOutcomes; hide HistBit; hide Pushed;
    HistoryPushed(e, s, blocks);
    PushedBit(s.core.spec.hist, TraceOutcomes(blocks), i);
  }

  lemma {:induction false} PushedConcat(h: Hist, xs: seq<Outcome>, ys: seq<Outcome>)
    ensures Pushed(h, xs + ys) == Pushed(Pushed(h, xs), ys)
    decreases |ys|
  {
    if ys == [] {
      assert xs + ys == xs;
    } else {
      PushedConcat(h, xs, ys[..|ys| - 1]);
      assert (xs + ys)[..|xs + ys| - 1] == xs + ys[..|ys| - 1];
    }
  }

  lemma {:induction false} HistoryPushed<L, U, B>(e: Env<L, U, B>, s: Sim<L, U, B>, blocks: seq<Blk>)
    requires GoodEnv(e) && GoodCore(e, s.core) && GoodTrace(blocks)
    ensures Run(e, s, blocks).core.spec.hist == Pushed(s.core.spec.hist, TraceOutcomes(blocks))
    decreases |blocks|
  {
    hide RunBlock; hide Resolve; hide Pushed; hide Outcomes; hide TrainAll;
    if blocks == [] {
      assert Pushed(s.core.spec.hist, []) == s.core.spec.hist by { NothingPushed(s.core.spec.hist); }
    } else {
      var p, b := blocks[..|blocks| - 1], blocks[|blocks| - 1];
      HistoryPushed(e, s, p);
      var c := Run(e, s, p).core;
      var t := BlockResolves(e, Run(e, s, p), b);
      ResolveIs(e, c.(tables := t), b);
      var ys := Outcomes(b.obs, ExecutedSlots(b.obs));
      TrainAllHist(e, t, c.spec, ys);
      PushedConcat(s.core.spec.hist, TraceOutcomes(p), ys);
    }
  }

  lemma {:induction false} NothingPushed(h: Hist)
    ensures Pushed(h, []) == h
  {
  }

  /** Main theorem on calls.  After any run, with any settings, the return stack is the bounded
      stack of the calls of the trace, and the learned lengths are those of the trace. */
  lemma {:induction false} CallsAreOfTrace<L, U, B>(e: Env<L, U, B>, s: Sim<L, U, B>, blocks: seq<Blk>)
    requires GoodEnv(e) && GoodCore(e, s.core) && GoodTrace(blocks)
    ensures var r := Run(e, s, blocks).core; var k := TraceCalls(e, |s.core.ras.s|, blocks, CallersOf(s.core));
            && |r.ras.s| == |s.core.ras.s|
            && Ras.Stack(r.ras) == k.stack && r.ilen == k.len
    decreases |blocks|
  {
    hide RunBlock; hide Resolve; hide CallBlock; hide TrainAll; hide Outcomes;
    if blocks != [] {
      var p, b := blocks[..|blocks| - 1], blocks[|blocks| - 1];
      CallsAreOfTrace(e, s, p);
      var t := BlockResolves(e, Run(e, s, p), b);
      ResolveIs(e, Run(e, s, p).core.(tables := t), b);
    }
  }

  /** Main theorem on the tables.  Without training on the wrong path, or without a wrong path,
      a run trains the tables on the outcomes of the trace in order, each with the history
      before it, and on nothing else. */
  lemma {:induction false} TablesAreOfTrace<L, U, B>(e: Env<L, U, B>, s: Sim<L, U, B>, blocks: seq<Blk>)
    requires GoodEnv(e) && GoodCore(e, s.core) && GoodTrace(blocks) && (e.depth == 0 || !e.trainTage)
    ensures var r := Run(e, s, blocks).core;
            (r.tables, r.spec) == TrainAll(e, s.core.tables, s.core.spec, TraceOutcomes(blocks))
    decreases |blocks|
  {
    hide RunBlock; hide Resolve; hide Outcomes;
    if blocks != [] {
      var p, b := blocks[..|blocks| - 1], blocks[|blocks| - 1];
      TablesAreOfTrace(e, s, p);
      var t := BlockResolves(e, Run(e, s, p), b);
      ResolveIs(e, Run(e, s, p).core, b);
      TrainAllConcat(e, s.core.tables, s.core.spec, TraceOutcomes(p), Outcomes(b.obs, ExecutedSlots(b.obs)));
    }
  }

  // ---- the block map ----

  /** What the last execution of the block at `pc` showed. */
  function LastRun(blocks: seq<Blk>, pc: nat): Option<BlkObs> {
    if blocks == [] then None
    else if blocks[|blocks| - 1].pc == pc then Some(blocks[|blocks| - 1].obs)
    else LastRun(blocks[..|blocks| - 1], pc)
  }

  /** The branch last recorded in slot `i`; an execution that saw the whole block and had no
      such slot erases it. */
  function SlotKnown(blocks: seq<Blk>, pc: nat, i: nat): BrSlot
    requires i < MAX_SLOTS
  {
    if blocks == [] then NO_SLOT
    else
      var b := blocks[|blocks| - 1];
      if b.pc == pc && i < b.obs.nBr then b.obs.br[i]
      else if b.pc == pc && b.obs.complete then NO_SLOT
      else SlotKnown(blocks[..|blocks| - 1], pc, i)
  }

  /** The most branches seen since the block was last seen whole. */
  function BranchesKnown(blocks: seq<Blk>, pc: nat): nat {
    if blocks == [] then 0
    else
      var b := blocks[|blocks| - 1];
      var was := BranchesKnown(blocks[..|blocks| - 1], pc);
      if b.pc == pc && (b.obs.complete || b.obs.nBr > was) then b.obs.nBr else was
  }

  /** Where the block went when it last fell through with a known next address. */
  function FallKnown(blocks: seq<Blk>, pc: nat): Option<nat> {
    if blocks == [] then None
    else
      var b := blocks[|blocks| - 1];
      if b.pc == pc && !b.taken && b.hasNext then Some(b.nextPc) else FallKnown(blocks[..|blocks| - 1], pc)
  }

  /** A map entry holds what a trace showed of its block. */
  ghost predicate EntryOf(m: map<nat, BlkObs>, blocks: seq<Blk>, pc: nat) {
    && (pc in m <==> LastRun(blocks, pc).Some?)
    && var o := if pc in m then m[pc] else NO_OBS;
       && (pc in m ==> o.takenIdx == LastRun(blocks, pc).value.takenIdx)
       && (forall i :: 0 <= i < MAX_SLOTS ==> o.br[i] == SlotKnown(blocks, pc, i))
       && o.nBr == BranchesKnown(blocks, pc)
       && (o.fallthruValid <==> FallKnown(blocks, pc).Some?)
       && o.fallthru == (if FallKnown(blocks, pc).Some? then FallKnown(blocks, pc).value else 0)
  }

  lemma {:induction false} EntryNext(m: map<nat, BlkObs>, blocks: seq<Blk>, ilen: map<nat, nat>, pc: nat)
    requires blocks != [] && EntryOf(m, blocks[..|blocks| - 1], pc)
    ensures var b := FixFallthru(ilen, blocks[|blocks| - 1]);
            EntryOf(m[b.pc := MergeStatic(if b.pc in m then m[b.pc] else NO_OBS, b.obs)], blocks, pc)
  {
    hide MergeStatic; hide FixFallthru;
    var b0 := blocks[|blocks| - 1];
    var b := FixFallthru(ilen, b0);
    FixedFall(ilen, b0);
    var d := if b.pc in m then m[b.pc] else NO_OBS;
    if b.pc == pc {
      EntryMerged(m, blocks, d, b.obs, pc);
    } else {
      EntryElsewhere(m, m[b.pc := MergeStatic(d, b.obs)], blocks, pc);
    }
  }

  lemma {:induction false} FixedFall(ilen: map<nat, nat>, b: Blk)
    ensures var f := FixFallthru(ilen, b);
            && f == b.(obs := b.obs.(fallthru := f.obs.fallthru, fallthruValid := !b.taken && b.hasNext))
            && (!b.taken && b.hasNext ==> f.obs.fallthru == b.nextPc)
  {
  }

  /** A block at another address changes nothing here. */
  lemma {:induction false} EntryElsewhere(m: map<nat, BlkObs>, m': map<nat, BlkObs>, blocks: seq<Blk>, pc: nat)
    requires blocks != [] && EntryOf(m, blocks[..|blocks| - 1], pc) && blocks[|blocks| - 1].pc != pc
    requires (pc in m' <==> pc in m) && (pc in m ==> m'[pc] == m[pc])
    ensures EntryOf(m', blocks, pc)
  {
    var p := blocks[..|blocks| - 1];
    forall i | 0 <= i < MAX_SLOTS ensures SlotKnown(blocks, pc, i) == SlotKnown(p, pc, i) { }
  }

  /** An execution of the block itself. */
  lemma {:induction false} EntryMerged(m: map<nat, BlkObs>, blocks: seq<Blk>, d: BlkObs, o: BlkObs, pc: nat)
    requires blocks != [] && EntryOf(m, blocks[..|blocks| - 1], pc) && blocks[|blocks| - 1].pc == pc
    requires d == if pc in m then m[pc] else NO_OBS
    requires var b := blocks[|blocks| - 1];
             && o == b.obs.(fallthru := o.fallthru, fallthruValid := !b.taken && b.hasNext)
             && (!b.taken && b.hasNext ==> o.fallthru == b.nextPc)
    ensures EntryOf(m[pc := MergeStatic(d, o)], blocks, pc)
  {
    hide MergeStatic;
    MergedRest(d, o);
    forall i | 0 <= i < MAX_SLOTS ensures MergeStatic(d, o).br[i] == SlotKnown(blocks, pc, i) {
      MergedSlot(d, o, i);
    }
  }

  lemma {:induction false} MergedSlot(d: BlkObs, o: BlkObs, i: nat)
    requires i < MAX_SLOTS
    ensures MergeStatic(d, o).br[i] == if i < o.nBr then o.br[i] else if o.complete then NO_SLOT else d.br[i]
  {
  }

  lemma {:induction false} MergedRest(d: BlkObs, o: BlkObs)
    ensures var r := MergeStatic(d, o);
            && r.nBr == (if o.complete || o.nBr > d.nBr then o.nBr else d.nBr)
            && r.fallthru == (if o.fallthruValid then o.fallthru else d.fallthru)
            && r.fallthruValid == (o.fallthruValid || d.fallthruValid)
  {
  }

  /** Main theorem on the block map.  Starting empty, after any run, with any settings, it holds
      exactly the blocks of the trace, each with the taken branch of its last execution, the
      branch last seen in each slot, and the fall-through last seen. */
  lemma {:induction false} BlockMapIsOfTrace<L, U, B>(e: Env<L, U, B>, s: Sim<L, U, B>, blocks: seq<Blk>, pc: nat)
    requires GoodEnv(e) && GoodCore(e, s.core) && GoodTrace(blocks) && s.core.smap == map[]
    ensures EntryOf(Run(e, s, blocks).core.smap, blocks, pc)
    decreases |blocks|
  {
    hide RunBlock; hide ResolveSlots; hide MergeStatic; hide EntryOf; hide FixFallthru;
    if blocks == [] {
      EmptyMap(pc);
    } else {
      var p, b0 := blocks[..|blocks| - 1], blocks[|blocks| - 1];
      BlockMapIsOfTrace(e, s, p, pc);
      var c := Run(e, s, p).core;
      var t := BlockResolves(e, Run(e, s, p), b0);
      var b := FixFallthru(c.ilen, b0);
      var ilen := if b.obs.nBr > 0 && !b.taken && b.hasNext && b.nextPc > b.lastPc && b.nextPc - b.lastPc <= 8
                  then c.ilen[b.lastPc := b.nextPc - b.lastPc] else c.ilen;
      SlotsTrain(e, c.(tables := t, ilen := ilen), b, LastSlot(b.obs));
      EntryNext(c.smap, blocks, c.ilen, pc);
    }
  }

  lemma {:induction false} EmptyMap(pc: nat)
    ensures EntryOf(map[], [], pc)
  {
  }
}
