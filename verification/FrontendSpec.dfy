/** The front-end simulator (preprocess/frontend/frontend_sim.cpp): one fetch block of the
    trace at a time, with the wrong path expanded after each misprediction.  The branch
    target buffers and the direction tables are any functions of their own state; the
    history, the return stack, the learned lengths and the block map are concrete. */
module FrontendSpec {
  import opened Options
  import opened History
  import opened Words
  import Ras

  const BR_COND: nat := 0
  const BR_JAL: nat := 1
  const BR_RET: nat := 3
  const BR_CALL: nat := 4
  const BR_NONE: nat := 7
  const MAX_SLOTS: nat := 4

  predicate Uncond(t: nat) { t != BR_COND && t != BR_NONE }

  datatype BrSlot = BrSlot(pc: nat, target: nat, brType: nat, valid: bool)

  const NO_SLOT := BrSlot(0, 0, BR_NONE, false)

  type Slots = s: seq<BrSlot> | |s| == MAX_SLOTS witness seq(MAX_SLOTS, _ => NO_SLOT)

  /** What one execution of a block showed; `takenIdx` is the taken slot, if any. */
  datatype BlkObs = BlkObs(nBr: nat, br: Slots, takenIdx: Option<nat>, complete: bool, fallthru: nat, fallthruValid: bool)

  const NO_OBS := BlkObs(0, [NO_SLOT, NO_SLOT, NO_SLOT, NO_SLOT], None, false, 0, false)

  datatype Blk = Blk(pc: nat, lastPc: nat, obs: BlkObs, taken: bool, nextPc: nat, hasNext: bool, ilenGuess: nat)

  /** The trace reader marks a slot as taken only if it recorded it. */
  predicate GoodObs(o: BlkObs) { o.takenIdx.Some? ==> o.takenIdx.value < MAX_SLOTS }

  function ActualNext(b: Blk): nat
    requires GoodObs(b.obs)
  {
    if b.hasNext then b.nextPc
    else if b.taken && b.obs.takenIdx.Some? then b.obs.br[b.obs.takenIdx.value].target
    else b.obs.fallthru
  }

  datatype FtbEntry = FtbEntry(br: Slots, hint: seq<nat>, fallthru: nat, fallthruValid: bool)

  // ---- speculative history ----

  /** History length and folded width of one register. */
  datatype FoldCfg = FoldCfg(olen: nat, tlen: nat)

  /** The global history and the folded registers of every table. */
  datatype Spec = Spec(hist: Hist, folds: seq<Word>)

  predicate GoodFolds(cfg: seq<FoldCfg>) { forall i :: 0 <= i < |cfg| ==> Foldable(cfg[i].olen, cfg[i].tlen) }

  function PushSpec(cfg: seq<FoldCfg>, s: Spec, taken: bool): (r: Spec)
    requires GoodFolds(cfg) && |s.folds| == |cfg|
    ensures |r.folds| == |cfg|
  {
    var h := PushHist(s.hist, taken);
    Spec(h, seq(|cfg|, i requires 0 <= i < |cfg| => UpdateFold(s.folds[i], h, cfg[i].olen, cfg[i].tlen)))
  }

  // ---- the simulator ----

  datatype OutMode = Inline | Separate | NoOutput

  datatype FeByte = FeByte(bubbles: nat, ubtbHit: bool, btbOverride: bool, dirOk: bool, tgtOk: bool, wrongPath: bool, redirect: bool)

  /** The settings and the component functions of one simulator.  `L` is the state of the
      direction tables, `U` and `B` those of the two target buffers. */
  datatype Env<!L, !U, !B> = Env(
    direction: (L, Spec, nat) -> bool,
    train: (L, Spec, nat, bool) -> L,
    lookupU: (U, nat) -> (U, Option<FtbEntry>),
    updateU: (U, nat, BlkObs) -> U,
    lookupB: (B, nat) -> (B, Option<FtbEntry>),
    updateB: (B, nat, BlkObs) -> B,
    ubtbSlots: nat, btbSlots: nat, blockBytes: nat,
    depth: nat, mode: OutMode, trainBtb: bool, trainTage: bool,
    folds: seq<FoldCfg>, ilenBytes: nat, learnCallLen: bool)

  ghost predicate GoodEnv<L, U, B>(e: Env<L, U, B>) {
    e.ubtbSlots <= MAX_SLOTS && e.btbSlots <= MAX_SLOTS && GoodFolds(e.folds)
  }

  /** What the correct path has taught the simulator. */
  datatype Core<L> = Core(
    tables: L, spec: Spec, ras: Ras.RasValue,
    ilen: map<nat, nat>, smap: map<nat, BlkObs>)

  datatype Sim<L, U, B> = Sim(core: Core<L>, u: U, b: B, fe: seq<FeByte>, wp: seq<FeByte>)

  ghost predicate GoodCore<L, U, B>(e: Env<L, U, B>, c: Core<L>) {
    && |c.spec.folds| == |e.folds|
    && forall pc :: pc in c.smap ==> GoodObs(c.smap[pc])
  }

  /** The fall-through of a block, exact when the trace gives the next address. */
  function FixFallthru(ilen: map<nat, nat>, b: Blk): Blk {
    if !b.taken && b.hasNext then b.(obs := b.obs.(fallthru := b.nextPc, fallthruValid := true))
    else b.(obs := b.obs.(fallthru := b.lastPc + (if b.lastPc in ilen then ilen[b.lastPc] else b.ilenGuess), fallthruValid := false))
  }

  datatype Flow = Flow(taken: bool, next: nat, idx: Option<nat>, brType: nat, fall: nat)

  /** The first slot from `i` on that is predicted taken decides the flow. */
  function EvalFrom<L, U, B>(e: Env<L, U, B>, c: Core<L>, x: FtbEntry, n: nat, useTage: bool, fall: nat, i: nat): Flow
    requires n <= MAX_SLOTS
    decreases n - i
  {
    if i >= n then Flow(false, fall, None, BR_NONE, fall)
    else
      var sl := x.br[i];
      var dir := if Uncond(sl.brType) then true
                 else if useTage then sl.brType == BR_COND && e.direction(c.tables, c.spec, sl.pc)
                 else i < |x.hint| && x.hint[i] >= 2;
      if sl.valid && dir then
        Flow(true, if sl.brType == BR_RET then Ras.Peek(c.ras) else sl.target, Some(i), sl.brType, fall)
      else EvalFrom(e, c, x, n, useTage, fall, i + 1)
  }

  function Eval<L, U, B>(e: Env<L, U, B>, c: Core<L>, x: Option<FtbEntry>, n: nat, useTage: bool, seqfall: nat): Flow
    requires n <= MAX_SLOTS
  {
    match x
    case None => Flow(false, seqfall, None, BR_NONE, seqfall)
    case Some(y) => EvalFrom(e, c, y, n, useTage, if y.fallthruValid then y.fallthru else seqfall, 0)
  }

  predicate SameFlow(a: Flow, b: Flow) { a.taken == b.taken && a.next == b.next }

  datatype FePred = FePred(ubtbHit: bool, btbOverride: bool, bubbles: nat, flow: Flow)

  /** The three-stage prediction; the lookups refresh replacement state. */
  function Predict<L, U, B>(e: Env<L, U, B>, s: Sim<L, U, B>, pc: nat): (Sim<L, U, B>, FePred)
    requires GoodEnv(e)
  {
    var seqfall := pc + e.blockBytes;
    var (u, ue) := e.lookupU(s.u, pc);
    var s1 := Eval(e, s.core, ue, e.ubtbSlots, false, seqfall);
    var (b, be) := e.lookupB(s.b, pc);
    var s2 := Eval(e, s.core, be, e.btbSlots, false, seqfall);
    var s3 := Eval(e, s.core, be, e.btbSlots, true, seqfall);
    (s.(u := u, b := b),
     FePred(ue.Some?, !SameFlow(s2, s1), if !SameFlow(s3, s2) then 2 else if !SameFlow(s2, s1) then 1 else 0, s3))
  }

  function Emit<L, U, B>(s: Sim<L, U, B>, x: FeByte): Sim<L, U, B> { s.(fe := s.fe + [x]) }

  function EmitWp<L, U, B>(e: Env<L, U, B>, s: Sim<L, U, B>, x: FeByte): Sim<L, U, B> {
    match e.mode
    case Inline => Emit(s, x)
    case NoOutput => s
    case Separate => s.(wp := s.wp + [x])
  }

  // ---- resolution ----

  function LastSlot(o: BlkObs): (n: nat)
    requires GoodObs(o)
    ensures n <= MAX_SLOTS
  {
    if o.takenIdx.Some? then o.takenIdx.value + 1 else if o.nBr < MAX_SLOTS then o.nBr else MAX_SLOTS
  }

  /** One executed branch: train the tables, move the history and the return stack. */
  function ResolveSlot<L, U, B>(e: Env<L, U, B>, c: Core<L>, b: Blk, i: nat): (r: Core<L>)
    requires GoodEnv(e) && GoodCore(e, c) && GoodObs(b.obs) && i < MAX_SLOTS
    ensures GoodCore(e, r)
  {
    var sl := b.obs.br[i];
    var tk := b.obs.takenIdx == Some(i);
    if !sl.valid then c
    else if sl.brType == BR_COND then
      c.(tables := e.train(c.tables, c.spec, sl.pc, tk), spec := PushSpec(e.folds, c.spec, tk))
    else if sl.brType == BR_CALL then
      var ret := sl.pc + (if sl.pc in c.ilen then c.ilen[sl.pc] else e.ilenBytes);
      c.(ras := Ras.Push(c.ras, Ras.Ent(ret, sl.pc, true)))
    else if sl.brType == BR_RET then
      var (ras, x) := Ras.Pop(c.ras);
      var act := ActualNext(b);
      var learn := e.learnCallLen && x.valid && x.addr != act && act > x.callPc && act - x.callPc <= 8;
      c.(ras := ras, ilen := if learn then c.ilen[x.callPc := act - x.callPc] else c.ilen)
    else c
  }

  function ResolveSlots<L, U, B>(e: Env<L, U, B>, c: Core<L>, b: Blk, i: nat, n: nat): (r: Core<L>)
    requires GoodEnv(e) && GoodCore(e, c) && GoodObs(b.obs) && n <= MAX_SLOTS
    ensures GoodCore(e, r)
    decreases n - i
  {
    if i >= n then c else ResolveSlots(e, ResolveSlot(e, c, b, i), b, i + 1, n)
  }

  function MergeStatic(d: BlkObs, o: BlkObs): (r: BlkObs)
    ensures r.takenIdx == o.takenIdx
  {
    var seen := if o.nBr < MAX_SLOTS then o.nBr else MAX_SLOTS;
    BlkObs(
      if o.complete || o.nBr > d.nBr then o.nBr else d.nBr,
      if o.complete then o.br[..seen] + [NO_SLOT, NO_SLOT, NO_SLOT, NO_SLOT][seen..] else o.br[..seen] + d.br[seen..],
      o.takenIdx, d.complete,
      if o.fallthruValid then o.fallthru else d.fallthru,
      o.fallthruValid || d.fallthruValid)
  }

  /** Resolution of a block whose fall-through has been fixed, and the block map update. */
  function Resolve<L, U, B>(e: Env<L, U, B>, c: Core<L>, b: Blk): (r: Core<L>)
    requires GoodEnv(e) && GoodCore(e, c) && GoodObs(b.obs)
    ensures GoodCore(e, r)
  {
    var ilen := if b.obs.nBr > 0 && !b.taken && b.hasNext && b.nextPc > b.lastPc && b.nextPc - b.lastPc <= 8
                then c.ilen[b.lastPc := b.nextPc - b.lastPc] else c.ilen;
    var c1 := ResolveSlots(e, c.(ilen := ilen), b, 0, LastSlot(b.obs));
    c1.(smap := c1.smap[b.pc := MergeStatic(if b.pc in c1.smap then c1.smap[b.pc] else NO_OBS, b.obs)])
  }

  /** Everything the correct path teaches, as a function of what was known and the block:
      the prediction plays no part. */
  function Learn<L, U, B>(e: Env<L, U, B>, c: Core<L>, b: Blk): (r: Core<L>)
    requires GoodEnv(e) && GoodCore(e, c) && GoodObs(b.obs)
    ensures GoodCore(e, r)
  {
    Resolve(e, c, FixFallthru(c.ilen, b))
  }

  // ---- the wrong path ----

  function TrainFrom<L, U, B>(e: Env<L, U, B>, c: Core<L>, o: BlkObs, i: nat, n: nat): Core<L>
    requires n <= MAX_SLOTS
    decreases n - i
  {
    if i >= n then c
    else
      var sl := o.br[i];
      var c1 := if sl.valid && sl.brType == BR_COND
                then c.(tables := e.train(c.tables, c.spec, sl.pc, o.takenIdx == Some(i))) else c;
      TrainFrom(e, c1, o, i + 1, n)
  }

  /** The speculative update along the predicted path. */
  function Speculate<L, U, B>(e: Env<L, U, B>, c: Core<L>, p: FePred, pc: nat): (r: Core<L>)
    requires GoodEnv(e) && GoodCore(e, c)
    ensures GoodCore(e, r)
  {
    if p.flow.brType == BR_COND && p.flow.taken then c.(spec := PushSpec(e.folds, c.spec, true))
    else if p.flow.brType == BR_CALL then c.(ras := Ras.Push(c.ras, Ras.Ent(p.flow.fall, pc, true)))
    else if p.flow.brType == BR_RET then c.(ras := Ras.Pop(c.ras).0)
    else c
  }

  function WrongBlock<L, U, B>(e: Env<L, U, B>, s: Sim<L, U, B>, pc: nat): (r: (Sim<L, U, B>, nat))
    requires GoodEnv(e) && GoodCore(e, s.core)
    ensures GoodCore(e, r.0.core)
  {
    var (s1, p) := Predict(e, s, pc);
    var known := pc in s.core.smap;
    var o := if known then s.core.smap[pc] else NO_OBS;
    var aTaken := known && o.takenIdx.Some?;
    var aNext := if !known then pc + e.blockBytes else if aTaken then o.br[o.takenIdx.value].target else o.fallthru;
    var s2 := EmitWp(e, s1, FeByte(p.bubbles, p.ubtbHit, p.btbOverride, p.flow.taken == aTaken, p.flow.next == aNext, true, false));
    var c3 := if known && e.trainTage then TrainFrom(e, s2.core, o, 0, LastSlot(o)) else s2.core;
    TrainKeepsRest(e, s2.core, o, 0, if known then LastSlot(o) else 0);
    var s4 := if known && e.trainBtb then s2.(core := c3, u := e.updateU(s2.u, pc, o), b := e.updateB(s2.b, pc, o))
              else s2.(core := c3);
    (s4.(core := Speculate(e, c3, p, pc)), p.flow.next)
  }

  /** Training touches the direction tables only. */
  lemma {:induction false} TrainKeepsRest<L, U, B>(e: Env<L, U, B>, c: Core<L>, o: BlkObs, i: nat, n: nat)
    requires n <= MAX_SLOTS
    ensures TrainFrom(e, c, o, i, n) == c.(tables := TrainFrom(e, c, o, i, n).tables)
    decreases n - i
  {
    if i < n {
      var sl := o.br[i];
      var c1 := if sl.valid && sl.brType == BR_COND
                then c.(tables := e.train(c.tables, c.spec, sl.pc, o.takenIdx == Some(i))) else c;
      TrainKeepsRest(e, c1, o, i + 1, n);
    }
  }

  function WrongPath<L, U, B>(e: Env<L, U, B>, s: Sim<L, U, B>, pc: nat, d: nat): (r: Sim<L, U, B>)
    requires GoodEnv(e) && GoodCore(e, s.core)
    ensures GoodCore(e, r.core)
    decreases d
  {
    if d == 0 then s else var (s1, next) := WrongBlock(e, s, pc); WrongPath(e, s1, next, d - 1)
  }

  /** The state with which the wrong path is entered: the predicted branch has moved the
      history or the return stack. */
  function Departed<L, U, B>(e: Env<L, U, B>, s: Sim<L, U, B>, p: FePred, pc: nat): (r: Sim<L, U, B>)
    requires GoodEnv(e) && GoodCore(e, s.core)
    ensures GoodCore(e, r.core) && r == s.(core := s.core.(spec := r.core.spec, ras := r.core.ras))
  {
    var c1 := if p.flow.idx.Some? && p.flow.brType == BR_COND
              then s.core.(spec := PushSpec(e.folds, s.core.spec, true)) else s.core;
    var c2 := if p.flow.brType == BR_CALL then c1.(ras := Ras.Push(c1.ras, Ras.Ent(p.flow.fall, pc, true)))
              else if p.flow.brType == BR_RET then c1.(ras := Ras.Pop(c1.ras).0) else c1;
    s.(core := c2)
  }

  /** Save, run the wrong path, restore. */
  function Speculation<L, U, B>(e: Env<L, U, B>, s: Sim<L, U, B>, p: FePred, pc: nat): (r: Sim<L, U, B>)
    requires GoodEnv(e) && GoodCore(e, s.core)
    ensures GoodCore(e, r.core)
  {
    var s1 := WrongPath(e, Departed(e, s, p, pc), p.flow.next, e.depth);
    s1.(core := s1.core.(spec := s.core.spec, ras := s.core.ras))
  }

  /** Predict a block whose fall-through has been fixed and write its byte; the flag says
      whether it was mispredicted. */
  function Announce<L, U, B>(e: Env<L, U, B>, s: Sim<L, U, B>, b: Blk): (r: (Sim<L, U, B>, FePred, bool))
    requires GoodEnv(e) && GoodObs(b.obs)
    ensures r.0.core == s.core
  {
    var (s1, p) := Predict(e, s, b.pc);
    var dirOk := p.flow.taken == b.taken;
    var tgtOk := p.flow.next == ActualNext(b);
    var mis := !(dirOk && tgtOk);
    (Emit(s1, FeByte(p.bubbles, p.ubtbHit, p.btbOverride, dirOk, tgtOk, false, mis)), p, mis)
  }

  /** One block of the trace. */
  function RunBlock<L, U, B>(e: Env<L, U, B>, s: Sim<L, U, B>, b0: Blk): (r: Sim<L, U, B>)
    requires GoodEnv(e) && GoodCore(e, s.core) && GoodObs(b0.obs)
    ensures GoodCore(e, r.core)
  {
    var b := FixFallthru(s.core.ilen, b0);
    var (s2, p, mis) := Announce(e, s, b);
    var s3 := if mis && e.depth > 0 then Speculation(e, s2, p, b.pc) else s2;
    s3.(core := Resolve(e, s3.core, b), u := e.updateU(s3.u, b.pc, b.obs), b := e.updateB(s3.b, b.pc, b.obs))
  }

  function Run<L, U, B>(e: Env<L, U, B>, s: Sim<L, U, B>, blocks: seq<Blk>): (r: Sim<L, U, B>)
    requires GoodEnv(e) && GoodCore(e, s.core) && forall i :: 0 <= i < |blocks| ==> GoodObs(blocks[i].obs)
    ensures GoodCore(e, r.core)
  {
    if blocks == [] then s
    else RunBlock(e, Run(e, s, blocks[..|blocks| - 1]), blocks[|blocks| - 1])
  }
}
