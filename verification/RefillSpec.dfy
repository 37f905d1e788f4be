/** One lane of the scalar/vector boundary (lib/runtime/refill.c, refill.h) as a
    pure state machine: what `gather`, `window` and `consume` do to a lane, plus a
    log of what the timing model observes.  `RefillLane.Lane` is the imperative
    form; the properties are proved in `RefillProofs`. */
module RefillSpec {
  import opened Options
  import opened BstfReader
  import opened Words

  /** Staging depth, and the number of entries the fetch window shows. */
  const REFILL_M: nat := 32
  const W: nat := 4

  /** The 48 bits a record contributes to the fetch window. */
  datatype Uop = Uop(duop: Duop, fe: Byte, mem: Byte)
  datatype Entry = Entry(uop: Uop, hasShadow: bool)
  datatype Slot = Slot(ent: Entry, pos: Pos)

  datatype FetchState = Correct | Shadow | Starved

  /** What an observer of one lane sees. */
  datatype Event = Deliver(uop: Uop) | Enter(branch: Pos) | Leave

  /** The branch bookkeeping behind the two hard assertions and the stale-request test. */
  datatype Books = Books(
    lastBr: Cursor, hasLastBr: bool,
    hiBranch: nat, hiResume: nat,
    resolvedFe: nat, resolvedValid: bool)

  datatype Counters = Counters(
    nEnter: nat, nLeave: nat, nStarve: nat, nNobranch: nat, nResolved: nat,
    cpConsumed: nat, wpConsumed: nat, consumed: nat)

  datatype LaneState = LaneState(
    cur: Cursor,
    eof: bool,
    fstate: FetchState,
    stage: seq<Slot>,
    books: Books,
    n: Counters,
    brConsumed: Option<Pos>, lastDeliv: Option<Pos>,
    aborted: bool,
    log: seq<Event>)

  /** One call made by the driver: build a window, or report what was taken. */
  datatype Input = Window | Consume(take: nat, redirect: bool, redirShadow: bool)

  predicate IsWrong(u: Uop) { u.duop.wrongpath }

  function DecodeUop(t: Trace, c: Cursor, r: Rec): Uop {
    Uop(RecToDuop(r, c.inShadow), FeEvent(t, c), MemEventOf(t, c, r))
  }

  predicate RecHasShadow(r: Rec) { r.shadowOff != 0 && r.shadowLen != 0 }

  function DecodeEntry(t: Trace, c: Cursor, r: Rec): Entry {
    Entry(DecodeUop(t, c, r), !c.inShadow && RecHasShadow(r))
  }

  function SlotAt(t: Trace, c: Cursor, r: Rec): Slot {
    Slot(DecodeEntry(t, c, r), if c.inShadow then c.pos.(recByte := 0) else c.pos)
  }

  // ---- gather ----

  function Gather(t: Trace, s: LaneState): LaneState
    decreases REFILL_M - |s.stage|
  {
    if |s.stage| >= REFILL_M then s
    else
      match Peek(t, s.cur)
      case None => GatherEnd(s)
      case Some(r) => Gather(t, GatherOne(t, s, r))
  }

  /** Out of records: a shadow starves, the correct path ends. */
  function GatherEnd(s: LaneState): LaneState {
    match s.fstate
    case Shadow => s.(fstate := Starved, n := s.n.(nStarve := s.n.nStarve + 1))
    case Correct => s.(eof := true)
    case Starved => s
  }

  function GatherOne(t: Trace, s: LaneState, r: Rec): LaneState {
    s.(stage := s.stage + [SlotAt(t, s.cur, r)], cur := AdvanceN(t, s.cur, 1).0)
  }

  // ---- consume ----

  /** Delivers the head of staging to the model. */
  function TakeOne(s: LaneState): LaneState
    requires |s.stage| > 0
  {
    var x := s.stage[0];
    var s1 := s.(stage := s.stage[1..], n := s.n.(consumed := s.n.consumed + 1), log := s.log + [Deliver(x.ent.uop)]);
    if IsWrong(x.ent.uop) then s1.(n := s1.n.(wpConsumed := s.n.wpConsumed + 1))
    else s1.(n := s1.n.(cpConsumed := s.n.cpConsumed + 1),
             lastDeliv := Some(x.pos),
             brConsumed := if x.ent.hasShadow then Some(x.pos) else s.brConsumed)
  }

  function TakeN(s: LaneState, n: nat): LaneState
    requires n <= |s.stage|
    decreases n
  {
    if n == 0 then s else TakeN(TakeOne(s), n - 1)
  }

  // ---- wrong-path switching ----

  datatype EnterResult = Aborted | NoShadow | Entered(s: LaneState)

  /** The cursor inside the shadow of `br`, with the resume point moved past the
      last delivered record when that is later. */
  function ShadowCursor(t: Trace, br: Pos, resumeAfter: Option<Pos>): Option<Cursor> {
    match EnterShadow(t, CursorAt(br))
    case None => None
    case Some(c) =>
      if resumeAfter.Some? && resumeAfter.value.recByte + t.recBytes > c.sv.recByte then
        Some(c.(sv := AdvanceN(t, CursorAt(resumeAfter.value), 1).0.pos))
      else Some(c)
  }

  function DoEnter(t: Trace, s: LaneState, br: Pos, resumeAfter: Option<Pos>): EnterResult {
    if s.books.hasLastBr && br.recByte <= s.books.hiBranch then Aborted
    else
      match ShadowCursor(t, br, resumeAfter)
      case None => NoShadow
      case Some(c) =>
        if c.sv.recByte <= s.books.hiResume && s.n.nEnter != 0 then Aborted
        else Entered(s.(cur := c,
                        books := s.books.(lastBr := c, hasLastBr := true,
                                          hiBranch := br.recByte, hiResume := c.sv.recByte),
                        fstate := Shadow, n := s.n.(nEnter := s.n.nEnter + 1),
                        log := s.log + [Enter(br)]))
  }

  /** Index of the first staged entry that still carries the shadow bit, or the length. */
  function FirstShadow(stage: seq<Slot>): (i: nat)
    ensures i <= |stage|
    ensures forall j :: 0 <= j < i ==> !stage[j].ent.hasShadow
    ensures i < |stage| ==> stage[i].ent.hasShadow
  {
    if stage == [] || stage[0].ent.hasShadow then 0 else 1 + FirstShadow(stage[1..])
  }

  /** Staging cut after entry `i`, whose shadow bit is spent. */
  function CutAfter(stage: seq<Slot>, i: nat): seq<Slot>
    requires i < |stage|
  {
    stage[..i] + [stage[i].(ent := stage[i].ent.(hasShadow := false))]
  }

  predicate StaleRequest(s: LaneState) {
    |s.stage| > 0 && s.books.resolvedValid && s.stage[0].pos.feIdx == s.books.resolvedFe
  }

  function LaneEnter(t: Trace, s: LaneState): LaneState {
    if s.fstate != Correct then s
    else if StaleRequest(s) then s.(n := s.n.(nResolved := s.n.nResolved + 1))
    else
      var i := FirstShadow(s.stage);
      if i == |s.stage| then EnterConsumed(t, s)
      else
        match DoEnter(t, s, s.stage[i].pos, None)
        case Aborted => s.(aborted := true)
        case Entered(s') => s'.(stage := CutAfter(s.stage, i))
        case NoShadow => EnterConsumed(t, s)
  }

  /** The branch was taken out of staging in this same cycle. */
  function EnterConsumed(t: Trace, s: LaneState): LaneState {
    if s.brConsumed.None? then s.(n := s.n.(nNobranch := s.n.nNobranch + 1))
    else
      match DoEnter(t, s, s.brConsumed.value, s.lastDeliv)
      case Aborted => s.(aborted := true)
      case Entered(s') => s'.(stage := [])
      case NoShadow => s.(n := s.n.(nNobranch := s.n.nNobranch + 1))
  }

  /** Length of the correct-path prefix of staging. */
  function PrefixLen(stage: seq<Slot>): (k: nat)
    ensures k <= |stage|
    ensures forall j :: 0 <= j < k ==> !IsWrong(stage[j].ent.uop)
    ensures k < |stage| ==> IsWrong(stage[k].ent.uop)
  {
    if stage == [] || IsWrong(stage[0].ent.uop) then 0 else 1 + PrefixLen(stage[1..])
  }

  function LaneLeave(s: LaneState): LaneState {
    if s.fstate == Correct then s
    else
      s.(stage := s.stage[..PrefixLen(s.stage)],
         books := s.books.(resolvedFe := s.books.lastBr.pos.feIdx, resolvedValid := true),
         cur := LeaveShadow(s.cur),
         fstate := Correct, n := s.n.(nLeave := s.n.nLeave + 1), eof := false, log := s.log + [Leave])
  }

  // ---- the lane's step ----

  function Min(a: nat, b: nat): nat { if a <= b then a else b }

  function ConsumeTake(s: LaneState, take: nat): LaneState {
    TakeN(s.(brConsumed := None, lastDeliv := None), Min(take, |s.stage|))
  }

  function Redirect(t: Trace, s: LaneState, redirShadow: bool): LaneState {
    var s1 := if redirShadow then LaneEnter(t, s) else LaneLeave(s);
    if s1.aborted then s1 else Gather(t, s1)
  }

  function Step(t: Trace, s: LaneState, i: Input): LaneState {
    match i
    case Window =>
      if |s.stage| < W && !s.eof then Gather(t, s) else s
    case Consume(take, redirect, redirShadow) =>
      var s1 := ConsumeTake(s, take);
      if redirect then Redirect(t, s1, redirShadow) else s1
  }

  function ZeroState(): LaneState {
    LaneState(CursorInit(), false, Correct, [],
              Books(CursorAt(ZERO_POS), false, 0, 0, 0, false),
              Counters(0, 0, 0, 0, 0, 0, 0, 0),
              None, None, false, [])
  }

  function InitState(t: Trace): LaneState { Gather(t, ZeroState()) }

  /** The state after any sequence of driver calls. */
  function Run(t: Trace, ins: seq<Input>): LaneState {
    if ins == [] then InitState(t) else Step(t, Run(t, ins[..|ins| - 1]), ins[|ins| - 1])
  }

  /** The lane's bit in `bstm_refill_done_mask`. */
  predicate Done(s: LaneState) { s.eof && s.stage == [] && s.fstate == Correct }

  /** The lane's bit in `bstm_refill_starved_mask`. */
  predicate IsStarved(s: LaneState) { s.fstate == Starved && s.stage == [] }

  /** The return code of `bstm_refill_check` for an active lane. */
  function Check(t: Trace, s: LaneState, atEof: bool): nat {
    var inFlight := if s.fstate == Correct then 0 else 1;
    if s.n.nEnter != s.n.nLeave + inFlight then 1
    else if s.n.cpConsumed + s.n.wpConsumed != s.n.consumed then 1
    else if atEof && s.n.cpConsumed != t.nRecords then 1
    else 0
  }

  // ---- the observer's protocol: an independent description of legal logs ----

  /** Uop of correct-path record `i`. */
  function CpUop(t: Trace, i: nat): Uop {
    var p := CpPos(t, i);
    DecodeUop(t, CursorAt(p), t.recAt(p.recByte))
  }

  /** The cursor after `m` records of the shadow of the branch at `br`. */
  function ShadowAt(t: Trace, br: Pos, m: nat): Option<Cursor> {
    if m == 0 then
      match EnterShadow(t, CursorAt(br))
      case None => None
      case Some(c) => Some(c.(sv := ZERO_POS))
    else
      match ShadowAt(t, br, m - 1)
      case None => None
      case Some(c) => if Peek(t, c).None? then None else Some(AdvanceOne(t, c))
  }

  /** Uop of the `m`-th record of the shadow of the branch at `br`, if it has one. */
  function ShadowUop(t: Trace, br: Pos, m: nat): Option<Uop> {
    match ShadowAt(t, br, m)
    case None => None
    case Some(c) =>
      match Peek(t, c)
      case None => None
      case Some(r) => Some(DecodeUop(t, c, r))
  }

  /** Where a log has got to: how many correct-path records were delivered, and,
      while speculating, on which branch and how far into its shadow. */
  datatype Mode = OnPath | Speculating(br: Pos, m: nat)
  datatype Progress = Progress(delivered: nat, mode: Mode, lastBranch: nat)

  ghost predicate IsBranch(t: Trace, p: Pos) {
    exists i: nat :: i < t.nRecords && CpPos(t, i) == p && RecHasShadow(t.recAt(p.recByte))
  }

  /** The protocol.  Correct-path uops are the trace records in order, and while
      speculating they come before the first wrong-path uop; wrong-path uops are the
      shadow of the entered branch in order; branches strictly advance. */
  ghost function Observe(t: Trace, g: Progress, e: Event): Option<Progress> {
    match e
    case Deliver(u) =>
      if IsWrong(u) then
        if g.mode.Speculating? && ShadowUop(t, g.mode.br, g.mode.m) == Some(u)
        then Some(g.(mode := g.mode.(m := g.mode.m + 1)))
        else None
      else
        if g.delivered < t.nRecords && u == CpUop(t, g.delivered) &&
           (g.mode.OnPath? || g.mode.m == 0)
        then Some(g.(delivered := g.delivered + 1))
        else None
    case Enter(br) =>
      if g.mode.OnPath? && IsBranch(t, br) && g.lastBranch < br.recByte
      then Some(g.(mode := Speculating(br, 0), lastBranch := br.recByte))
      else None
    case Leave =>
      if g.mode.Speculating? then Some(g.(mode := OnPath)) else None
  }

  ghost function Protocol(t: Trace, log: seq<Event>): Option<Progress> {
    if log == [] then Some(Progress(0, OnPath, 0))
    else
      match Protocol(t, log[..|log| - 1])
      case None => None
      case Some(g) => Observe(t, g, log[|log| - 1])
  }
}
