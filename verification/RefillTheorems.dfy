/** What the protocol and the invariant promise the user of a lane: nothing lost,
    nothing repeated, no correct-path uop after a wrong-path one. */
module RefillTheorems {
  import opened Arith
  import opened BstfReader
  import opened RefillSpec
  import opened RefillProofs

  /** The correct-path uops of a log, in order. */
  function CorrectUops(log: seq<Event>): seq<Uop> {
    if log == [] then []
    else
      var e := log[|log| - 1];
      CorrectUops(log[..|log| - 1]) + (if e.Deliver? && !IsWrong(e.uop) then [e.uop] else [])
  }

  function TraceUops(t: Trace, n: nat): seq<Uop> { seq(n, i requires i >= 0 => CpUop(t, i)) }

  predicate IsDelivery(e: Event, wrong: bool) { e.Deliver? && IsWrong(e.uop) == wrong }

  /** Any log the protocol accepts delivers the first records of the trace, each once
      and in order, whatever was speculated in between. */
  lemma {:induction false} ProtocolDeliversInOrder(t: Trace, log: seq<Event>)
    requires Protocol(t, log).Some?
    ensures CorrectUops(log) == TraceUops(t, Protocol(t, log).value.delivered)
    ensures Protocol(t, log).value.delivered <= t.nRecords
    decreases |log|
  {
    hide CpUop; hide ShadowUop; hide IsBranch;
    if log != [] {
      ProtocolDeliversInOrder(t, log[..|log| - 1]);
    }
  }

  /** No correct-path uop follows a wrong-path one without a flush in between. */
  lemma {:induction false} WrongThenCorrectNeedsLeave(t: Trace, log: seq<Event>, i: nat, j: nat)
    requires Protocol(t, log).Some?
    requires i < j < |log| && IsDelivery(log[i], true) && IsDelivery(log[j], false)
    ensures exists k :: i < k < j && log[k] == Leave
    decreases |log|
  {
    hide CpUop; hide ShadowUop; hide IsBranch;
    var p := log[..|log| - 1];
    assert Protocol(t, p).Some?;
    if j < |p| {
      WrongThenCorrectNeedsLeave(t, p, i, j);
      var k :| i < k < j && p[k] == Leave;
      assert log[k] == Leave;
    } else if !exists k :: i < k < j && log[k] == Leave {
      SinceWrong(t, p, i);
    }
  }

  /** After a wrong-path uop and no flush, the log is still inside that shadow. */
  lemma {:induction false} SinceWrong(t: Trace, log: seq<Event>, i: nat)
    requires Protocol(t, log).Some?
    requires i < |log| && IsDelivery(log[i], true)
    requires forall k :: i < k < |log| ==> log[k] != Leave
    ensures Protocol(t, log).value.mode.Speculating? && Protocol(t, log).value.mode.m > 0
    decreases |log|
  {
    hide CpUop; hide ShadowUop; hide IsBranch;
    var p := log[..|log| - 1];
    assert Protocol(t, p).Some?;
    if i < |p| {
      assert forall k :: i < k < |p| ==> p[k] == log[k];
      SinceWrong(t, p, i);
    }
  }

  /** Main theorem.  Whatever the timing model takes and however it redirects, no hard
      assertion fires, staging stays within its bound, the log is a legal one, and the
      correct-path uops handed over are exactly records 0 .. cpConsumed - 1. */
  lemma {:induction false} EveryRunIsExact(t: Trace, ins: seq<Input>)
    requires ValidTrace(t)
    ensures var s := Run(t, ins);
            && !s.aborted
            && |s.stage| <= REFILL_M
            && Protocol(t, s.log).Some?
            && CorrectUops(s.log) == TraceUops(t, s.n.cpConsumed)
            && s.n.cpConsumed <= t.nRecords
  {
    hide Run;
    RunKeeps(t, ins);
    ProtocolDeliversInOrder(t, Run(t, ins).log);
  }

  /** The bookkeeping invariant, read off any reachable state.  Staging is the next
      correct-path records in order, then wrong-path entries only; what was delivered plus
      that prefix is where the cursor stands, or where it will resume. */
  lemma {:induction false} StagingContinuesDelivery(t: Trace, ins: seq<Input>)
    requires ValidTrace(t)
    ensures var s := Run(t, ins); var k := PrefixLen(s.stage);
            && s.n.cpConsumed + k <= t.nRecords
            && (forall i :: 0 <= i < k ==> s.stage[i].ent.uop == CpUop(t, s.n.cpConsumed + i))
            && (forall i :: k <= i < |s.stage| ==> IsWrong(s.stage[i].ent.uop))
            && (s.fstate == Correct ==> k == |s.stage|)
            && (if s.fstate == Correct then s.cur.pos else s.cur.sv) == CpPos(t, s.n.cpConsumed + k)
            && (s.fstate != Correct ==> s.cur.inShadow && s.books.hiResume == s.cur.sv.recByte)
  {
    hide Run; hide CpPos; hide CpUop; hide Protocol; hide ShadowAt; hide ShadowUop;
    RunKeeps(t, ins);
    var s := Run(t, ins);
    var k, g := PrefixLen(s.stage), Protocol(t, s.log).value;
    forall i | 0 <= i < k
      ensures s.stage[i].ent.uop == CpUop(t, s.n.cpConsumed + i)
    {
      assert CpSlot(t, s, s.stage[i], s.n.cpConsumed + i);
    }
    forall i | k <= i < |s.stage|
      ensures IsWrong(s.stage[i].ent.uop)
    {
      assert WpSlot(t, g.mode.br, s.stage[i], g.mode.m + (i - k));
    }
  }

  /** The self-check passes in every reachable state; with `atEof` it passes exactly if the
      whole trace has been delivered, which is so once the lane's done bit is set. */
  lemma {:induction false} CheckAlwaysPasses(t: Trace, ins: seq<Input>)
    requires ValidTrace(t)
    ensures var s := Run(t, ins);
            && Check(t, s, false) == 0
            && (Check(t, s, true) == 0 <==> CorrectUops(s.log) == TraceUops(t, t.nRecords))
            && (Done(s) ==> Check(t, s, true) == 0)
  {
    hide Run; hide Protocol; hide CpPos; hide ShadowAt;
    RunKeeps(t, ins);
    EveryRunIsExact(t, ins);
  }

  /** In any state, reachable or not, the check reports a speculation that was opened without
      being closed, a uop that was counted on neither path or on both, and, at the end of the
      trace, a correct-path record that was lost or repeated. */
  lemma {:induction false} CheckReports(t: Trace, s: LaneState, atEof: bool)
    ensures Check(t, s, atEof) == 0
            <==> && s.n.nEnter - s.n.nLeave == (if s.fstate == Correct then 0 else 1)
                 && s.n.consumed == s.n.cpConsumed + s.n.wpConsumed
                 && (atEof ==> s.n.cpConsumed == t.nRecords)
  {
  }

  /** A window shows a lane on the correct path all it can: its next W entries, or every record
      that is left; so it shows something unless the lane is done. */
  lemma {:induction false} WindowNeverStalls(t: Trace, ins: seq<Input>)
    requires ValidTrace(t)
    ensures var s := Step(t, Run(t, ins), Window);
            s.fstate == Correct ==>
              && (|s.stage| >= W || (s.eof && s.n.cpConsumed + |s.stage| == t.nRecords))
              && (Done(s) || |s.stage| > 0)
  {
    hide Run; hide Protocol; hide CpPos; hide RecByte;
    var s := Run(t, ins);
    RunKeeps(t, ins);
    StepKeeps(t, s, Window);
    GatherFills(t, s);
    hide Gather;
  }

  /** Gather stops only with a full buffer or without a record to read, and says which. */
  lemma {:induction false} GatherFills(t: Trace, s: LaneState)
    ensures var s' := Gather(t, s);
            || |s'.stage| >= REFILL_M
            || (s'.fstate == Correct && s'.eof)
            || s'.fstate == Starved
    ensures Gather(t, s).fstate == Correct <==> s.fstate == Correct
    decreases REFILL_M - |s.stage|
  {
    hide SlotAt; hide AdvanceN;
    if |s.stage| < REFILL_M && Peek(t, s.cur).Some? {
      GatherFills(t, GatherOne(t, s, Peek(t, s.cur).value));
    }
  }

  // ---- the shadow ----

  /** The record of the branch at `br`. */
  function BranchRec(t: Trace, br: Pos): Rec { t.recAt(br.recByte) }

  /** After `m` records the shadow cursor is `m` records on, with the rest still to come,
      and its event index has not left the block range of this misprediction. */
  lemma {:induction false} ShadowCursorAt(t: Trace, br: Pos, m: nat)
    requires ShadowAt(t, br, m).Some?
    ensures var c := ShadowAt(t, br, m).value; var r := BranchRec(t, br);
            && c.inShadow
            && m <= r.shadowLen
            && c.shadowLeft == r.shadowLen - m
            && c.pos.recByte == r.shadowOff + m * t.recBytes
            && (m == 0 ==> c.wpFeBlk == 0)
            && (t.feWpDepth > 0 ==> c.wpFeBlk < t.feWpDepth)
            && ShadowAt(t, br, 0).Some?
            && c.wpFeBase == ShadowAt(t, br, 0).value.wpFeBase
  {
    if m > 0 {
      ShadowCursorAt(t, br, m - 1);
      assert m * t.recBytes == (m - 1) * t.recBytes + t.recBytes;
    }
  }

  ghost predicate ShadowInFile(t: Trace, br: Pos) {
    BranchRec(t, br).shadowOff + BranchRec(t, br).shadowLen * t.recBytes <= t.mapLen
  }

  /** A lane starves only when every record of the shadow has been staged: with an
      empty buffer the model has then seen the whole shadow. */
  lemma {:induction false} StarvedMeansWholeShadow(t: Trace, ins: seq<Input>)
    requires ValidTrace(t) && Run(t, ins).fstate == Starved
    requires forall br: Pos :: IsBranch(t, br) ==> ShadowInFile(t, br)
    ensures var s := Run(t, ins); var g := Protocol(t, s.log);
            && g.Some? && g.value.mode.Speculating?
            && IsBranch(t, g.value.mode.br)
            && g.value.mode.m + (|s.stage| - PrefixLen(s.stage)) == BranchRec(t, g.value.mode.br).shadowLen
            && (IsStarved(s) ==> g.value.mode.m == BranchRec(t, g.value.mode.br).shadowLen)
  {
    hide Run; hide CpPos; hide ShadowAt;
    RunKeeps(t, ins);
    var s := Run(t, ins);
    var g := Protocol(t, s.log).value;
    SpeculatesOnBranch(t, s.log);
    var br, n := g.mode.br, g.mode.m + (|s.stage| - PrefixLen(s.stage));
    ShadowCursorAt(t, br, n);
    if n < BranchRec(t, br).shadowLen { ShadowPeeks(t, br, n); }
    StripIrrelevant(t, s.cur, BranchRec(t, br));
  }

  /** A shadow that lies in the file can be read up to its last record. */
  lemma {:induction false} ShadowPeeks(t: Trace, br: Pos, n: nat)
    requires ShadowAt(t, br, n).Some? && ShadowInFile(t, br) && n < BranchRec(t, br).shadowLen
    ensures Peek(t, ShadowAt(t, br, n).value).Some?
  {
    ShadowCursorAt(t, br, n);
    MulMono(n + 1, BranchRec(t, br).shadowLen, t.recBytes);
    assert (n + 1) * t.recBytes == n * t.recBytes + t.recBytes;
  }

  lemma {:induction false} SpeculatesOnBranch(t: Trace, log: seq<Event>)
    requires Protocol(t, log).Some? && Protocol(t, log).value.mode.Speculating?
    ensures IsBranch(t, Protocol(t, log).value.mode.br)
    decreases |log|
  {
    hide CpUop; hide ShadowUop; hide IsBranch;
    if log != [] && !log[|log| - 1].Enter? {
      SpeculatesOnBranch(t, log[..|log| - 1]);
    }
  }

  /** The one case the supply is cut short: while speculating, a window that runs low is
      refilled (or the lane reports starvation) exactly when the end-of-trace flag was
      clear; with the flag set the window call changes nothing at all. */
  lemma {:induction false} SupplyStopsIffEof(t: Trace, ins: seq<Input>)
    requires ValidTrace(t)
    requires var s := Run(t, ins); s.fstate == Shadow && |s.stage| < W
    ensures var s := Run(t, ins); var s' := Step(t, s, Window);
            && ((|s'.stage| >= W || s'.fstate == Starved) <==> !s.eof)
            && (s.eof ==> s' == s)
  {
    hide Run;
    GatherFills(t, Run(t, ins));
  }

  /** In a separate overlay of depth D, every wrong-path event read for the shadow that
      starts at shadow record k * stride falls in [k * D, (k + 1) * D). */
  lemma {:induction false} WrongPathEventInRange(t: Trace, br: Pos, k: nat, m: nat)
    requires ValidTrace(t) && t.feWpDepth > 0 && t.shadowStride > 0 && t.shadowOffset > 0
    requires BranchRec(t, br).shadowOff == t.shadowOffset + (k * t.shadowStride) * t.recBytes
    requires ShadowAt(t, br, m).Some?
    ensures var c := ShadowAt(t, br, m).value;
            k * t.feWpDepth <= c.wpFeBase + c.wpFeBlk < (k + 1) * t.feWpDepth
  {
    ShadowCursorAt(t, br, m);
    var c0 := ShadowAt(t, br, 0).value;
    DivExact(k * t.shadowStride, t.recBytes);
    DivExact(k, t.shadowStride);
    assert c0.wpIdx == k * t.shadowStride;
    assert c0.wpFeBase == k * t.feWpDepth;
    assert (k + 1) * t.feWpDepth == k * t.feWpDepth + t.feWpDepth;
  }
}
