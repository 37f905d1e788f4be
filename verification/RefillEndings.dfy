/** How a lane ends: a driver that flushes and keeps taking finishes the trace, and a driver
    that speculates past the end of the trace can cut its own supply. */
module RefillEndings {
  import opened Arith
  import opened BstfReader
  import opened Options
  import opened RefillSpec
  import opened RefillProofs
  import opened RefillTheorems

  // ---- completion ----

  /** Window calls, each followed by a take without redirect. */
  function Rounds(takes: seq<nat>): seq<Input> {
    if takes == [] then [] else [Window, Consume(takes[0], false, false)] + Rounds(takes[1..])
  }

  function Round(t: Trace, s: LaneState, take: nat): LaneState {
    Step(t, Step(t, s, Window), Consume(take, false, false))
  }

  lemma {:induction false} RunRound(t: Trace, ins: seq<Input>, take: nat)
    ensures Run(t, ins + [Window, Consume(take, false, false)]) == Round(t, Run(t, ins), take)
  {
    hide Step;
    var i1 := ins + [Window];
    var i2 := ins + [Window, Consume(take, false, false)];
    assert i2[..|i2| - 1] == i1 && i1[..|i1| - 1] == ins;
  }

  lemma {:induction false} TakeCorrectOnly(s: LaneState, n: nat)
    requires n <= |s.stage| && forall j :: 0 <= j < |s.stage| ==> !IsWrong(s.stage[j].ent.uop)
    ensures var s' := TakeN(s, n);
            && s'.n.cpConsumed == s.n.cpConsumed + n && s'.stage == s.stage[n..]
            && s'.fstate == s.fstate && s'.eof == s.eof
    decreases n
  {
    if n != 0 { TakeCorrectOnly(TakeOne(s), n - 1); }
  }

  /** A round on the correct path finishes, or delivers at least one record. */
  lemma {:induction false} RoundProgress(t: Trace, ins: seq<Input>, take: nat)
    requires ValidTrace(t) && take >= 1 && Run(t, ins).fstate == Correct
    ensures var s := Run(t, ins); var s' := Round(t, s, take);
            && s'.fstate == Correct
            && (Done(s') || s'.n.cpConsumed > s.n.cpConsumed)
            && (Done(s) ==> Done(s'))
  {
    hide Run; hide Gather; hide Inv; hide TakeN;
    var s := Run(t, ins);
    var m := Step(t, s, Window);
    RunKeeps(t, ins);
    StepKeeps(t, s, Window);
    WindowNeverStalls(t, ins);
    GatherFills(t, s);
    GatherCounts(t, s);
    AllCorrect(t, m);
    TakeCorrectOnly(m.(brConsumed := None, lastDeliv := None), Min(take, |m.stage|));
  }

  lemma {:induction false} GatherCounts(t: Trace, s: LaneState)
    ensures Gather(t, s).n.cpConsumed == s.n.cpConsumed && Gather(t, s).books == s.books
    ensures Gather(t, s).n.nEnter == s.n.nEnter
    ensures |s.stage| <= |Gather(t, s).stage| && forall j :: 0 <= j < |s.stage| ==> Gather(t, s).stage[j] == s.stage[j]
    decreases REFILL_M - |s.stage|
  {
    hide SlotAt; hide AdvanceN;
    if |s.stage| < REFILL_M && Peek(t, s.cur).Some? {
      GatherCounts(t, GatherOne(t, s, Peek(t, s.cur).value));
    }
  }

  /** On the correct path only correct-path records are staged. */
  lemma {:induction false} AllCorrect(t: Trace, s: LaneState)
    requires Inv(t, s) && s.fstate == Correct
    ensures forall j :: 0 <= j < |s.stage| ==> !IsWrong(s.stage[j].ent.uop)
    ensures s.n.cpConsumed + |s.stage| <= t.nRecords
  {
    hide Protocol; hide CpPos; hide CpUop; hide RecByte;
  }

  lemma {:induction false} RoundsFinish(t: Trace, ins: seq<Input>, takes: seq<nat>)
    requires ValidTrace(t) && Run(t, ins).fstate == Correct
    requires forall k :: 0 <= k < |takes| ==> takes[k] >= 1
    requires Done(Run(t, ins)) || |takes| > t.nRecords - Run(t, ins).n.cpConsumed
    ensures Done(Run(t, ins + Rounds(takes)))
    decreases |takes|
  {
    hide Run; hide Round;
    EveryRunIsExact(t, ins);
    if takes == [] {
      assert ins + [] == ins;
    } else {
      var next := ins + [Window, Consume(takes[0], false, false)];
      RunRound(t, ins, takes[0]);
      RoundProgress(t, ins, takes[0]);
      RoundsFinish(t, next, takes[1..]);
      assert ins + Rounds(takes) == next + Rounds(takes[1..]);
    }
  }

  /** Completion.  From every reachable state a flush, and then as many windows with takes of
      at least one as records are missing and one more, end the trace: the lane is done and
      has delivered every record exactly once and in order. */
  lemma {:induction false} FlushThenTakesComplete(t: Trace, ins: seq<Input>, take: nat, takes: seq<nat>)
    requires ValidTrace(t)
    requires forall k :: 0 <= k < |takes| ==> takes[k] >= 1
    requires |takes| > t.nRecords - Run(t, ins + [Consume(take, true, false)]).n.cpConsumed
    ensures var s := Run(t, ins + [Consume(take, true, false)] + Rounds(takes));
            Done(s) && CorrectUops(s.log) == TraceUops(t, t.nRecords)
  {
    hide Run; hide Done; hide CorrectUops; hide TraceUops;
    FlushReturns(t, ins, take);
    var next := ins + [Consume(take, true, false)];
    RoundsFinish(t, next, takes);
    CheckAlwaysPasses(t, next + Rounds(takes));
  }

  lemma {:induction false} FlushReturns(t: Trace, ins: seq<Input>, take: nat)
    requires ValidTrace(t)
    ensures Run(t, ins + [Consume(take, true, false)]).fstate == Correct
  {
    hide Gather; hide ConsumeTake;
    var next := ins + [Consume(take, true, false)];
    assert next[..|ins|] == ins;
    var s1 := ConsumeTake(Run(t, ins), take);
    EveryRunIsExact(t, next);
    GatherFills(t, LaneLeave(s1));
  }

  // ---- supply cut short ----

  /** A short trace that opens with a branch whose shadow lies in the file and is longer
      than the staging buffer. */
  ghost predicate OpensWithLongShadow(t: Trace) {
    && ValidTrace(t) && 1 <= t.nRecords < REFILL_M
    && var r := t.recAt(HDR_BYTES);
       && r.shadowOff != 0 && r.shadowLen >= REFILL_M
       && r.shadowOff + r.shadowLen * t.recBytes <= t.mapLen
  }

  /** The bytes of `n` records. */
  function Span(t: Trace, n: nat): nat { n * t.recBytes }

  lemma {:induction false} SpanStep(t: Trace, n: nat)
    requires n > 0
    ensures Span(t, n) == Span(t, n - 1) + t.recBytes
  {
  }

  /** A shadow long enough fills staging and does not starve. */
  lemma {:induction false} ShadowFills(t: Trace, s: LaneState)
    requires s.fstate == Shadow && s.cur.inShadow && |s.stage| <= REFILL_M
    requires s.cur.shadowLeft >= REFILL_M - |s.stage|
    requires s.cur.pos.recByte + Span(t, REFILL_M - |s.stage|) <= t.mapLen
    ensures var s' := Gather(t, s);
            && |s'.stage| == REFILL_M && s'.fstate == Shadow && s'.eof == s.eof
            && s'.cur.inShadow && s'.cur.shadowLeft == s.cur.shadowLeft - (REFILL_M - |s.stage|)
            && s'.cur.pos.recByte == s.cur.pos.recByte + Span(t, REFILL_M - |s.stage|)
    decreases REFILL_M - |s.stage|
  {
    hide SlotAt; hide AdvanceN; hide Span; hide EndsBlock;
    var left := REFILL_M - |s.stage|;
    if left > 0 {
      SpanStep(t, left);
      AdvanceOneN(t, s.cur);
      ShadowFills(t, GatherOne(t, s, Peek(t, s.cur).value));
    } else {
      NoSpan(t);
    }
  }

  lemma {:induction false} NoSpan(t: Trace)
    ensures Span(t, 0) == 0
  {
  }

  /** A trace shorter than staging is read to its end at once. */
  lemma {:induction false} OpensAtEnd(t: Trace)
    requires OpensWithLongShadow(t)
    ensures var s := InitState(t);
            && s.fstate == Correct && s.eof && |s.stage| > 0
            && s.stage[0] == SlotAt(t, CursorInit(), t.recAt(HDR_BYTES))
            && s.books == ZeroState().books && s.n.nEnter == 0
  {
    hide Gather; hide Inv; hide SlotAt;
    var z := ZeroState();
    InitKeeps(t);
    GatherFills(t, z);
    GatherCounts(t, z);
    AllCorrect(t, InitState(t));
    FirstRead(t, z);
  }

  lemma {:induction false} FirstRead(t: Trace, z: LaneState)
    requires OpensWithLongShadow(t) && z == ZeroState()
    ensures |Gather(t, z).stage| > 0 && Gather(t, z).stage[0] == SlotAt(t, CursorInit(), t.recAt(HDR_BYTES))
  {
    hide SlotAt; hide AdvanceN;
    CpAvail(t, 0);
    GatherCounts(t, GatherOne(t, z, t.recAt(HDR_BYTES)));
  }

  /** The redirect enters the shadow of the first record with the end flag still set. */
  lemma {:induction false} EntersAtEnd(t: Trace)
    requires OpensWithLongShadow(t)
    ensures var s := LaneEnter(t, ConsumeTake(InitState(t), 0));
            && !s.aborted && s.fstate == Shadow && s.eof && |s.stage| == 1
            && s.cur.inShadow && s.cur.shadowLeft == t.recAt(HDR_BYTES).shadowLen
            && s.cur.pos.recByte == t.recAt(HDR_BYTES).shadowOff
  {
    hide InitState; hide AdvanceN; hide DecodeUop;
    OpensAtEnd(t);
    EveryRunIsExact(t, []);
    CpAvail(t, 0);
    var len := t.recAt(HDR_BYTES).shadowLen;
    assert len * t.recBytes >= t.recBytes by { MulMono(1, len, t.recBytes); }
  }

  lemma {:induction false} TakeKeepsFlags(s: LaneState, n: nat)
    requires n <= |s.stage|
    ensures var s' := TakeN(s, n);
            |s'.stage| == |s.stage| - n && s'.fstate == s.fstate && s'.eof == s.eof && s'.cur == s.cur
    decreases n
  {
    if n != 0 { TakeKeepsFlags(TakeOne(s), n - 1); }
  }

  function Sum(ks: seq<nat>): nat { if ks == [] then 0 else ks[0] + Sum(ks[1..]) }

  /** Rounds only drain a lane that speculates with the end flag set. */
  lemma {:induction false} RoundsDrain(t: Trace, ins: seq<Input>, takes: seq<nat>)
    requires Run(t, ins).fstate == Shadow && Run(t, ins).eof
    ensures var s, s' := Run(t, ins), Run(t, ins + Rounds(takes));
            && s'.fstate == Shadow && s'.eof && s'.cur == s.cur
            && |s'.stage| == if Sum(takes) >= |s.stage| then 0 else |s.stage| - Sum(takes)
    decreases |takes|
  {
    hide Run; hide TakeN; hide Gather;
    if takes == [] {
      assert ins + [] == ins;
    } else {
      var next := ins + [Window, Consume(takes[0], false, false)];
      RunRound(t, ins, takes[0]);
      var s := Run(t, ins);
      TakeKeepsFlags(s.(brConsumed := None, lastDeliv := None), Min(takes[0], |s.stage|));
      RoundsDrain(t, next, takes[1..]);
      assert ins + Rounds(takes) == next + Rounds(takes[1..]);
    }
  }

  /** The end flag does get set in a shadow: on every such trace, a redirect in the first
      cycle and then any takes that leave less than a window, over as many cycles as it takes
      with at most seven a call, make a lane that is neither starved nor done, has shadow
      records left, and is not refilled by any window call. */
  lemma {:induction false} SupplyCutShort(t: Trace, takes: seq<nat>)
    requires OpensWithLongShadow(t) && Sum(takes) > REFILL_M - W
    ensures var s := Run(t, [Window, Consume(0, true, true)] + Rounds(takes));
            && s.fstate == Shadow && s.eof && |s.stage| < W
            && !IsStarved(s) && !Done(s) && Peek(t, s.cur).Some?
            && Step(t, s, Window) == s
  {
    hide InitState; hide LaneEnter; hide Gather; hide TakeN; hide DecodeUop;
    var i1 := [Window, Consume(0, true, true)];
    ShadowOpened(t);
    RoundsDrain(t, i1, takes);
  }

  /** After the redirect staging is full of shadow records, and there are more. */
  lemma {:induction false} ShadowOpened(t: Trace)
    requires OpensWithLongShadow(t)
    ensures var s := Run(t, [Window, Consume(0, true, true)]);
            s.fstate == Shadow && s.eof && |s.stage| == REFILL_M && Peek(t, s.cur).Some?
  {
    hide InitState; hide LaneEnter; hide Gather; hide TakeN; hide DecodeUop;
    var i0: seq<Input> := [];
    var i1 := [Window, Consume(0, true, true)];
    assert i1[..1] == [Window] && [Window][..0] == i0;
    OpensAtEnd(t);
    EntersAtEnd(t);
    var s1 := LaneEnter(t, ConsumeTake(InitState(t), 0));
    var r := t.recAt(HDR_BYTES);
    MulMono(REFILL_M, r.shadowLen, t.recBytes);
    SpanStep(t, REFILL_M);
    ShadowFills(t, s1);
    assert Run(t, [Window]) == InitState(t);
    assert Run(t, i1) == Gather(t, s1);
  }
}
