/** Which branch a redirect enters (lib/runtime/refill.c:212-255), told from what is staged,
    what was taken and what the timing model has seen, and what every other call adds to
    that. */
module RefillRedirect {
  import opened Options
  import opened BstfReader
  import opened RefillLane
  import opened RefillSpec
  import opened RefillProofs
  import opened RefillTheorems

  // ---- what the log remembers ----

  /** The branch entered last. */
  function LastEntered(log: seq<Event>): Option<Pos> {
    if log == [] then None
    else
      var e := log[|log| - 1];
      if e.Enter? then Some(e.branch) else LastEntered(log[..|log| - 1])
  }

  /** The branch left last: the one that was being speculated on at the last flush. */
  function LastLeft(log: seq<Event>): Option<Pos> {
    if log == [] then None
    else if log[|log| - 1] == Leave then LastEntered(log[..|log| - 1])
    else LastLeft(log[..|log| - 1])
  }

  datatype Kind = Correctly | Wrongly | Entering | Leaving

  predicate Is(e: Event, k: Kind) {
    match k
    case Correctly => IsDelivery(e, false)
    case Wrongly => IsDelivery(e, true)
    case Entering => e.Enter?
    case Leaving => e == Leave
  }

  function Count(log: seq<Event>, k: Kind): nat {
    if log == [] then 0 else Count(log[..|log| - 1], k) + (if Is(log[|log| - 1], k) then 1 else 0)
  }

  lemma {:induction false} Snoc(log: seq<Event>, e: Event)
    ensures LastEntered(log + [e]) == if e.Enter? then Some(e.branch) else LastEntered(log)
    ensures LastLeft(log + [e]) == if e == Leave then LastEntered(log) else LastLeft(log)
    ensures forall k :: Count(log + [e], k) == Count(log, k) + (if Is(e, k) then 1 else 0)
  {
    assert (log + [e])[..|log|] == log;
  }

  /** The lane's books and counters, as a reading of the log. */
  ghost predicate Remembers(s: LaneState) {
    && (s.books.resolvedValid <==> LastLeft(s.log).Some?)
    && (s.books.resolvedValid ==> s.books.resolvedFe == LastLeft(s.log).value.feIdx)
    && (s.fstate != Correct ==> LastEntered(s.log).Some? && s.books.lastBr.pos.feIdx == LastEntered(s.log).value.feIdx)
    && (s.books.hasLastBr <==> LastEntered(s.log).Some?)
    && s.books.hiBranch == (if LastEntered(s.log).Some? then LastEntered(s.log).value.recByte else 0)
    && s.n.cpConsumed == Count(s.log, Correctly) && s.n.wpConsumed == Count(s.log, Wrongly)
    && s.n.nEnter == Count(s.log, Entering) && s.n.nLeave == Count(s.log, Leaving)
  }

  // ---- the marks in staging ----

  ghost predicate FirstMarked(stage: seq<Slot>, i: nat) {
    i < |stage| && stage[i].ent.hasShadow && forall j :: 0 <= j < i ==> !stage[j].ent.hasShadow
  }

  ghost predicate LastMarked(stage: seq<Slot>, i: nat) {
    i < |stage| && stage[i].ent.hasShadow && forall j :: i < j < |stage| ==> !stage[j].ent.hasShadow
  }

  /** The first record of the shadow of the branch at `p` lies in the file. */
  predicate Readable(t: Trace, p: Pos) {
    t.recAt(p.recByte).shadowOff + t.recBytes <= t.mapLen
  }

  /** The branch of a redirect, `n` entries of `stage` having been taken in the same call: the
      first one still staged if its shadow can be read, or else the last one just taken. */
  ghost predicate Chosen(t: Trace, stage: seq<Slot>, n: nat, p: Pos)
    requires n <= |stage|
  {
    if exists i: nat :: FirstMarked(stage[n..], i) && Readable(t, stage[n + i].pos)
    then exists i: nat :: FirstMarked(stage[n..], i) && p == stage[n + i].pos
    else Readable(t, p) && exists i: nat :: LastMarked(stage[..n], i) && p == stage[i].pos
  }

  /** The head of what is left lies in the block of the branch left last: the request is one
      that was met already. */
  ghost predicate Answered(s: LaneState, n: nat)
    requires n <= |s.stage|
  {
    n < |s.stage| && LastLeft(s.log).Some? && s.stage[n].pos.feIdx == LastLeft(s.log).value.feIdx
  }

  function Deliveries(stage: seq<Slot>): seq<Event> {
    seq(|stage|, i requires 0 <= i < |stage| => Deliver(stage[i].ent.uop))
  }

  // ---- taking ----

  /** The mark that taking the first `n` entries leaves behind. */
  ghost predicate TakenMark(stage: seq<Slot>, n: nat, br: Option<Pos>)
    requires n <= |stage|
  {
    && (br.Some? <==> exists i: nat :: LastMarked(stage[..n], i))
    && forall i: nat :: LastMarked(stage[..n], i) ==> br == Some(stage[i].pos)
  }

  lemma {:induction false} TakenMarkNext(stage: seq<Slot>, n: nat, br: Option<Pos>)
    requires n < |stage| && TakenMark(stage, n, br)
    ensures TakenMark(stage, n + 1, if stage[n].ent.hasShadow then Some(stage[n].pos) else br)
  {
    var a, b := stage[..n], stage[..n + 1];
    assert forall j :: 0 <= j < n ==> b[j] == a[j];
    if stage[n].ent.hasShadow {
      assert LastMarked(b, n);
      forall i: nat | LastMarked(b, i) ensures i == n { }
    } else {
      forall i: nat ensures LastMarked(b, i) <==> LastMarked(a, i) { }
    }
  }

  lemma {:induction false} NoneTaken(stage: seq<Slot>)
    ensures TakenMark(stage, 0, None)
  {
  }

  lemma {:induction false} DeliveriesNext(stage: seq<Slot>, n: nat)
    requires n < |stage|
    ensures Deliveries(stage[..n + 1]) == Deliveries(stage[..n]) + [Deliver(stage[n].ent.uop)]
  {
  }

  /** Taking the first `n` entries hands over their uops, in order, and nothing else. */
  lemma {:induction false} TakeNIs(s: LaneState, n: nat)
    requires n <= |s.stage|
    ensures var r := TakeN(s, n);
            && r.stage == s.stage[n..]
            && r.log == s.log + Deliveries(s.stage[..n])
            && r == s.(stage := r.stage, log := r.log, brConsumed := r.brConsumed, lastDeliv := r.lastDeliv,
                       n := s.n.(cpConsumed := r.n.cpConsumed, wpConsumed := r.n.wpConsumed, consumed := s.n.consumed + n))
    decreases n
  {
    hide TakeN; hide Deliveries;
    TakeNZero(s);
    if n > 0 {
      TakeNIs(s, n - 1);
      TakeNSnoc(s, n - 1);
      assert s.stage[n - 1..][1..] == s.stage[n..];
      DeliveriesNext(s.stage, n - 1);
    } else {
      assert Deliveries(s.stage[..0]) == [] by { NoDeliveries(s.stage); }
    }
  }

  lemma {:induction false} NoDeliveries(stage: seq<Slot>)
    ensures Deliveries(stage[..0]) == []
  {
  }

  /** Off the shadow, the lane remembers the last branch it handed over. */
  lemma {:induction false} TakeNMark(s: LaneState, n: nat)
    requires n <= |s.stage| && s.brConsumed.None?
    requires forall j :: 0 <= j < n ==> !IsWrong(s.stage[j].ent.uop)
    ensures TakenMark(s.stage, n, TakeN(s, n).brConsumed)
    decreases n
  {
    hide TakenMark; hide TakeN;
    NoneTaken(s.stage);
    TakeNZero(s);
    if n > 0 {
      TakeNMark(s, n - 1);
      TakeNIs(s, n - 1);
      TakeNSnoc(s, n - 1);
      TakenMarkNext(s.stage, n - 1, TakeN(s, n - 1).brConsumed);
    }
  }

  // ---- the books are kept ----

  lemma {:induction false} GatherBooks(t: Trace, s: LaneState)
    ensures var r := Gather(t, s);
            && r == s.(stage := r.stage, cur := r.cur, eof := r.eof, fstate := r.fstate,
                       n := s.n.(nStarve := s.n.nStarve + (if s.fstate == Shadow && r.fstate == Starved then 1 else 0)))
            && (r.fstate == Correct <==> s.fstate == Correct) && (s.fstate == Starved ==> r.fstate == Starved)
    decreases REFILL_M - |s.stage|
  {
    hide SlotAt; hide AdvanceN;
    if |s.stage| < REFILL_M && Peek(t, s.cur).Some? {
      GatherBooks(t, GatherOne(t, s, Peek(t, s.cur).value));
    }
  }

  lemma {:induction false} TakeBooks(s: LaneState, n: nat)
    requires n <= |s.stage| && Remembers(s)
    ensures Remembers(TakeN(s, n))
    decreases n
  {
    hide TakeN; hide LastEntered; hide LastLeft; hide Count;
    TakeNZero(s);
    if n > 0 {
      TakeBooks(s, n - 1);
      TakeNSnoc(s, n - 1);
      var r := TakeN(s, n - 1);
      Snoc(r.log, Deliver(r.stage[0].ent.uop));
    }
  }

  lemma {:induction false} EnterBooks(t: Trace, s: LaneState, br: Pos, resumeAfter: Option<Pos>)
    requires Remembers(s) && s.fstate == Correct && DoEnter(t, s, br, resumeAfter).Entered?
    ensures Remembers(DoEnter(t, s, br, resumeAfter).s)
  {
    hide LastEntered; hide LastLeft; hide Count; hide AdvanceN;
    Snoc(s.log, Enter(br));
  }

  lemma {:induction false} StepBooks(t: Trace, s: LaneState, i: Input)
    requires Remembers(s)
    ensures Remembers(Step(t, s, i))
  {
    hide Gather; hide TakeN; hide LastEntered; hide LastLeft; hide Count; hide DoEnter; hide LeaveShadow;
    match i
    case Window => GatherBooks(t, s);
    case Consume(take, redirect, redirShadow) =>
      var s0 := s.(brConsumed := None, lastDeliv := None);
      TakeBooks(s0, Min(take, |s.stage|));
      var s1 := ConsumeTake(s, take);
      if redirect {
        Snoc(s1.log, Leave);
        GatherBooks(t, if redirShadow then LaneEnter(t, s1) else LaneLeave(s1));
        if redirShadow && s1.fstate == Correct { EntersBooks(t, s1); }
      }
  }

  lemma {:induction false} EntersBooks(t: Trace, s: LaneState)
    requires Remembers(s) && s.fstate == Correct
    ensures Remembers(LaneEnter(t, s))
  {
    hide LastEntered; hide LastLeft; hide Count; hide DoEnter;
    var i := FirstShadow(s.stage);
    if i < |s.stage| && DoEnter(t, s, s.stage[i].pos, None).Entered? { EnterBooks(t, s, s.stage[i].pos, None); }
    if s.brConsumed.Some? && DoEnter(t, s, s.brConsumed.value, s.lastDeliv).Entered? {
      EnterBooks(t, s, s.brConsumed.value, s.lastDeliv);
    }
  }

  /** In every reachable state the books and the counters are what the log says: in
      particular a block counts as resolved exactly if its branch was the last one left. */
  lemma {:induction false} RunRemembers(t: Trace, ins: seq<Input>)
    ensures Remembers(Run(t, ins))
    decreases |ins|
  {
    hide Gather;
    if ins == [] {
      GatherBooks(t, ZeroState());
    } else {
      RunRemembers(t, ins[..|ins| - 1]);
      StepBooks(t, Run(t, ins[..|ins| - 1]), ins[|ins| - 1]);
    }
  }

  // ---- which branch ----

  lemma {:induction false} FirstMarkedIs(stage: seq<Slot>, i: nat)
    ensures FirstMarked(stage, i) <==> i == FirstShadow(stage) < |stage|
  {
  }

  /** A record with a shadow can be entered exactly when the shadow begins in the file. */
  lemma {:induction false} OpensIff(t: Trace, b: nat)
    requires ValidTrace(t) && b < t.nRecords && RecHasShadow(t.recAt(CpPos(t, b).recByte))
    ensures EnterShadow(t, CursorAt(CpPos(t, b))).Some? <==> Readable(t, CpPos(t, b))
  {
    hide AdvanceN; hide CpPos;
    CpAvail(t, b);
  }

  /** The branch of a marked entry that is still staged, or of the one taken last. */
  lemma {:induction false} StagedOpens(t: Trace, s: LaneState, i: nat)
    requires ValidTrace(t) && Inv(t, s) && s.fstate == Correct && FirstMarked(s.stage, i)
    ensures var e := DoEnter(t, s, s.stage[i].pos, None);
            !e.Aborted? && (e.Entered? <==> Readable(t, s.stage[i].pos))
  {
    hide Protocol; hide ShadowAt; hide CpPos; hide CpUop; hide RecByte; hide EnterShadow;
    FirstMarkedIs(s.stage, i);
    EnterStagedKeeps(t, s, i);
    assert CpSlot(t, s, s.stage[i], s.n.cpConsumed + i);
    OpensIff(t, s.n.cpConsumed + i);
  }

  lemma {:induction false} TakenOpens(t: Trace, s: LaneState)
    requires ValidTrace(t) && Inv(t, s) && CycleOk(t, s) && s.fstate == Correct && s.brConsumed.Some?
    ensures var e := DoEnter(t, s, s.brConsumed.value, s.lastDeliv);
            !e.Aborted? && (e.Entered? <==> Readable(t, s.brConsumed.value))
  {
    hide Protocol; hide ShadowAt; hide CpPos; hide CpUop; hide RecByte; hide EnterShadow; hide AdvanceN;
    EnterConsumedKeeps(t, s);
    var b: nat :| b < s.n.cpConsumed && CpPos(t, b) == s.brConsumed.value;
    OpensIff(t, b);
    assert s.n.cpConsumed + PrefixLen(s.stage) <= t.nRecords;
  }

  /** The branch a redirect goes to, when `n` of the entries `before` were taken first. */
  ghost predicate Gains(before: LaneState, after: LaneState, p: Pos) {
    after.log == before.log + [Enter(p)]
  }

  lemma {:induction false} ChosenStaged(t: Trace, before: seq<Slot>, n: nat, i: nat, p: Pos)
    requires n <= |before| && FirstMarked(before[n..], i) && Readable(t, before[n + i].pos)
    ensures Chosen(t, before, n, p) <==> p == before[n + i].pos
  {
    hide Readable;
    forall j: nat | FirstMarked(before[n..], j) ensures j == i {
      FirstMarkedIs(before[n..], j);
      FirstMarkedIs(before[n..], i);
    }
  }

  lemma {:induction false} ChosenTaken(t: Trace, before: seq<Slot>, n: nat, br: Option<Pos>, p: Pos)
    requires n <= |before| && TakenMark(before, n, br)
    requires forall i: nat :: FirstMarked(before[n..], i) ==> !Readable(t, before[n + i].pos)
    ensures Chosen(t, before, n, p) <==> br == Some(p) && Readable(t, p)
  {
    hide Readable; hide FirstMarked; hide LastMarked;
    if br.Some? {
      var i: nat :| LastMarked(before[..n], i);
    }
  }

  lemma {:induction false} EnteredAdds(t: Trace, s: LaneState, br: Pos, resumeAfter: Option<Pos>)
    ensures var e := DoEnter(t, s, br, resumeAfter);
            e.Entered? ==> Gains(s, e.s, br) && e.s.fstate == Shadow && e.s.n == s.n.(nEnter := s.n.nEnter + 1)
                           && e.s.aborted == s.aborted
  {
    hide EnterShadow; hide AdvanceN;
  }

  /** What a redirect into the shadow does on the correct path, after `n` of the entries
      `before` were taken: a request that was met already is counted, and otherwise the chosen
      branch is entered, or the request is counted as one without a branch. */
  lemma {:induction false} EntersChosen(t: Trace, s: LaneState, before: seq<Slot>, n: nat, p: Pos)
    requires ValidTrace(t) && Inv(t, s) && CycleOk(t, s) && s.fstate == Correct
    requires n <= |before| && s.stage == before[n..] && TakenMark(before, n, s.brConsumed)
    ensures var r := LaneEnter(t, s);
            && (StaleRequest(s) ==> r == s.(n := s.n.(nResolved := s.n.nResolved + 1)))
            && (!StaleRequest(s) && Chosen(t, before, n, p) ==>
                  Gains(s, r, p) && !r.aborted && r.fstate == Shadow && r.n == s.n.(nEnter := s.n.nEnter + 1))
            && (!StaleRequest(s) && (forall q :: !Chosen(t, before, n, q)) ==>
                  r == s.(n := s.n.(nNobranch := s.n.nNobranch + 1)))
  {
    hide Protocol; hide ShadowAt; hide CpPos; hide CpUop; hide RecByte; hide EnterShadow; hide AdvanceN; hide Inv;
    hide CycleOk; hide DoEnter; hide CutAfter; hide FirstMarked; hide LastMarked; hide Readable; hide Chosen;
    hide TakenMark; hide StaleRequest;
    NotAborted(t, s);
    var i := FirstShadow(s.stage);
    FirstMarkedIs(s.stage, i);
    if i < |s.stage| {
      StagedOpens(t, s, i);
      EnteredAdds(t, s, s.stage[i].pos, None);
      assert before[n + i] == s.stage[i];
    }
    if i < |s.stage| && Readable(t, s.stage[i].pos) {
      ChosenStaged(t, before, n, i, s.stage[i].pos);
      ChosenStaged(t, before, n, i, p);
    } else {
      forall j: nat | FirstMarked(before[n..], j) ensures n + j < |before| && !Readable(t, before[n + j].pos) {
        FirstMarkedIs(s.stage, j);
      }
      ChosenTaken(t, before, n, s.brConsumed, p);
      if s.brConsumed.Some? {
        TakenOpens(t, s);
        EnteredAdds(t, s, s.brConsumed.value, s.lastDeliv);
        ChosenTaken(t, before, n, s.brConsumed, s.brConsumed.value);
      }
    }
  }

  /** A taken lane, off the shadow, with the mark of what was taken. */
  lemma {:induction false} Taken(t: Trace, s: LaneState, take: nat)
    requires ValidTrace(t) && Inv(t, s) && Remembers(s) && s.fstate == Correct
    ensures var n, s1 := Min(take, |s.stage|), ConsumeTake(s, take);
            && s1.stage == s.stage[n..]
            && s1.log == s.log + Deliveries(s.stage[..n])
            && s1.books == s.books && s1.fstate == Correct
            && s1.n.nResolved == s.n.nResolved && s1.n.nNobranch == s.n.nNobranch
            && TakenMark(s.stage, n, s1.brConsumed)
            && (StaleRequest(s1) <==> Answered(s, n))
  {
    hide Protocol; hide ShadowAt; hide CpPos; hide RecByte; hide TakenMark; hide Deliveries; hide TakeN;
    var s0, n := s.(brConsumed := None, lastDeliv := None), Min(take, |s.stage|);
    assert PrefixLen(s.stage) == |s.stage|;
    TakeNIs(s0, n);
    TakeNMark(s0, n);
  }

  /** Main theorem on redirects.  In every reachable state on the correct path, a call that
      takes `take` entries and redirects into the shadow enters the branch at `p` exactly if
      the request is not one that was met already and `p` is the chosen branch; if there is no
      such branch, nothing but the deliveries is added.  The two counters of refused requests
      say which of the two refusals it was. */
  lemma {:induction false} RedirectEnters(t: Trace, ins: seq<Input>, take: nat, p: Pos)
    requires ValidTrace(t) && Run(t, ins).fstate == Correct
    ensures var s := Run(t, ins); var n := Min(take, |s.stage|);
            var s' := Step(t, s, Consume(take, true, true));
            var taken := s.log + Deliveries(s.stage[..n]);
            && (s'.log == taken + [Enter(p)] <==> !Answered(s, n) && Chosen(t, s.stage, n, p))
            && (s'.log == taken <==> Answered(s, n) || forall q :: !Chosen(t, s.stage, n, q))
            && (s'.fstate == Correct <==> s'.log == taken)
            && s'.n.nResolved == s.n.nResolved + (if Answered(s, n) then 1 else 0)
            && s'.n.nNobranch == s.n.nNobranch + (if s'.log == taken && !Answered(s, n) then 1 else 0)
  {
    hide Run; hide Inv; hide CycleOk; hide Remembers; hide Deliveries; hide Gather; hide ConsumeTake; hide LaneEnter;
    hide Chosen; hide TakenMark; hide StaleRequest; hide Answered;
    RunKeeps(t, ins);
    RunRemembers(t, ins);
    var s := Run(t, ins);
    var n, s1 := Min(take, |s.stage|), ConsumeTake(s, take);
    ConsumeTakeKeeps(t, s, take);
    Taken(t, s, take);
    EntersChosen(t, s1, s.stage, n, p);
    GatherBooks(t, LaneEnter(t, s1));
    NotAborted(t, s1);
    if q :| Chosen(t, s.stage, n, q) {
      EntersChosen(t, s1, s.stage, n, q);
      assert (s1.log + [Enter(q)])[|s1.log|] == Enter(q);
      assert (s1.log + [Enter(p)])[|s1.log|] == Enter(p);
    }
  }

  /** What every other call adds to the log: a window nothing; a call without a redirect, or
      one that redirects into a shadow while speculating, its deliveries; a redirect out of the
      shadow its deliveries, and a flush exactly if the lane was speculating. */
  lemma {:induction false} StepLog(t: Trace, s: LaneState, take: nat, redirect: bool, redirShadow: bool)
    requires redirect && redirShadow ==> s.fstate != Correct
    ensures Step(t, s, Window).log == s.log
    ensures var taken := s.log + Deliveries(s.stage[..Min(take, |s.stage|)]);
            Step(t, s, Consume(take, redirect, redirShadow)).log
            == if redirect && !redirShadow && s.fstate != Correct then taken + [Leave] else taken
  {
    hide Gather; hide TakeN; hide Deliveries; hide PrefixLen;
    GatherBooks(t, s);
    var s0, n := s.(brConsumed := None, lastDeliv := None), Min(take, |s.stage|);
    TakeNIs(s0, n);
    GatherBooks(t, TakeN(s0, n));
    GatherBooks(t, LaneLeave(TakeN(s0, n)));
  }

  /** What is staged, in terms of the trace: the correct-path entries are the next records, and
      one carries the mark exactly if it has a shadow and lies past the last branch entered. */
  lemma {:induction false} MarkedMeansUnspent(t: Trace, ins: seq<Input>, i: nat)
    requires ValidTrace(t) && i < PrefixLen(Run(t, ins).stage)
    ensures var s := Run(t, ins); var x := s.stage[i];
            && x.pos == CpPos(t, s.n.cpConsumed + i)
            && (x.ent.hasShadow
                <==> RecHasShadow(t.recAt(x.pos.recByte))
                     && (LastEntered(s.log).Some? ==> LastEntered(s.log).value.recByte < x.pos.recByte))
  {
    hide Run; hide Protocol; hide CpUop; hide CpPos; hide RecByte; hide ShadowAt; hide ShadowUop; hide LastLeft; hide Count;
    RunKeeps(t, ins);
    RunRemembers(t, ins);
    var s := Run(t, ins);
    assert CpSlot(t, s, s.stage[i], s.n.cpConsumed + i);
    CpPosByte(t, s.n.cpConsumed + i);
    RecByteIs(t, s.n.cpConsumed + i);
  }

  /** Whatever a redirect did, the lane has then staged all it can: it is full, or at the end
      of the trace, or at the end of the shadow. */
  lemma {:induction false} RedirectRefills(t: Trace, ins: seq<Input>, take: nat, redirShadow: bool)
    requires ValidTrace(t)
    ensures var s := Step(t, Run(t, ins), Consume(take, true, redirShadow));
            && !s.aborted
            && (|s.stage| == REFILL_M || s.fstate == Starved
                || (s.fstate == Correct && s.eof && s.n.cpConsumed + |s.stage| == t.nRecords))
  {
    hide Run; hide Protocol; hide CpPos; hide RecByte; hide ConsumeTake;
    var s := Run(t, ins);
    RunKeeps(t, ins);
    StepKeeps(t, s, Consume(take, true, redirShadow));
    var s1 := if redirShadow then LaneEnter(t, ConsumeTake(s, take)) else LaneLeave(ConsumeTake(s, take));
    hide LaneEnter; hide LaneLeave;
    GatherFills(t, s1);
    GatherBooks(t, s1);
    hide Gather;
  }
}
