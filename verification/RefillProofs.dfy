/** Every run of a lane obeys the observer's protocol, and none of the hard
    assertions in lib/runtime/refill.c can fire. */
module RefillProofs {
  import opened Options
  import opened BstfReader
  import opened RefillSpec

  // ---- the invariant ----

  /** A staged correct-path entry: record `i` exactly.  It may still be chosen as a branch
      exactly if it has a shadow and lies past every earlier branch, and then it lies at or
      past every earlier resume point. */
  ghost predicate CpSlot(t: Trace, s: LaneState, x: Slot, i: nat) {
    && i < t.nRecords
    && x.pos == CpPos(t, i)
    && x.ent.uop == CpUop(t, i)
    && (x.ent.hasShadow <==> RecHasShadow(t.recAt(x.pos.recByte)) && s.books.hiBranch < x.pos.recByte)
    && (x.ent.hasShadow ==> s.books.hiResume <= x.pos.recByte)
  }

  ghost predicate WpSlot(t: Trace, br: Pos, x: Slot, m: nat) {
    && IsWrong(x.ent.uop)
    && !x.ent.hasShadow
    && ShadowUop(t, br, m) == Some(x.ent.uop)
  }

  function Strip(c: Cursor): Cursor { c.(sv := ZERO_POS) }

  ghost predicate Staged(t: Trace, s: LaneState, k: nat, mode: Mode) {
    && k <= |s.stage| <= REFILL_M
    && (forall i :: 0 <= i < k ==> CpSlot(t, s, s.stage[i], s.n.cpConsumed + i))
    && (k < |s.stage| ==> mode.Speculating?)
    && (forall i :: k <= i < |s.stage| ==> WpSlot(t, mode.br, s.stage[i], mode.m + (i - k)))
  }

  /** Where the cursor stands, `k` being the number of correct-path entries staged. */
  ghost predicate CursorOk(t: Trace, s: LaneState, k: nat, mode: Mode) {
    && s.n.cpConsumed + k <= t.nRecords
    && s.books.hiBranch < RecByte(t, s.n.cpConsumed + k)
    && s.books.hiResume <= RecByte(t, s.n.cpConsumed + k)
    && match mode
       case OnPath =>
         && s.fstate == Correct && !s.cur.inShadow && k == |s.stage|
         && s.cur.pos == CpPos(t, s.n.cpConsumed + k)
         && (s.eof ==> s.n.cpConsumed + k == t.nRecords)
       case Speculating(br, m) =>
         && s.fstate != Correct && s.cur.inShadow
         && s.cur.sv == CpPos(t, s.n.cpConsumed + k)
         && k <= |s.stage| && ShadowAt(t, br, m + (|s.stage| - k)) == Some(Strip(s.cur))
         && s.books.hiResume == s.cur.sv.recByte
         && (s.fstate == Starved ==> Peek(t, s.cur).None?)
         && (m > 0 ==> k == 0)
         && s.books.lastBr.pos.feIdx == br.feIdx
  }

  ghost predicate Counts(s: LaneState) {
    && s.n.nEnter == s.n.nLeave + (if s.fstate == Correct then 0 else 1)
    && s.n.cpConsumed + s.n.wpConsumed == s.n.consumed
    && (s.books.hasLastBr <==> s.n.nEnter != 0)
  }

  ghost predicate Body(t: Trace, s: LaneState, k: nat, g: Progress) {
    && !s.aborted
    && Counts(s)
    && Protocol(t, s.log) == Some(g)
    && g.delivered == s.n.cpConsumed
    && g.lastBranch == s.books.hiBranch
    && Staged(t, s, k, g.mode)
    && CursorOk(t, s, k, g.mode)
  }

  ghost predicate Inv(t: Trace, s: LaneState) {
    && Protocol(t, s.log).Some?
    && Body(t, s, PrefixLen(s.stage), Protocol(t, s.log).value)
  }

  lemma {:induction false} NotAborted(t: Trace, s: LaneState)
    requires Inv(t, s)
    ensures !s.aborted
  {
  }

  /** What the lane remembers about the records taken in the current cycle. */
  ghost predicate CycleOk(t: Trace, s: LaneState) {
    && (s.lastDeliv.Some? ==>
          s.n.cpConsumed > 0 && s.lastDeliv.value == CpPos(t, s.n.cpConsumed - 1))
    && (s.brConsumed.Some? ==>
          && s.lastDeliv.Some?
          && var p := s.brConsumed.value;
          && RecHasShadow(t.recAt(p.recByte))
          && s.books.hiBranch < p.recByte
          && s.books.hiResume <= p.recByte
          && exists b: nat :: b < s.n.cpConsumed && CpPos(t, b) == p)
  }

  // ---- small facts ----

  lemma {:induction false} PrefixLenIs(stage: seq<Slot>, k: nat)
    requires k <= |stage|
    requires forall j :: 0 <= j < k ==> !IsWrong(stage[j].ent.uop)
    requires k < |stage| ==> IsWrong(stage[k].ent.uop)
    ensures PrefixLen(stage) == k
  {
  }

  /** The invariant fixes where the correct prefix of staging ends. */
  lemma {:induction false} BodyGivesInv(t: Trace, s: LaneState, k: nat, g: Progress)
    requires Body(t, s, k, g)
    ensures Inv(t, s)
  {
    forall j | 0 <= j < k ensures !IsWrong(s.stage[j].ent.uop) {
      assert CpSlot(t, s, s.stage[j], s.n.cpConsumed + j);
    }
    if k < |s.stage| { assert WpSlot(t, g.mode.br, s.stage[k], g.mode.m + (k - k)); }
    PrefixLenIs(s.stage, k);
  }

  lemma {:induction false} LogStep(t: Trace, log: seq<Event>, e: Event)
    requires Protocol(t, log).Some?
    ensures Protocol(t, log + [e]) == Observe(t, Protocol(t, log).value, e)
  {
    assert (log + [e])[..|log|] == log;
  }

  lemma {:induction false} AdvanceOneN(t: Trace, c: Cursor)
    ensures AdvanceN(t, c, 1).0 == if Avail(t, c) then AdvanceOne(t, c) else c
  {
    if Avail(t, c) { assert AdvanceN(t, AdvanceOne(t, c), 0) == (AdvanceOne(t, c), 0); }
  }

  /** Off the shadow, a decoded record depends on the cursor's position alone. */
  lemma {:induction false} DecodeOnPath(t: Trace, c: Cursor, r: Rec)
    requires !c.inShadow
    ensures DecodeUop(t, c, r) == DecodeUop(t, CursorAt(c.pos), r)
    ensures DecodeUop(t, c, r).duop.wrongpath == false
  {
  }

  /** The saved resume point takes no part in decoding, peeking or advancing. */
  lemma {:induction false} StripIrrelevant(t: Trace, c: Cursor, r: Rec)
    ensures DecodeUop(t, c, r) == DecodeUop(t, Strip(c), r)
    ensures Peek(t, c) == Peek(t, Strip(c))
    ensures Avail(t, c) ==> AdvanceOne(t, Strip(c)) == Strip(AdvanceOne(t, c))
    ensures DecodeUop(t, c, r).duop.wrongpath == c.inShadow
  {
  }

  // ---- gather ----

  lemma {:induction false} GatherOnPath(t: Trace, s: LaneState, r: Rec)
    requires ValidTrace(t) && Inv(t, s) && s.fstate == Correct
    requires |s.stage| < REFILL_M && Peek(t, s.cur) == Some(r)
    ensures Inv(t, GatherOne(t, s, r))
  {
    hide Protocol; hide ShadowAt; hide ShadowUop; hide NextPos; hide DecodeUop; hide AdvanceN; hide PrefixLen;
    var g := Protocol(t, s.log).value;
    var k := |s.stage|;
    DecodeOnPath(t, s.cur, r);
    var i := s.n.cpConsumed + k;
    CpAvail(t, i);
    RecByteMono(t, i, i + 1);
    AdvanceOneN(t, s.cur);
    var s' := GatherOne(t, s, r);
    forall j | 0 <= j < k + 1 ensures CpSlot(t, s', s'.stage[j], s'.n.cpConsumed + j) {
      if j < k { assert CpSlot(t, s, s.stage[j], s.n.cpConsumed + j); }
    }
    BodyGivesInv(t, s', k + 1, g);
  }

  lemma {:induction false} GatherInShadow(t: Trace, s: LaneState, r: Rec)
    requires ValidTrace(t) && Inv(t, s) && s.fstate != Correct
    requires |s.stage| < REFILL_M && Peek(t, s.cur) == Some(r)
    ensures Inv(t, GatherOne(t, s, r))
  {
    hide Protocol; hide CpPos; hide CpUop; hide NextPos; hide DecodeUop; hide AdvanceN; hide PrefixLen; hide RecByte;
    StripIrrelevant(t, s.cur, r);
    var g := Protocol(t, s.log).value;
    var k := PrefixLen(s.stage);
    var n := g.mode.m + (|s.stage| - k);
    AdvanceOneN(t, s.cur);
    var s' := GatherOne(t, s, r);
    assert ShadowUop(t, g.mode.br, n) == Some(DecodeUop(t, s.cur, r));
    assert ShadowAt(t, g.mode.br, n + 1) == Some(Strip(s'.cur));
    forall i | k <= i < |s'.stage| ensures WpSlot(t, g.mode.br, s'.stage[i], g.mode.m + (i - k)) {
      if i < |s.stage| { assert WpSlot(t, g.mode.br, s.stage[i], g.mode.m + (i - k)); }
    }
    forall j | 0 <= j < k ensures CpSlot(t, s', s'.stage[j], s'.n.cpConsumed + j) {
      assert CpSlot(t, s, s.stage[j], s.n.cpConsumed + j);
    }
    BodyGivesInv(t, s', k, g);
  }

  lemma {:induction false} GatherEndKeeps(t: Trace, s: LaneState)
    requires ValidTrace(t) && Inv(t, s) && Peek(t, s.cur).None?
    ensures Inv(t, GatherEnd(s))
  {
    hide Protocol; hide ShadowAt; hide ShadowUop; hide CpUop; hide CpPos; hide RecByte;
    CpAvail(t, s.n.cpConsumed + PrefixLen(s.stage));
    var k := PrefixLen(s.stage);
    var s' := GatherEnd(s);
    forall j | 0 <= j < k ensures CpSlot(t, s', s'.stage[j], s'.n.cpConsumed + j) {
      assert CpSlot(t, s, s.stage[j], s.n.cpConsumed + j);
    }
    BodyGivesInv(t, s', k, Protocol(t, s.log).value);
  }

  lemma {:induction false} GatherKeeps(t: Trace, s: LaneState)
    requires ValidTrace(t) && Inv(t, s)
    ensures Inv(t, Gather(t, s))
    ensures Gather(t, s).log == s.log
    decreases REFILL_M - |s.stage|
  {
    hide Protocol; hide ShadowAt; hide ShadowUop; hide NextPos; hide AdvanceN;
    hide CpUop; hide CpPos; hide SlotAt; hide RecByte; hide FirstShadow;
    if |s.stage| < REFILL_M {
      match Peek(t, s.cur)
      case None =>
        GatherEndKeeps(t, s);
      case Some(r) =>
        if s.fstate == Correct { GatherOnPath(t, s, r); } else { GatherInShadow(t, s, r); }
        GatherKeeps(t, GatherOne(t, s, r));
    }
  }

  // ---- consume ----

  lemma {:induction false} TakeCorrect(t: Trace, s: LaneState)
    requires ValidTrace(t) && Inv(t, s) && |s.stage| > 0 && PrefixLen(s.stage) > 0
    ensures Inv(t, TakeOne(s))
    ensures s.stage[0].pos == CpPos(t, s.n.cpConsumed)
    ensures CpSlot(t, s, s.stage[0], s.n.cpConsumed)
  {
    hide ShadowAt; hide ShadowUop; hide CpPos; hide NextPos; hide DecodeUop; hide RecByte; hide Peek; hide Protocol;
    var g := Protocol(t, s.log).value;
    var k := PrefixLen(s.stage);
    var x := s.stage[0];
    var s' := TakeOne(s);
    LogStep(t, s.log, Deliver(x.ent.uop));
    assert CpSlot(t, s, s.stage[0], s.n.cpConsumed + 0);
    forall j | 0 <= j < k - 1 ensures CpSlot(t, s', s'.stage[j], s'.n.cpConsumed + j) {
      assert CpSlot(t, s, s.stage[j + 1], s.n.cpConsumed + (j + 1));
    }
    forall i | k - 1 <= i < |s'.stage| ensures WpSlot(t, g.mode.br, s'.stage[i], g.mode.m + (i - (k - 1))) {
      assert WpSlot(t, g.mode.br, s.stage[i + 1], g.mode.m + (i + 1 - k));
    }
    BodyGivesInv(t, s', k - 1, g.(delivered := g.delivered + 1));
  }

  lemma {:induction false} TakeWrong(t: Trace, s: LaneState)
    requires ValidTrace(t) && Inv(t, s) && |s.stage| > 0 && PrefixLen(s.stage) == 0
    ensures Inv(t, TakeOne(s))
  {
    hide ShadowAt; hide ShadowUop; hide CpPos; hide CpUop; hide RecByte; hide Peek; hide Protocol;
    var g := Protocol(t, s.log).value;
    var x := s.stage[0];
    var s' := TakeOne(s);
    LogStep(t, s.log, Deliver(x.ent.uop));
    assert WpSlot(t, g.mode.br, s.stage[0], g.mode.m + (0 - 0));
    var g' := g.(mode := g.mode.(m := g.mode.m + 1));
    forall i | 0 <= i < |s'.stage| ensures WpSlot(t, g.mode.br, s'.stage[i], g'.mode.m + (i - 0)) {
      assert WpSlot(t, g.mode.br, s.stage[i + 1], g.mode.m + (i + 1 - 0));
    }
    BodyGivesInv(t, s', 0, g');
  }

  lemma {:induction false} TakeOneKeeps(t: Trace, s: LaneState)
    requires ValidTrace(t) && Inv(t, s) && CycleOk(t, s) && |s.stage| > 0
    ensures Inv(t, TakeOne(s)) && CycleOk(t, TakeOne(s))
  {
    hide CpPos; hide CpUop; hide RecByte; hide Inv;
    var s' := TakeOne(s);
    if PrefixLen(s.stage) > 0 {
      TakeCorrect(t, s);
      if s.brConsumed.Some? && !s.stage[0].ent.hasShadow {
        var b: nat :| b < s.n.cpConsumed && CpPos(t, b) == s.brConsumed.value;
        assert b < s'.n.cpConsumed;
      }
      assert s.n.cpConsumed < s'.n.cpConsumed;
    } else {
      TakeWrong(t, s);
    }
  }

  lemma {:induction false} TakeNKeeps(t: Trace, s: LaneState, n: nat)
    requires ValidTrace(t) && Inv(t, s) && CycleOk(t, s) && n <= |s.stage|
    ensures Inv(t, TakeN(s, n)) && CycleOk(t, TakeN(s, n))
    decreases n
  {
    hide Inv; hide CycleOk;
    if n != 0 {
      TakeOneKeeps(t, s);
      TakeNKeeps(t, TakeOne(s), n - 1);
    }
  }

  lemma {:induction false} ConsumeTakeKeeps(t: Trace, s: LaneState, take: nat)
    requires ValidTrace(t) && Inv(t, s)
    ensures Inv(t, ConsumeTake(s, take)) && CycleOk(t, ConsumeTake(s, take))
  {
    hide Protocol; hide ShadowAt; hide ShadowUop; hide CpPos; hide RecByte; hide TakeN;
    var s0 := s.(brConsumed := None, lastDeliv := None);
    var k := PrefixLen(s.stage);
    forall j | 0 <= j < k ensures CpSlot(t, s0, s0.stage[j], s0.n.cpConsumed + j) {
      assert CpSlot(t, s, s.stage[j], s.n.cpConsumed + j);
    }
    BodyGivesInv(t, s0, k, Protocol(t, s.log).value);
    TakeNKeeps(t, s0, Min(take, |s.stage|));
  }

  // ---- entering a shadow ----

  /** The resume point of a branch at record `b` is record `b + 1`. */
  lemma {:induction false} EnterAt(t: Trace, b: nat)
    requires ValidTrace(t) && b < t.nRecords
    ensures EnterShadow(t, CursorAt(CpPos(t, b))).Some? ==>
              && EnterShadow(t, CursorAt(CpPos(t, b))).value.sv == CpPos(t, b + 1)
              && EnterShadow(t, CursorAt(CpPos(t, b))).value.inShadow
              && EnterShadow(t, CursorAt(CpPos(t, b))).value.pos.feIdx == CpPos(t, b).feIdx
    ensures AdvanceN(t, CursorAt(CpPos(t, b)), 1).0.pos == CpPos(t, b + 1)
  {
    CpAvail(t, b);
    AdvanceOneN(t, CursorAt(CpPos(t, b)));
  }

  /** A successful switch at record `b`, resuming at record `r`, with `k` entries kept. */
  lemma {:induction false} EnteredKeeps(t: Trace, s: LaneState, b: nat, r: nat, c: Cursor, stage: seq<Slot>)
    requires ValidTrace(t) && Inv(t, s) && s.fstate == Correct
    requires b < r <= t.nRecords && r == s.n.cpConsumed + |stage| && (stage != [] ==> r == b + 1)
    requires RecHasShadow(t.recAt(CpPos(t, b).recByte)) && s.books.hiBranch < CpPos(t, b).recByte
    requires EnterShadow(t, CursorAt(CpPos(t, b))).Some?
    requires c == EnterShadow(t, CursorAt(CpPos(t, b))).value.(sv := CpPos(t, r))
    requires |stage| <= REFILL_M
    requires forall j :: 0 <= j < |stage| ==>
               && s.n.cpConsumed + j < t.nRecords && stage[j].pos == CpPos(t, s.n.cpConsumed + j)
               && stage[j].ent == Entry(CpUop(t, s.n.cpConsumed + j), false)
    ensures Inv(t, s.(cur := c,
                      books := s.books.(lastBr := c, hasLastBr := true,
                                        hiBranch := CpPos(t, b).recByte, hiResume := c.sv.recByte),
                      fstate := Shadow, n := s.n.(nEnter := s.n.nEnter + 1),
                      log := s.log + [Enter(CpPos(t, b))],
                      stage := stage))
  {
    hide Protocol; hide NextPos; hide DecodeUop; hide AdvanceN; hide EnterShadow; hide PrefixLen; hide CpUop; hide ShadowUop;
    var p := CpPos(t, b);
    var g := Protocol(t, s.log).value;
    var s' := s.(cur := c, books := s.books.(lastBr := c, hasLastBr := true, hiBranch := p.recByte, hiResume := c.sv.recByte),
                 fstate := Shadow, n := s.n.(nEnter := s.n.nEnter + 1), log := s.log + [Enter(p)], stage := stage);
    LogStep(t, s.log, Enter(p));
    assert IsBranch(t, p);
    CpPosByte(t, b);
    CpPosByte(t, r);
    RecByteMono(t, b, r);
    EnterAt(t, b);
    var g' := g.(mode := Speculating(p, 0), lastBranch := p.recByte);
    forall j | 0 <= j < |stage| ensures CpSlot(t, s', s'.stage[j], s'.n.cpConsumed + j) {
      CpPosByte(t, s.n.cpConsumed + j);
      if s.n.cpConsumed + j < b { RecByteMono(t, s.n.cpConsumed + j, b); }
    }
    assert ShadowAt(t, p, 0) == Some(Strip(c));
    BodyGivesInv(t, s', |stage|, g');
  }

  /** Branch still in staging: no assertion fires, and the invariant is kept. */
  lemma {:induction false} EnterStagedKeeps(t: Trace, s: LaneState, i: nat)
    requires ValidTrace(t) && Inv(t, s) && s.fstate == Correct
    requires i == FirstShadow(s.stage) < |s.stage|
    ensures var e := DoEnter(t, s, s.stage[i].pos, None);
            && !e.Aborted?
            && (e.Entered? ==> Inv(t, e.s.(stage := CutAfter(s.stage, i))))
  {
    hide Protocol; hide ShadowAt; hide ShadowUop; hide NextPos; hide DecodeUop; hide AdvanceN; hide EnterShadow;
    var b := s.n.cpConsumed + i;
    assert CpSlot(t, s, s.stage[i], b);
    var e := DoEnter(t, s, s.stage[i].pos, None);
    CpPosByte(t, b);
    CpPosByte(t, b + 1);
    RecByteMono(t, b, b + 1);
    EnterAt(t, b);
    if e.Entered? {
      var stage := CutAfter(s.stage, i);
      forall j | 0 <= j < |stage|
        ensures && s.n.cpConsumed + j < t.nRecords && stage[j].pos == CpPos(t, s.n.cpConsumed + j)
                && stage[j].ent == Entry(CpUop(t, s.n.cpConsumed + j), false)
      {
        assert CpSlot(t, s, s.stage[j], s.n.cpConsumed + j);
      }
      EnteredKeeps(t, s, b, b + 1, e.s.cur, stage);
    }
  }

  /** Byte offsets of records b < d: the resume point after record d - 1 is record d, and it
      is later than record b + 1 exactly when d is. */
  lemma {:induction false} ResumeBytes(t: Trace, b: nat, d: nat)
    requires ValidTrace(t) && b < d <= t.nRecords
    ensures CpPos(t, d - 1).recByte + t.recBytes == CpPos(t, d).recByte
    ensures CpPos(t, b).recByte < CpPos(t, d).recByte
    ensures CpPos(t, d).recByte == RecByte(t, d)
    ensures CpPos(t, d).recByte > CpPos(t, b + 1).recByte <==> d > b + 1
  {
    hide NextPos;
    CpPosByte(t, b);
    CpPosByte(t, b + 1);
    CpPosByte(t, d - 1);
    CpPosByte(t, d);
    RecByteMono(t, b, d);
    if b + 1 < d { RecByteMono(t, b + 1, d); }
    assert RecByte(t, d) == RecByte(t, d - 1) + t.recBytes;
  }

  /** Branch taken in the same cycle: likewise, resuming after the last delivery. */
  lemma {:induction false} EnterConsumedKeeps(t: Trace, s: LaneState)
    requires ValidTrace(t) && Inv(t, s) && CycleOk(t, s) && s.fstate == Correct
    ensures Inv(t, EnterConsumed(t, s))
  {
    hide Protocol; hide ShadowAt; hide ShadowUop; hide NextPos; hide DecodeUop; hide AdvanceN; hide EnterShadow; hide PrefixLen;
    hide CpPos; hide RecByte;
    if s.brConsumed.Some? {
      var p := s.brConsumed.value;
      var b: nat :| b < s.n.cpConsumed && CpPos(t, b) == p;
      var d := s.n.cpConsumed;
      var e := DoEnter(t, s, p, s.lastDeliv);
      ResumeBytes(t, b, d);
      EnterAt(t, b);
      EnterAt(t, d - 1);
      if e.Entered? {
        EnteredKeeps(t, s, b, d, e.s.cur, []);
      }
    }
    if EnterConsumed(t, s).log == s.log {
      Weaken(t, s, EnterConsumed(t, s));
    }
  }

  /** Fields the invariant does not read may change freely. */
  lemma {:induction false} Weaken(t: Trace, s: LaneState, s': LaneState)
    requires Inv(t, s)
    requires s' == s.(n := s.n.(nResolved := s'.n.nResolved, nNobranch := s'.n.nNobranch))
    ensures Inv(t, s')
  {
    hide Protocol; hide ShadowAt; hide ShadowUop; hide CpPos; hide RecByte; hide CpUop;
    var k := PrefixLen(s.stage);
    forall j | 0 <= j < k ensures CpSlot(t, s', s'.stage[j], s'.n.cpConsumed + j) {
      assert CpSlot(t, s, s.stage[j], s.n.cpConsumed + j);
    }
    BodyGivesInv(t, s', k, Protocol(t, s.log).value);
  }

  lemma {:induction false} LaneEnterKeeps(t: Trace, s: LaneState)
    requires ValidTrace(t) && Inv(t, s) && CycleOk(t, s)
    ensures Inv(t, LaneEnter(t, s))
  {
    if s.fstate == Correct {
      if StaleRequest(s) {
        Weaken(t, s, LaneEnter(t, s));
      } else {
        var i := FirstShadow(s.stage);
        EnterConsumedKeeps(t, s);
        if i < |s.stage| { EnterStagedKeeps(t, s, i); }
      }
    }
  }

  // ---- leaving a shadow ----

  lemma {:induction false} LaneLeaveKeeps(t: Trace, s: LaneState)
    requires ValidTrace(t) && Inv(t, s)
    ensures Inv(t, LaneLeave(s))
  {
    hide Protocol; hide ShadowAt; hide ShadowUop; hide CpPos; hide RecByte; hide CpUop;
    if s.fstate != Correct {
      var s' := LaneLeave(s);
      var k := PrefixLen(s.stage);
      var g := Protocol(t, s.log).value;
      LogStep(t, s.log, Leave);
      forall j | 0 <= j < k ensures CpSlot(t, s', s'.stage[j], s'.n.cpConsumed + j) {
        assert CpSlot(t, s, s.stage[j], s.n.cpConsumed + j);
      }
      BodyGivesInv(t, s', k, g.(mode := OnPath));
    }
  }

  // ---- every run ----

  lemma {:induction false} StepKeeps(t: Trace, s: LaneState, i: Input)
    requires ValidTrace(t) && Inv(t, s)
    ensures Inv(t, Step(t, s, i))
  {
    match i
    case Window => GatherKeeps(t, s);
    case Consume(take, redirect, redirShadow) =>
      ConsumeTakeKeeps(t, s, take);
      if redirect {
        var s1 := ConsumeTake(s, take);
        if redirShadow {
          LaneEnterKeeps(t, s1);
          GatherKeeps(t, LaneEnter(t, s1));
        } else {
          LaneLeaveKeeps(t, s1);
          GatherKeeps(t, LaneLeave(s1));
        }
      }
  }

  lemma {:induction false} ZeroOk(t: Trace, z: LaneState)
    requires ValidTrace(t) && z == ZeroState()
    ensures Inv(t, z)
  {
    BodyGivesInv(t, z, 0, Progress(0, OnPath, 0));
  }

  lemma {:induction false} InitKeeps(t: Trace)
    requires ValidTrace(t)
    ensures Inv(t, InitState(t))
  {
    hide Gather;
    var z := ZeroState();
    ZeroOk(t, z);
    GatherKeeps(t, z);
  }

  lemma {:induction false} RunKeeps(t: Trace, ins: seq<Input>)
    requires ValidTrace(t)
    ensures Inv(t, Run(t, ins))
    decreases |ins|
  {
    if ins == [] {
      InitKeeps(t);
    } else {
      RunKeeps(t, ins[..|ins| - 1]);
      StepKeeps(t, Run(t, ins[..|ins| - 1]), ins[|ins| - 1]);
    }
  }
}
