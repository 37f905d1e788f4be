/** The lane as lib/runtime/refill.c updates it: fixed staging arrays with a live
    interval [head, head + cnt), and one field per member of `bstm_lane_t`.  Every
    method is the pure transition of `RefillSpec` on the lane's abstract state. */
module RefillLane {
  import opened Options
  import opened BstfReader
  import opened RefillSpec
  import opened Words

  const ZERO_REG := Reg(false, [false, false, false, false, false, false])
  const ZERO_ENTRY :=
    Entry(Uop(Duop(false, false, false, false, 0, 0, ZERO_REG, ZERO_REG, ZERO_REG), ZeroByte(), ZeroByte()), false)

  lemma {:induction false} TakeNSnoc(s: LaneState, n: nat)
    requires n < |s.stage|
    ensures |TakeN(s, n).stage| == |s.stage| - n
    ensures TakeN(s, n + 1) == TakeOne(TakeN(s, n))
    decreases n
  {
    if n != 0 { TakeNSnoc(TakeOne(s), n - 1); }
  }

  lemma {:induction false} TakeNZero(s: LaneState)
    ensures TakeN(s, 0) == s
  {
  }

  lemma {:induction false} TakeOneConsumed(s: LaneState, c: nat)
    requires |s.stage| > 0
    ensures TakeOne(s.(n := s.n.(consumed := c))) == TakeOne(s).(n := TakeOne(s).n.(consumed := c + 1))
  {
  }

  lemma {:induction false} FirstShadowIs(stage: seq<Slot>, k: nat)
    requires k <= |stage|
    requires forall j :: 0 <= j < k ==> !stage[j].ent.hasShadow
    requires k < |stage| ==> stage[k].ent.hasShadow
    ensures FirstShadow(stage) == k
  {
  }

  class Lane {
    const trace: Trace
    const stage: array<Entry>
    const pos: array<Pos>
    var head: nat, cnt: nat

    var cur: Cursor
    var eof: bool
    var fstate: FetchState
    var books: Books
    var n: Counters
    var brConsumed: Option<Pos>, lastDeliv: Option<Pos>
    /** Set where the C code calls abort(). */
    var aborted: bool
    /** What the timing model has been handed, in order. */
    ghost var log: seq<Event>

    /** The staged entries, oldest first. */
    ghost var slots: seq<Slot>

    ghost predicate Valid()
      reads this, stage, pos
    {
      && stage.Length == REFILL_M && pos.Length == REFILL_M
      && head + cnt <= REFILL_M
      && |slots| == cnt
      && forall i :: 0 <= i < cnt ==> slots[i].ent == stage[head + i] && slots[i].pos == pos[head + i]
    }

    ghost function State(): LaneState
      reads this
    {
      LaneState(cur, eof, fstate, slots, books, n, brConsumed, lastDeliv, aborted, log)
    }

    constructor (t: Trace)
      ensures Valid() && fresh(stage) && fresh(pos) && trace == t
      ensures State() == InitState(t)
    {
      trace := t;
      stage := new Entry[REFILL_M](_ => ZERO_ENTRY);
      pos := new Pos[REFILL_M](_ => ZERO_POS);
      head, cnt := 0, 0;
      cur, eof, fstate := CursorInit(), false, FetchState.Correct;
      books := Books(CursorAt(ZERO_POS), false, 0, 0, 0, false);
      n := Counters(0, 0, 0, 0, 0, 0, 0, 0);
      brConsumed, lastDeliv, aborted, log, slots := None, None, false, [], [];
      new;
      assert State() == ZeroState();
      Gather();
    }

    /** Moves the live interval to the front of the arrays. */
    method Compact()
      requires Valid()
      modifies this`head, stage, pos
      ensures Valid() && head == 0
      ensures State() == old(State())
    {
      if head != 0 {
        forall i | 0 <= i < cnt { stage[i] := stage[head + i]; }
        forall i | 0 <= i < cnt { pos[i] := pos[head + i]; }
        head := 0;
      }
    }

    /** Fills staging from the cursor. */
    method Gather()
      requires Valid()
      modifies this, stage, pos
      ensures Valid()
      ensures State() == RefillSpec.Gather(trace, old(State()))
    {
      Compact();
      while cnt < REFILL_M
        invariant Valid() && head == 0
        invariant RefillSpec.Gather(trace, State()) == RefillSpec.Gather(trace, old(State()))
      {
        var rec := Peek(trace, cur);
        if rec.None? {
          EndOfRecords();
          return;
        }
        Append(rec.value);
      }
    }

    /** No record at the cursor: a shadow starves, the correct path is at its end. */
    method EndOfRecords()
      requires Valid()
      modifies this`fstate, this`n, this`eof
      ensures Valid() && State() == GatherEnd(old(State()))
    {
      if fstate == Shadow {
        fstate := Starved;
        n := n.(nStarve := n.nStarve + 1);
      }
      if fstate == FetchState.Correct {
        eof := true;
      }
    }

    /** Stages the record at the cursor and advances. */
    method Append(rec: Rec)
      requires Valid() && head == 0 && cnt < REFILL_M
      modifies this`cnt, this`slots, this`cur, stage, pos
      ensures Valid() && State() == GatherOne(trace, old(State()), rec)
    {
      hide AdvanceN;
      pos[cnt] := if cur.inShadow then cur.pos.(recByte := 0) else cur.pos;
      stage[cnt] := DecodeEntry(trace, cur, rec);
      cnt := cnt + 1;
      slots := slots + [SlotAt(trace, cur, rec)];
      var done;
      cur, done := Advance(trace, cur, 1);
    }

    /** The entries the window shows. */
    method Shown() returns (st: seq<Slot>)
      requires Valid()
      ensures st == slots[..Min(cnt, W)]
    {
      st := [];
      var i := 0;
      while i < cnt && i < W
        invariant i <= Min(cnt, W) && st == slots[..i]
      {
        assert slots[i].ent == stage[head + i];
        st := st + [Slot(stage[head + i], pos[head + i])];
        i := i + 1;
      }
    }

    /** What the window call does to a lane: refill it when it runs low. */
    method Refresh()
      requires Valid()
      modifies this, stage, pos
      ensures Valid()
      ensures State() == Step(trace, old(State()), Window)
    {
      if cnt < W && !eof {
        Gather();
      }
    }

    /** Switches to the shadow of `br`; `ok` is false when it has none that can be read. */
    method DoEnter(br: Pos, resumeAfter: Option<Pos>) returns (ok: bool)
      requires Valid() && !aborted
      modifies this
      ensures Valid() && head == old(head) && cnt == old(cnt)
      ensures match RefillSpec.DoEnter(trace, old(State()), br, resumeAfter)
              case Aborted => !ok && State() == old(State()).(aborted := true)
              case NoShadow => !ok && State() == old(State())
              case Entered(s) => ok && State() == s
    {
      hide ShadowCursor;
      if !(!books.hasLastBr || br.recByte > books.hiBranch) {
        aborted := true;
        ok := false;
        return;
      }
      var e := Position(trace, br, resumeAfter);
      if e.None? {
        return false;
      }
      var c := e.value;
      if !(c.sv.recByte > books.hiResume || n.nEnter == 0) {
        aborted := true;
        ok := false;
        return;
      }
      Switch(br, c);
      ok := true;
    }

    /** The switch itself. */
    method Switch(br: Pos, c: Cursor)
      requires Valid()
      modifies this`cur, this`books, this`fstate, this`n, this`log
      ensures Valid()
      ensures var s := old(State());
              State() == s.(cur := c,
                            books := s.books.(lastBr := c, hasLastBr := true,
                                              hiBranch := br.recByte, hiResume := c.sv.recByte),
                            fstate := Shadow, n := s.n.(nEnter := s.n.nEnter + 1),
                            log := s.log + [Enter(br)])
    {
      cur := c;
      books := books.(lastBr := c, hasLastBr := true, hiBranch := br.recByte, hiResume := c.sv.recByte);
      fstate := Shadow;
      n := n.(nEnter := n.nEnter + 1);
      log := log + [Enter(br)];
    }

    /** The cursor inside the shadow of `br`, its resume point past what was delivered. */
    static method Position(t: Trace, br: Pos, resumeAfter: Option<Pos>) returns (e: Option<Cursor>)
      ensures e == ShadowCursor(t, br, resumeAfter)
    {
      hide EnterShadow; hide AdvanceN;
      e := EnterShadow(t, CursorAt(br));
      if e.Some? && resumeAfter.Some? && resumeAfter.value.recByte + t.recBytes > e.value.sv.recByte {
        var rc, done := Advance(t, CursorAt(resumeAfter.value), 1);
        e := Some(e.value.(sv := rc.pos));
      }
    }

    /** A redirect into the wrong path. */
    method LaneEnter()
      requires Valid() && !aborted
      modifies this, stage
      ensures Valid()
      ensures State() == RefillSpec.LaneEnter(trace, old(State()))
    {
      if fstate != FetchState.Correct {
        return;
      }
      hide RefillSpec.DoEnter; hide RefillSpec.EnterConsumed; hide FirstShadow;
      assert cnt > 0 ==> slots[0].pos == pos[head + 0];
      if cnt > 0 && books.resolvedValid && pos[head].feIdx == books.resolvedFe {
        n := n.(nResolved := n.nResolved + 1);
        return;
      }
      var i := FindShadow();
      if i < cnt {
        assert slots[i].pos == pos[head + i] && slots[i].ent == stage[head + i];
        var ok := DoEnter(pos[head + i], None);
        if ok {
          KeepThrough(i);
          return;
        }
        if aborted {
          return;
        }
      }
      EnterConsumed();
    }

    /** Cuts staging after the branch at `i`, whose shadow bit is spent. */
    method KeepThrough(i: nat)
      requires Valid() && i < cnt
      modifies this`cnt, this`slots, stage
      ensures Valid() && slots == CutAfter(old(slots), i)
    {
      cnt := i + 1;
      stage[head + i] := stage[head + i].(hasShadow := false);
      slots := CutAfter(slots, i);
    }

    /** The branch was taken in the same cycle as the redirect. */
    method EnterConsumed()
      requires Valid() && !aborted
      modifies this
      ensures Valid()
      ensures State() == RefillSpec.EnterConsumed(trace, old(State()))
    {
      if brConsumed.Some? {
        var ok := DoEnter(brConsumed.value, lastDeliv);
        if ok {
          cnt, slots := 0, [];
          return;
        }
        if aborted {
          return;
        }
      }
      n := n.(nNobranch := n.nNobranch + 1);
    }

    /** A flush: back to the correct path at the saved resume point. */
    method LaneLeave()
      requires Valid() && !aborted
      modifies this
      ensures Valid()
      ensures State() == RefillSpec.LaneLeave(old(State()))
    {
      hide PrefixLen; hide LeaveShadow;
      if fstate == FetchState.Correct {
        return;
      }
      TrimWrong();
      Resume();
    }

    /** Back on the correct path, at the saved point. */
    method Resume()
      requires Valid()
      modifies this`books, this`cur, this`fstate, this`n, this`eof, this`log
      ensures Valid()
      ensures var s := old(State());
              State() == s.(books := s.books.(resolvedFe := s.books.lastBr.pos.feIdx, resolvedValid := true),
                            cur := LeaveShadow(s.cur), fstate := Correct,
                            n := s.n.(nLeave := s.n.nLeave + 1), eof := false, log := s.log + [Leave])
    {
      hide LeaveShadow;
      books := books.(resolvedFe := books.lastBr.pos.feIdx, resolvedValid := true);
      cur := Restore(cur);
      fstate := FetchState.Correct;
      n := n.(nLeave := n.nLeave + 1);
      eof := false;
      log := log + [Leave];
    }

    /** Drops the wrong-path suffix of staging. */
    method TrimWrong()
      requires Valid()
      modifies this`cnt, this`slots
      ensures Valid() && slots == old(slots)[..PrefixLen(old(slots))]
    {
      cnt := CorrectPrefix();
      slots := slots[..cnt];
    }

    /** The saved point, and no longer in a shadow (the source asserts this). */
    static method Restore(c: Cursor) returns (r: Cursor)
      ensures r == LeaveShadow(c) && !r.inShadow
    {
      r := LeaveShadow(c);
    }

    /** Where the wrong-path suffix of staging starts. */
    method CorrectPrefix() returns (i: nat)
      requires Valid()
      ensures i == PrefixLen(slots)
    {
      i := 0;
      while i < cnt
        invariant i <= cnt
        invariant forall j :: 0 <= j < i ==> !IsWrong(slots[j].ent.uop)
      {
        assert slots[i].ent == stage[head + i];
        if stage[head + i].uop.duop.wrongpath {
          return;
        }
        i := i + 1;
      }
    }

    /** The first staged entry with the shadow bit. */
    method FindShadow() returns (i: nat)
      requires Valid()
      ensures i == FirstShadow(slots)
    {
      i := 0;
      while i < cnt
        invariant i <= cnt
        invariant forall j :: 0 <= j < i ==> !slots[j].ent.hasShadow
      {
        assert slots[i].ent == stage[head + i];
        if stage[head + i].hasShadow {
          FirstShadowIs(slots, i);
          return;
        }
        i := i + 1;
      }
      FirstShadowIs(slots, i);
    }

    /** Delivers staged entry `i` and keeps the books. */
    method TakeEntry(i: nat)
      requires Valid() && i < cnt
      modifies this`log, this`n, this`lastDeliv, this`brConsumed
      ensures Valid()
      ensures var s := old(State()).(stage := slots[i..]);
              && State() == TakeOne(s).(stage := slots, n := TakeOne(s).n.(consumed := s.n.consumed))
              && TakeOne(s).stage == slots[i + 1..]
    {
      assert slots[i..][0] == slots[i];
      assert slots[i..][1..] == slots[i + 1..];
      var ent := stage[head + i];
      assert slots[i].ent == ent && slots[i].pos == pos[head + i];
      log := log + [Deliver(ent.uop)];
      if ent.uop.duop.wrongpath {
        n := n.(wpConsumed := n.wpConsumed + 1);
        return;
      }
      n := n.(cpConsumed := n.cpConsumed + 1);
      lastDeliv := Some(pos[head + i]);
      if ent.hasShadow {
        brConsumed := Some(pos[head + i]);
      }
    }

    /** Delivers the first `k` staged entries, leaving them in the arrays. */
    method TakeLoop(k: nat)
      requires Valid() && k <= cnt
      modifies this`log, this`n, this`lastDeliv, this`brConsumed
      ensures Valid()
      ensures TakeN(old(State()), k) == State().(stage := slots[k..], n := n.(consumed := n.consumed + k))
    {
      hide TakeOne; hide TakeN;
      ghost var s0 := State();
      TakeNZero(s0);
      var i := 0;
      while i < k
        invariant i <= k && Valid()
        invariant TakeN(s0, i) == State().(stage := slots[i..], n := n.(consumed := n.consumed + i))
      {
        TakeNSnoc(s0, i);
        TakeOneConsumed(State().(stage := slots[i..]), n.consumed + i);
        TakeEntry(i);
        i := i + 1;
      }
    }

    /** Accounts for the entries taken from the head of staging. */
    method TakeEntries(take: nat)
      requires Valid()
      modifies this
      ensures Valid()
      ensures aborted == old(aborted)
      ensures State() == ConsumeTake(old(State()), take)
    {
      hide TakeN;
      var k := if take > cnt then cnt else take;
      brConsumed, lastDeliv := None, None;
      TakeLoop(k);
      DropFront(k);
    }

    /** The first `k` entries leave staging. */
    method DropFront(k: nat)
      requires Valid() && k <= cnt
      modifies this`head, this`cnt, this`n, this`slots
      ensures Valid()
      ensures var s := old(State());
              State() == s.(stage := s.stage[k..], n := s.n.(consumed := s.n.consumed + k))
    {
      head := head + k;
      cnt := cnt - k;
      n := n.(consumed := n.consumed + k);
      slots := slots[k..];
    }

    /** One lane's share of the consume call. */
    method Consume(take: nat, redirect: bool, redirShadow: bool)
      requires Valid() && !aborted
      modifies this, stage, pos
      ensures Valid()
      ensures State() == Step(trace, old(State()), Input.Consume(take, redirect, redirShadow))
    {
      TakeEntries(take);
      if redirect {
        if redirShadow {
          LaneEnter();
        } else {
          LaneLeave();
        }
        if !aborted {
          Gather();
        }
      }
    }
  }
}
