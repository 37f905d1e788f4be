/** Which level serves an access (preprocess/cachesim/cachesim.cpp:651-697), when a prefetch is
    issued (640-649), and what the counters count: all told from the lines the caches hold
    before the call. */
module ServedLevel {
  import opened Options
  import opened CacheSpec
  import opened HierarchySpec
  import opened HierarchyProofs

  // ---- the caches at the time the lower levels are asked ----

  /** The first-level cache an access goes to. */
  function First(h: Hier, ifetch: bool): Cache { if ifetch then h.l1i else h.l1d }

  /** L1D once the first level has been accessed. */
  function DataAfter(h: Hier, la: nat, store: bool, ifetch: bool): (c: Cache)
    requires WellFormed(h)
    ensures |c.data| == c.sets
  {
    if ifetch || !Enabled(h.l1d) then h.l1d
    else AccessLines(h.l1d, Access(la, store, false, true), la); AccessCache(h.l1d, Access(la, store, false, true)).cache
  }

  /** The line a demand access drives out of L2. */
  function DrivenOut(h: Hier, la: nat): Option<Line>
    requires WellFormed(h)
  {
    if Enabled(h.l2) then AccessCache(h.l2, Access(la, false, false, true)).victim else None
  }

  /** That line is written back: it is dirty in L2, or back-invalidation finds it dirty in L1D. */
  predicate WritesBack(h: Hier, la: nat, store: bool, ifetch: bool)
    requires WellFormed(h)
  {
    DrivenOut(h, la).Some?
    && var v := DrivenOut(h, la).value;
       v.dirty || (h.inclusive && IsDirty(DataAfter(h, la, store, ifetch), v.tag))
  }

  /** L3 once the victim of L2 has been written back. */
  function ThirdThen(h: Hier, la: nat, store: bool, ifetch: bool): (c: Cache)
    requires WellFormed(h)
    ensures |c.data| == c.sets
  {
    if Enabled(h.l3) && WritesBack(h, la, store, ifetch) then
      var a := Access(DrivenOut(h, la).value.tag, true, false, false);
      AccessLines(h.l3, a, la); AccessCache(h.l3, a).cache
    else h.l3
  }

  // ---- L3 around an L2 access ----

  /** An L3 access changes L3 and the count of memory writes. */
  lemma {:induction false} ThirdIs(h: Hier, a: Access, from: Place)
    requires WellFormed(h) && Enabled(h.l3)
    ensures var (h', hit) := L3Access(h, a, from);
            && h'.l3 == AccessCache(h.l3, a).cache
            && hit == Has(h.l3, a.line)
            && h'.st == h.st.(dramWb := h'.st.dramWb)
  {
    AccessLines(h.l3, a, a.line);
    hide AccessCache; hide Lookup;
  }

  /** A line leaving L2 goes down to L3, if there is one, exactly when it is dirty somewhere. */
  lemma {:induction false} LeavesIs(h: Hier, v: Line, d: bool)
    requires WellFormed(h)
    ensures var h' := L2Leaves(h, v, d);
            && h'.l3 == (if Enabled(h.l3) && (v.dirty || d)
                         then AccessCache(h.l3, Access(v.tag, true, false, false)).cache else h.l3)
            && h'.st == h.st.(pfEvictedUnused := h'.st.pfEvictedUnused, l2Wb := h'.st.l2Wb, dramWb := h'.st.dramWb)
  {
    hide AccessCache; hide L3Access;
    var h2 := if v.pf then h.(st := h.st.(pfEvictedUnused := h.st.pfEvictedUnused + 1)) else h;
    var h3 := h2.(st := h2.st.(l2Wb := h2.st.l2Wb + 1));
    if Enabled(h.l3) { ThirdIs(h3, Access(v.tag, true, false, false), if d then InL1D else InL2); }
  }

  /** Counters an L2 access and its victim leave alone. */
  ghost predicate SameDemand(a: Stats, b: Stats) {
    b == a.(pfEvictedUnused := b.pfEvictedUnused, backInval := b.backInval,
            l1dWb := b.l1dWb, l2Wb := b.l2Wb, dramWb := b.dramWb)
  }

  lemma {:induction false} SecondIs(h: Hier, a: Access)
    requires WellFormed(h) && Enabled(h.l2)
    ensures var (h', hit, useful) := L2Access(h, a);
            var v := AccessCache(h.l2, a).victim;
            && hit == Has(h.l2, a.line)
            && useful == (a.demand && IsPf(h.l2, a.line))
            && SameDemand(h.st, h'.st)
            && h'.l3 == (if Enabled(h.l3) && v.Some? && (v.value.dirty || (h.inclusive && IsDirty(h.l1d, v.value.tag)))
                         then AccessCache(h.l3, Access(v.value.tag, true, false, false)).cache else h.l3)
            && h'.l2 == AccessCache(h.l2, a).cache
  {
    AccessLines(h.l2, a, a.line);
    var r := AccessCache(h.l2, a);
    hide AccessCache; hide Lookup; hide L2Leaves; hide BackInvalidate;
    L2EvictLines(h.(l2 := r.cache), r.victim, a.line);
    if r.victim.Some? {
      var v := r.victim.value;
      BackInvalidateLines(h.(l2 := r.cache), v.tag, v.tag);
      var (h1, d) := BackInvalidate(h.(l2 := r.cache), v.tag);
      LeavesIs(h1, v, d);
    }
  }

  lemma {:induction false} FirstIs(h: Hier, la: nat, store: bool, ifetch: bool)
    requires WellFormed(h)
    ensures var r := L1Access(h, la, store, ifetch);
            && r.hit == Has(First(h, ifetch), la)
            && r.h.l2 == h.l2 && r.h.l3 == h.l3 && r.h.inclusive == h.inclusive && r.h.log == h.log
            && r.h.l1d == DataAfter(h, la, store, ifetch)
            && r.h.st == (if Enabled(First(h, ifetch)) then CountL1(h.st, ifetch, r.hit) else h.st)
  {
    hide AccessCache; hide Lookup;
    var c := First(h, ifetch);
    if Enabled(c) { AccessLines(c, Access(la, store && !ifetch, false, true), la); } else { NotHeld(c, la); }
  }

  lemma {:induction false} WriteBackSame(h: Hier, victim: Option<Line>)
    requires WellFormed(h)
    ensures SameDemand(h.st, WriteBackL1(h, victim).st)
  {
    hide L2Access; hide AccessCache;
    if victim.Some? && victim.value.dirty && Enabled(h.l2) {
      var h1 := h.(st := h.st.(l1dWb := h.st.l1dWb + 1));
      SecondIs(Moved(h1, victim.value.tag, InL1D, InL2), Access(victim.value.tag, true, false, false));
    }
  }

  /** An L2 access with its counts. */
  function CountedSecond(h: Hier, a: Access): Hier
    requires WellFormed(h) && Enabled(h.l2)
  {
    var (h1, hit, useful) := L2Access(h, a);
    h1.(st := CountL2(h1.st, hit, useful))
  }

  /** What the levels below L1 answer. */
  lemma {:induction false} BelowIs(h: Hier, la: nat)
    requires WellFormed(h)
    ensures var s := Below(h, la);
            var third := if Enabled(h.l2) then L2Access(h, Access(la, false, false, true)).0.l3 else h.l3;
            && |third.data| == third.sets
            && s.level == (if Has(h.l2, la) then 1 else if Has(third, la) then 2 else 3)
            && s.pfHit == (s.level == 1 && IsPf(h.l2, la))
            && Counted(h, s)
  {
    hide L2Access; hide L3Access; hide AccessCache; hide Lookup;
    var a := Access(la, false, false, true);
    if Enabled(h.l2) { SecondIs(h, a); } else { NotHeld(h.l2, la); }
    var h2 := if Enabled(h.l2) then CountedSecond(h, a) else h;
    if Enabled(h2.l3) { ThirdIs(h2, a, InMemory); } else { NotHeld(h2.l3, la); }
  }

  lemma {:induction false} NotHeld(c: Cache, x: nat)
    requires !Enabled(c) && |c.data| == c.sets
    ensures Lookup(c, x).None?
  {
  }

  /** The counts of an access that missed L1 are those of the level that served it. */
  ghost predicate Counted(h: Hier, s: Served) {
    && s.h.st.l2Acc == h.st.l2Acc + One(Enabled(h.l2))
    && s.h.st.l2Hit == h.st.l2Hit + One(s.level == 1)
    && s.h.st.pfUseful == h.st.pfUseful + One(s.pfHit)
    && s.h.st.l3Acc == h.st.l3Acc + One(s.level >= 2 && Enabled(h.l3))
    && s.h.st.l3Hit == h.st.l3Hit + One(s.level == 2)
    && s.h.st.dramAcc == h.st.dramAcc + One(s.level == 3)
    && s.h.st.pfIssued == h.st.pfIssued && s.h.st.pfRedundant == h.st.pfRedundant
    && SameL1Counts(h, s.h)
  }

  /** Main theorem on the served level, for every well-formed state.  Level 0 exactly if the
      first-level cache holds the line; else 1 exactly if L2 does; else 2 exactly if L3 does
      once the victim of L2 has been written back; else memory.  The prefetch mark is reported
      exactly with a line L2 held flagged. */
  lemma {:induction false} ServedFrom(h: Hier, la: nat, store: bool, ifetch: bool)
    requires WellFormed(h)
    ensures var s := AccessLine(h, la, store, ifetch);
            && (s.level == 0 <==> Has(First(h, ifetch), la))
            && (s.level == 1 <==> !Has(First(h, ifetch), la) && Has(h.l2, la))
            && (s.level == 2 <==> !Has(First(h, ifetch), la) && !Has(h.l2, la) && Has(ThirdThen(h, la, store, ifetch), la))
            && s.level <= 3
            && (s.pfHit <==> s.level == 1 && IsPf(h.l2, la))
  {
    hide L1Access; hide Below; hide L2Access; hide AccessCache; hide Lookup; hide WriteBackL1;
    FirstIs(h, la, store, ifetch);
    var l1 := L1Access(h, la, store, ifetch);
    if !l1.hit {
      BelowIs(l1.h, la);
      if Enabled(h.l2) { SecondIs(l1.h, Access(la, false, false, true)); }
    }
  }

  /** The same L3, line by line: a write-back takes a line out of it only as its victim. */
  lemma {:induction false} ThirdHolds(h: Hier, la: nat, store: bool, ifetch: bool)
    requires WellFormed(h) && !Has(h.l2, la)
    ensures Has(ThirdThen(h, la, store, ifetch), la) <==>
              Has(h.l3, la)
              && !(WritesBack(h, la, store, ifetch) && Enabled(h.l3) && Drops(h.l3, DrivenOut(h, la).value.tag, la))
  {
    hide AccessCache; hide Lookup; hide DataAfter;
    if Enabled(h.l2) { AccessLines(h.l2, Access(la, false, false, true), la); }
    if Enabled(h.l3) && WritesBack(h, la, store, ifetch) {
      AccessLines(h.l3, Access(DrivenOut(h, la).value.tag, true, false, false), la);
    }
  }

  /** Writing `v` back to a cache drives line `x` out of it. */
  predicate Drops(c: Cache, v: nat, x: nat)
    requires Valid(c) && Enabled(c)
  {
    var r := AccessCache(c, Access(v, true, false, false));
    r.victim.Some? && r.victim.value.tag == x
  }

  // ---- prefetches ----

  /** A prefetch is redundant exactly if L1D or L2 holds the line, and then only counted.
      Otherwise it is issued, and L2 ends up with the line, clean and flagged. */
  lemma {:induction false} PrefetchIssued(h: Hier, la: nat)
    requires WellFormed(h)
    ensures var h' := IssuePrefetch(h, la);
            if Has(h.l1d, la) || Has(h.l2, la) then
              h' == h.(st := h.st.(pfRedundant := h.st.pfRedundant + 1))
            else
              && h'.st.pfIssued == h.st.pfIssued + 1 && h'.st.pfRedundant == h.st.pfRedundant
              && SameDemand(h.st.(pfIssued := h.st.pfIssued + 1), h'.st)
              && (Enabled(h.l2) ==> Lookup(h'.l2, la) == Some(Line(la, false, true)))
              && (!Enabled(h.l2) && Enabled(h.l3) ==> Has(h'.l3, la))
  {
    hide L2Access; hide L3Access; hide AccessCache; hide Lookup; hide Probe;
    if Enabled(h.l1d) { ProbeIsHas(h.l1d, la); } else { NotHeld(h.l1d, la); }
    if Enabled(h.l2) { ProbeIsHas(h.l2, la); } else { NotHeld(h.l2, la); }
    if !Has(h.l1d, la) && !Has(h.l2, la) {
      var a, p := Access(la, false, false, false), Access(la, false, true, false);
      var h1 := h.(st := h.st.(pfIssued := h.st.pfIssued + 1));
      if Enabled(h1.l3) {
        ThirdIs(h1, a, InMemory);
        L3Upper(h1, a, InMemory);
        AccessLines(h.l3, a, la);
      }
      var h2 := if Enabled(h1.l3) then L3Access(h1, a, InMemory).0 else h1;
      if Enabled(h2.l2) {
        SecondIs(Moved(h2, la, BelowSecond(h2), InL2), p);
        AccessLines(h.l2, p, la);
      }
    }
  }

  // ---- the counters over runs ----

  /** How many accesses of a run were served at level `k`. */
  function ServedAt(c: Config, ops: seq<Op>, k: nat): nat
    requires GoodConfig(c)
  {
    if ops == [] then 0
    else
      var op := ops[|ops| - 1];
      ServedAt(c, ops[..|ops| - 1], k)
      + One(op.Touch? && AccessLine(Run(c, ops[..|ops| - 1]), op.line, op.store, op.ifetch).level == k)
  }

  /** How many instruction fetches or data accesses of a run there were, and of those how many
      the first level served. */
  function Firsts(c: Config, ops: seq<Op>, ifetch: bool, served: bool): nat
    requires GoodConfig(c)
  {
    if ops == [] then 0
    else
      var op := ops[|ops| - 1];
      Firsts(c, ops[..|ops| - 1], ifetch, served)
      + One(op.Touch? && op.ifetch == ifetch
            && (served ==> AccessLine(Run(c, ops[..|ops| - 1]), op.line, op.store, op.ifetch).level == 0))
  }

  /** How often a run found a flagged line in L2. */
  function PfHits(c: Config, ops: seq<Op>): nat
    requires GoodConfig(c)
  {
    if ops == [] then 0
    else
      var op := ops[|ops| - 1];
      PfHits(c, ops[..|ops| - 1])
      + One(op.Touch? && AccessLine(Run(c, ops[..|ops| - 1]), op.line, op.store, op.ifetch).pfHit)
  }

  /** One access moves the demand counters by the level that served it. */
  lemma {:induction false} AccessCounts(h: Hier, la: nat, store: bool, ifetch: bool)
    requires WellFormed(h)
    ensures var s := AccessLine(h, la, store, ifetch); var a, b := h.st, s.h.st;
            && s.level <= 3
            && b.l1iAcc == a.l1iAcc + One(ifetch && Enabled(h.l1i)) && b.l1iHit == a.l1iHit + One(ifetch && s.level == 0)
            && b.l1dAcc == a.l1dAcc + One(!ifetch && Enabled(h.l1d)) && b.l1dHit == a.l1dHit + One(!ifetch && s.level == 0)
            && b.l2Acc == a.l2Acc + One(s.level != 0 && Enabled(h.l2)) && b.l2Hit == a.l2Hit + One(s.level == 1)
            && b.l3Acc == a.l3Acc + One(s.level >= 2 && Enabled(h.l3)) && b.l3Hit == a.l3Hit + One(s.level == 2)
            && b.dramAcc == a.dramAcc + One(s.level == 3)
            && b.pfUseful == a.pfUseful + One(s.pfHit)
  {
    hide L1Access; hide Below; hide AccessCache; hide Lookup; hide WriteBackL1;
    FirstIs(h, la, store, ifetch);
    var l1 := L1Access(h, la, store, ifetch);
    if l1.hit { HeldMeansOn(First(h, ifetch), la); }
    if !l1.hit {
      BelowIs(l1.h, la);
      var s := Below(l1.h, la);
      WriteBackSame(StoredTo(FillL1(s.h, la, ifetch), la, store && !ifetch), l1.victim);
    }
  }

  lemma {:induction false} HeldMeansOn(c: Cache, x: nat)
    requires |c.data| == c.sets && Has(c, x)
    ensures Enabled(c)
  {
  }

  /** No run turns a level on or off. */
  lemma {:induction false} RunShape(c: Config, ops: seq<Op>)
    requires GoodConfig(c)
    ensures SameShape(Init(c), Run(c, ops))
    decreases |ops|
  {
    hide Step; hide WellFormed;
    if ops != [] { RunShape(c, ops[..|ops| - 1]); }
  }

  /** One step of a run moves the demand counters by the level that served it, if it is an
      access; a prefetch moves none of them. */
  lemma {:induction false} StepCounts(c: Config, ops: seq<Op>)
    requires GoodConfig(c) && ops != []
    ensures var p := ops[..|ops| - 1]; var op := ops[|ops| - 1]; var a, b := Run(c, p).st, Run(c, ops).st;
            if op.Prefetch? then
              SameDemand(a.(pfIssued := b.pfIssued, pfRedundant := b.pfRedundant), b)
            else
              var s := AccessLine(Run(c, p), op.line, op.store, op.ifetch);
              && s.level <= 3
              && b.l1iAcc == a.l1iAcc + One(op.ifetch && c.l1i.sets != 0)
              && b.l1iHit == a.l1iHit + One(op.ifetch && s.level == 0)
              && b.l1dAcc == a.l1dAcc + One(!op.ifetch && c.l1d.sets != 0)
              && b.l1dHit == a.l1dHit + One(!op.ifetch && s.level == 0)
              && b.l2Acc == a.l2Acc + One(s.level != 0 && c.l2.sets != 0) && b.l2Hit == a.l2Hit + One(s.level == 1)
              && b.l3Acc == a.l3Acc + One(s.level >= 2 && c.l3.sets != 0) && b.l3Hit == a.l3Hit + One(s.level == 2)
              && b.dramAcc == a.dramAcc + One(s.level == 3)
              && b.pfUseful == a.pfUseful + One(s.pfHit)
  {
    hide AccessLine; hide IssuePrefetch; hide Lookup;
    var h := Run(c, ops[..|ops| - 1]);
    RunShape(c, ops[..|ops| - 1]);
    match ops[|ops| - 1]
    case Touch(la, store, ifetch) => AccessCounts(h, la, store, ifetch);
    case Prefetch(la) => PrefetchIssued(h, la);
  }

  /** The first level: after any run its counters are the numbers of accesses made to it and
      served by it. */
  lemma {:induction false} FirstCountersAreLevels(c: Config, ops: seq<Op>)
    requires GoodConfig(c)
    ensures var st := Run(c, ops).st;
            && st.l1iHit == Firsts(c, ops, true, true) && st.l1dHit == Firsts(c, ops, false, true)
            && st.l1iAcc == (if c.l1i.sets != 0 then Firsts(c, ops, true, false) else 0)
            && st.l1dAcc == (if c.l1d.sets != 0 then Firsts(c, ops, false, false) else 0)
    decreases |ops|
  {
    hide AccessLine; hide Step;
    if ops != [] {
      FirstCountersAreLevels(c, ops[..|ops| - 1]);
      StepCounts(c, ops);
      hide Run;
    }
  }

  /** Main theorem on the counters.  After any run each demand counter is the number of
      accesses it stands for: a level is asked by exactly the accesses no level above it
      served, and hit by those it served; an access is counted in memory exactly if no cache
      served it. */
  lemma {:induction false} CountersAreLevels(c: Config, ops: seq<Op>)
    requires GoodConfig(c)
    ensures var st := Run(c, ops).st;
            && st.l2Hit == ServedAt(c, ops, 1) && st.l3Hit == ServedAt(c, ops, 2) && st.dramAcc == ServedAt(c, ops, 3)
            && st.l2Acc == (if c.l2.sets != 0 then ServedAt(c, ops, 1) + ServedAt(c, ops, 2) + ServedAt(c, ops, 3) else 0)
            && st.l3Acc == (if c.l3.sets != 0 then ServedAt(c, ops, 2) + ServedAt(c, ops, 3) else 0)
            && st.pfUseful == PfHits(c, ops)
    decreases |ops|
  {
    hide AccessLine; hide Step;
    if ops != [] {
      CountersAreLevels(c, ops[..|ops| - 1]);
      StepCounts(c, ops);
      hide Run;
    }
  }

  // ---- write-backs ----

  datatype Traffic = FromL1 | FromL2 | ToMemory

  /** The moves of the log that each write-back counter stands for. */
  predicate Is(e: DataEvent, k: Traffic, second: bool) {
    e.Move?
    && match k
       case FromL1 => e.from == InL1D && e.to == (if second then InL2 else InMemory)
       case FromL2 => second && (e.from == InL1D || e.from == InL2) && (e.to == InL3 || e.to == InMemory)
       case ToMemory => e.to == InMemory
  }

  function Moves(log: seq<DataEvent>, k: Traffic, second: bool): nat {
    if log == [] then 0 else Moves(log[..|log| - 1], k, second) + One(Is(log[|log| - 1], k, second))
  }

  /** `l1`, `l2` and `mem` write-backs are the moves of the log. */
  ghost predicate Wrote(h: Hier, l1: nat, l2: nat, mem: nat) {
    && Moves(h.log, FromL1, Enabled(h.l2)) == l1
    && Moves(h.log, FromL2, Enabled(h.l2)) == l2
    && Moves(h.log, ToMemory, Enabled(h.l2)) == mem
  }

  ghost predicate Booked(h: Hier) { Wrote(h, h.st.l1dWb, h.st.l2Wb, h.st.dramWb) }

  lemma {:induction false} WroteMove(h: Hier, x: nat, from: Place, to: Place, l1: nat, l2: nat, mem: nat)
    requires Wrote(h, l1, l2, mem)
    ensures var e, b := Move(x, from, to), Enabled(h.l2);
            Wrote(Moved(h, x, from, to),
                  l1 + One(Is(e, FromL1, b)), l2 + One(Is(e, FromL2, b)), mem + One(Is(e, ToMemory, b)))
  {
    var e := Move(x, from, to);
    assert (h.log + [e])[..|h.log|] == h.log;
  }

  lemma {:induction false} WroteStore(h: Hier, x: nat, write: bool)
    requires Booked(h)
    ensures Booked(StoredTo(h, x, write))
  {
    assert (h.log + [Store(x)])[..|h.log|] == h.log;
  }

  /** The victim of L3 books its own write; data from above is the caller's to book. */
  lemma {:induction false} WroteThirdData(h: Hier, a: Access, from: Place, hit: bool, victim: Option<Line>, l2: nat)
    requires Wrote(h, h.st.l1dWb, l2, h.st.dramWb) && (from == InMemory || a.write)
    ensures var h' := L3Data(h, a, from, hit, victim);
            && Wrote(h', h'.st.l1dWb, l2 + One(Is(Move(a.line, from, InL3), FromL2, Enabled(h.l2))), h'.st.dramWb)
            && h'.st.l1dWb == h.st.l1dWb && h'.st.l2Wb == h.st.l2Wb
  {
    hide Moves;
    var h1 := h;
    if victim.Some? && victim.value.dirty {
      WroteMove(h.(st := h.st.(dramWb := h.st.dramWb + 1)), victim.value.tag, InL3, InMemory, h.st.l1dWb, l2, h.st.dramWb);
      h1 := WriteDram(h, victim.value.tag, InL3);
    }
    if a.write || !hit { WroteMove(h1, a.line, from, InL3, h1.st.l1dWb, l2, h1.st.dramWb); }
  }

  lemma {:induction false} WroteThird(h: Hier, a: Access, from: Place, l2: nat)
    requires WellFormed(h) && Enabled(h.l3) && Wrote(h, h.st.l1dWb, l2, h.st.dramWb)
    requires from == InMemory || a.write
    ensures var h' := L3Access(h, a, from).0;
            && Wrote(h', h'.st.l1dWb, l2 + One(Is(Move(a.line, from, InL3), FromL2, Enabled(h.l2))), h'.st.dramWb)
            && h'.st.l1dWb == h.st.l1dWb && h'.st.l2Wb == h.st.l2Wb
  {
    hide AccessCache; hide Moves; hide L3Data; hide Is;
    AccessLines(h.l3, a, a.line);
    var r := AccessCache(h.l3, a);
    WroteThirdData(h.(l3 := r.cache), a, from, r.hit, r.victim, l2);
  }

  lemma {:induction false} WroteLeaves(h: Hier, v: Line, d: bool)
    requires WellFormed(h) && Enabled(h.l2) && Booked(h)
    ensures Booked(L2Leaves(h, v, d))
  {
    hide L3Access; hide Moves;
    var h2 := if v.pf then h.(st := h.st.(pfEvictedUnused := h.st.pfEvictedUnused + 1)) else h;
    if v.dirty || d {
      var from := if d then InL1D else InL2;
      var h3 := h2.(st := h2.st.(l2Wb := h2.st.l2Wb + 1));
      if Enabled(h3.l3) { WroteThird(h3, Access(v.tag, true, false, false), from, h.st.l2Wb); }
      else { WroteMove(h3, v.tag, from, InMemory, h.st.l1dWb, h.st.l2Wb, h.st.dramWb); }
    }
  }

  lemma {:induction false} WroteSecond(h: Hier, a: Access)
    requires WellFormed(h) && Enabled(h.l2) && Booked(h)
    ensures Booked(L2Access(h, a).0)
  {
    hide AccessCache; hide L2Leaves; hide BackInvalidate; hide Moves;
    AccessLines(h.l2, a, a.line);
    var r := AccessCache(h.l2, a);
    if r.victim.Some? {
      BackInvalidateLines(h.(l2 := r.cache), r.victim.value.tag, a.line);
      var (h1, d) := BackInvalidate(h.(l2 := r.cache), r.victim.value.tag);
      WroteLeaves(h1, r.victim.value, d);
    }
  }

  lemma {:induction false} WroteBelow(h: Hier, la: nat)
    requires WellFormed(h) && Booked(h)
    ensures Booked(Below(h, la).h)
  {
    hide L2Access; hide L3Access; hide Moves;
    var a := Access(la, false, false, true);
    if Enabled(h.l2) { WroteSecond(h, a); SecondIs(h, a); }
    var h2 := if Enabled(h.l2) then CountedSecond(h, a) else h;
    if Enabled(h2.l3) { WroteThird(h2, a, InMemory, h2.st.l2Wb); }
    var s := BelowL2(h2, la);
    WroteMove(s.h, la, BelowSecond(h2), InL2, s.h.st.l1dWb, s.h.st.l2Wb, s.h.st.dramWb);
  }

  lemma {:induction false} WroteInsert(h: Hier, la: nat, asPf: bool)
    requires WellFormed(h) && Booked(h)
    ensures Booked(L2Insert(h, la, false, asPf))
    ensures Booked(L2Insert(h.(st := h.st.(l1dWb := h.st.l1dWb + 1)), la, true, asPf))
  {
    hide L2Access; hide Moves;
    var h1 := h.(st := h.st.(l1dWb := h.st.l1dWb + 1));
    WroteMove(h1, la, InL1D, if Enabled(h.l2) then InL2 else InMemory, h.st.l1dWb, h.st.l2Wb, h.st.dramWb);
    WroteMove(h, la, BelowSecond(h), InL2, h.st.l1dWb, h.st.l2Wb, h.st.dramWb);
    if Enabled(h.l2) {
      WroteSecond(Moved(h1, la, InL1D, InL2), Access(la, true, asPf, false));
      WroteSecond(Moved(h, la, BelowSecond(h), InL2), Access(la, false, asPf, false));
    }
  }

  lemma {:induction false} WroteTouch(h: Hier, la: nat, store: bool, ifetch: bool)
    requires WellFormed(h) && Booked(h)
    ensures Booked(AccessLine(h, la, store, ifetch).h)
  {
    hide L1Access; hide Below; hide L2Insert; hide Moves; hide AccessCache; hide Lookup;
    FirstIs(h, la, store, ifetch);
    var l1 := L1Access(h, la, store, ifetch);
    WroteStore(l1.h, la, store && !ifetch);
    if !l1.hit {
      WroteBelow(l1.h, la);
      var s := Below(l1.h, la);
      var f := StoredTo(FillL1(s.h, la, ifetch), la, store && !ifetch);
      WroteFill(s.h, la, store, ifetch);
      if l1.victim.Some? { WroteInsert(f, l1.victim.value.tag, false); }
    }
  }

  /** Data that moves up books nothing. */
  lemma {:induction false} WroteFill(h: Hier, la: nat, store: bool, ifetch: bool)
    requires Booked(h)
    ensures Booked(StoredTo(FillL1(h, la, ifetch), la, store && !ifetch))
  {
    hide Moves; hide StoredTo;
    WroteMove(h, la, if Enabled(h.l2) then InL2 else BelowSecond(h), InL1D, h.st.l1dWb, h.st.l2Wb, h.st.dramWb);
    WroteStore(FillL1(h, la, ifetch), la, store && !ifetch);
  }

  lemma {:induction false} WrotePrefetch(h: Hier, la: nat)
    requires WellFormed(h) && Booked(h)
    ensures Booked(IssuePrefetch(h, la))
  {
    hide L2Insert; hide L3Access; hide Moves; hide Probe;
    var h1 := h.(st := h.st.(pfIssued := h.st.pfIssued + 1));
    if Enabled(h1.l3) { WroteThird(h1, Access(la, false, false, false), InMemory, h1.st.l2Wb); }
    WroteInsert(if Enabled(h1.l3) then L3Access(h1, Access(la, false, false, false), InMemory).0 else h1, la, true);
  }

  /** After any run the three write-back counters are the numbers of lines that moved down:
      out of L1D, out of L2, and into memory. */
  lemma {:induction false} WriteBacksAreMoves(c: Config, ops: seq<Op>)
    requires GoodConfig(c)
    ensures var h := Run(c, ops);
            && h.st.l1dWb == Moves(h.log, FromL1, Enabled(h.l2))
            && h.st.l2Wb == Moves(h.log, FromL2, Enabled(h.l2))
            && h.st.dramWb == Moves(h.log, ToMemory, Enabled(h.l2))
    decreases |ops|
  {
    hide AccessLine; hide IssuePrefetch;
    if ops != [] {
      WriteBacksAreMoves(c, ops[..|ops| - 1]);
      match ops[|ops| - 1]
      case Touch(la, store, ifetch) => WroteTouch(Run(c, ops[..|ops| - 1]), la, store, ifetch);
      case Prefetch(la) => WrotePrefetch(Run(c, ops[..|ops| - 1]), la);
    }
  }
}
