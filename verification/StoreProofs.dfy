/** What becomes of stores: where the newest version of a line is after any run, and when a
    load reads it. */
module StoreProofs {
  import opened Arith
  import opened Options
  import opened CacheSpec
  import opened HierarchySpec
  import HierarchyProofs

  // ---- versions of a line ----

  /** The number of stores to a line, and how many of them the data at each place contains. */
  datatype Versions = Versions(stores: nat, l1d: nat, l2: nat, l3: nat, memory: nat)

  function At(v: Versions, p: Place): nat {
    match p
    case InL1D => v.l1d
    case InL2 => v.l2
    case InL3 => v.l3
    case InMemory => v.memory
  }

  function Put(v: Versions, p: Place, n: nat): Versions {
    match p
    case InL1D => v.(l1d := n)
    case InL2 => v.(l2 := n)
    case InL3 => v.(l3 := n)
    case InMemory => v.(memory := n)
  }

  function After(v: Versions, e: DataEvent, x: nat): Versions {
    if e.line != x then v
    else
      match e
      case Store(_) => v.(stores := v.stores + 1, l1d := v.stores + 1)
      case Move(_, from, to) => Put(v, to, At(v, from))
  }

  /** Replays the stores and moves of line `x`. */
  function Replay(log: seq<DataEvent>, x: nat): Versions {
    if log == [] then Versions(0, 0, 0, 0, 0)
    else After(Replay(log[..|log| - 1], x), log[|log| - 1], x)
  }

  predicate WritesMemory(e: DataEvent, x: nat) { e.Move? && e.line == x && e.to == InMemory }

  /** Memory is only ever written with lines somebody stored to. */
  predicate WritesJustified(log: seq<DataEvent>, x: nat) {
    forall i :: 0 <= i < |log| && WritesMemory(log[i], x) ==> Store(x) in log[..i]
  }

  predicate DirtyAny(h: Hier, x: nat)
    requires |h.l1d.data| == h.l1d.sets && |h.l2.data| == h.l2.sets && |h.l3.data| == h.l3.sets
  {
    IsDirty(h.l1d, x) || IsDirty(h.l2, x) || IsDirty(h.l3, x)
  }

  /** The topmost dirty copy, or memory. */
  function Newest(h: Hier, x: nat): Place
    requires |h.l1d.data| == h.l1d.sets && |h.l2.data| == h.l2.sets && |h.l3.data| == h.l3.sets
  {
    if IsDirty(h.l1d, x) then InL1D
    else if IsDirty(h.l2, x) then InL2
    else if IsDirty(h.l3, x) then InL3
    else InMemory
  }

  /** Where a load of `x` finds its data: the topmost copy, or memory. */
  function Supplier(h: Hier, x: nat): Place
    requires |h.l1d.data| == h.l1d.sets && |h.l2.data| == h.l2.sets && |h.l3.data| == h.l3.sets
  {
    if Has(h.l1d, x) then InL1D
    else if Has(h.l2, x) then InL2
    else if Has(h.l3, x) then InL3
    else InMemory
  }

  lemma {:induction false} LogSnoc(log: seq<DataEvent>, e: DataEvent, x: nat)
    ensures Replay(log + [e], x) == After(Replay(log, x), e, x)
    ensures (Store(x) in log + [e]) == (Store(x) in log || e == Store(x))
    ensures WritesJustified(log, x) && (WritesMemory(e, x) ==> Store(x) in log) ==> WritesJustified(log + [e], x)
  {
    assert (log + [e])[..|log|] == log;
    if WritesJustified(log, x) && (WritesMemory(e, x) ==> Store(x) in log) {
      forall i | 0 <= i < |log + [e]| && WritesMemory((log + [e])[i], x)
        ensures Store(x) in (log + [e])[..i]
      {
        assert (log + [e])[..i] == log[..i];
      }
    }
  }

  // ---- the books on one line ----

  /** What L1D does with line `x` at this moment: it rests in the levels that hold it, its
      evicted copy is on its way down, or its tag is in but its data still to come. */
  datatype Mode = AtRest | InTransit | Awaited

  /** Whether there is a copy, and whether it is dirty. */
  function Dirt(l: Option<Line>): Option<bool> { if l.Some? then Some(l.value.dirty) else None }

  function Up(h: Hier, x: nat, m: Mode): Option<bool>
    requires |h.l1d.data| == h.l1d.sets
  {
    match m
    case AtRest => Dirt(Lookup(h.l1d, x))
    case InTransit => Some(true)
    case Awaited => None
  }

  /** The levels whose data must be the newest, given the copies above, in L2 and in L3;
      `all` asks it of clean copies as well. */
  predicate Current(v: Versions, up: Option<bool>, second: Option<bool>, third: Option<bool>, all: bool) {
    && (up == Some(true) || (all && up.Some?) ==> v.l1d == v.stores)
    && (up != Some(true) && (second == Some(true) || (all && second.Some?)) ==> v.l2 == v.stores)
    && (up != Some(true) && second != Some(true) && (third == Some(true) || (all && third.Some?)) ==> v.l3 == v.stores)
    && (up != Some(true) && second != Some(true) && third != Some(true) ==> v.memory == v.stores)
  }

  /** No write-back of L1D can go past a copy of its line in L3: there is an L2, or no L3, or
      the miss that evicted the line has taken its only place in L3. */
  predicate NoBypass(l1d: nat, l2: nat, l3: nat, l3Ways: nat) {
    l2 != 0 || l3 == 0 || (l3Ways == 1 && l1d % l3 == 0)
  }

  predicate AllCurrent(h: Hier) { NoBypass(h.l1d.sets, h.l2.sets, h.l3.sets, h.l3.ways) }

  ghost predicate Books(h: Hier, x: nat) {
    && WellFormed(h)
    && WritesJustified(h.log, x)
    && !IsDirty(h.l1i, x)
    && (!Enabled(h.l2) ==> !IsDirty(h.l3, x))
  }

  /** The books on line `x`; `second` is the data-bearing copy in L2. */
  ghost predicate Tracked(h: Hier, x: nat, m: Mode, second: Option<bool>) {
    && Books(h, x)
    && (m == InTransit ==> !Has(h.l1d, x))
    && (Up(h, x, m) == Some(true) || second == Some(true) || IsDirty(h.l3, x) ==> Store(x) in h.log)
    && Current(Replay(h.log, x), Up(h, x, m), second, Dirt(Lookup(h.l3, x)), AllCurrent(h))
  }

  function Second(h: Hier, x: nat): Option<bool>
    requires |h.l2.data| == h.l2.sets
  {
    Dirt(Lookup(h.l2, x))
  }

  // ---- writes to L3 and memory ----

  /** What a write of `x` from place `from` to the levels below L2 needs. */
  ghost predicate Leaving(h: Hier, x: nat, m: Mode, from: Place) {
    && Books(h, x) && Store(x) in h.log
    && (m == InTransit ==> !Has(h.l1d, x))
    && var v := Replay(h.log, x);
       var up := Up(h, x, m);
       && (up == Some(true) || (AllCurrent(h) && up.Some?) ==> v.l1d == v.stores)
       && (up != Some(true) ==> At(v, from) == v.stores)
  }

  lemma {:induction false} MoveSnoc(log: seq<DataEvent>, y: nat, from: Place, to: Place, x: nat)
    requires WritesJustified(log, x) && (y == x && to == InMemory ==> Store(x) in log)
    ensures var log' := log + [Move(y, from, to)];
            var v := Replay(log, x);
            && WritesJustified(log', x) && (Store(x) in log') == (Store(x) in log)
            && Replay(log', x) == if y == x then Put(v, to, At(v, from)) else v
  {
    hide WritesJustified; hide Replay; hide Put;
    LogSnoc(log, Move(y, from, to), x);
  }

  /** What an L3 access means for the data of line `x`. */
  lemma {:induction false} L3Log(h: Hier, a: Access, from: Place, x: nat)
    requires WellFormed(h) && Enabled(h.l3) && WritesJustified(h.log, x)
    requires IsDirty(h.l3, x) ==> Store(x) in h.log
    ensures var r := AccessCache(h.l3, a);
            var h' := L3Access(h, a, from).0;
            var v := Replay(h.log, x);
            && h' == h.(l3 := r.cache, st := h'.st, log := h'.log)
            && WritesJustified(h'.log, x) && (Store(x) in h'.log) == (Store(x) in h.log)
            && Replay(h'.log, x) ==
               (if r.victim.Some? && r.victim.value.tag == x then (if r.victim.value.dirty then v.(memory := v.l3) else v)
                else if a.line == x && (a.write || !r.hit) then v.(l3 := At(v, from))
                else v)
  {
    hide AccessCache; hide Lookup; hide Replay; hide WritesJustified; hide At;
    AccessLines(h.l3, a, x);
    var r := AccessCache(h.l3, a);
    var log := h.log;
    if r.victim.Some? && r.victim.value.dirty {
      MoveSnoc(log, r.victim.value.tag, InL3, InMemory, x);
      assert At(Replay(log, x), InL3) == Replay(log, x).l3 by { AtL3(Replay(log, x)); }
      log := log + [Move(r.victim.value.tag, InL3, InMemory)];
    }
    MoveSnoc(log, a.line, from, InL3, x);
  }

  lemma {:induction false} AtL3(v: Versions)
    ensures At(v, InL3) == v.l3
  {
  }

  /** A write into L3 leaves the newest version there, unless a dirty copy remains above. */
  lemma {:induction false} L3WriteTracked(h: Hier, a: Access, from: Place, m: Mode)
    requires Enabled(h.l3) && Enabled(h.l2) && a.write && Leaving(h, a.line, m, from)
    ensures Tracked(L3Access(h, a, from).0, a.line, m, None)
  {
    hide AccessCache; hide L3Access; hide Lookup; hide Replay; hide WritesJustified;
    AccessLines(h.l3, a, a.line);
    L3Log(h, a, from, a.line);
  }

  lemma {:induction false} NoCopy(c: Cache, x: nat)
    requires |c.data| == c.sets && !Enabled(c)
    ensures Lookup(c, x) == None
  {
  }

  /** The same for a write to memory. */
  lemma {:induction false} DramWriteTracked(h: Hier, x: nat, from: Place, m: Mode)
    requires Leaving(h, x, m, from)
    requires !IsDirty(h.l3, x) && (AllCurrent(h) ==> !Has(h.l3, x))
    ensures Tracked(WriteDram(h, x, from), x, m, None)
  {
    hide Lookup; hide Replay; hide WritesJustified;
    LogSnoc(h.log, Move(x, from, InMemory), x);
  }

  /** Nothing happens to the books of other lines. */
  lemma {:induction false} OtherMove(h: Hier, y: nat, from: Place, to: Place, x: nat, m: Mode, second: Option<bool>)
    requires Tracked(h, x, m, second) && x != y
    ensures Tracked(Moved(h, y, from, to), x, m, second)
  {
    hide Lookup; hide Replay; hide WritesJustified;
    LogSnoc(h.log, Move(y, from, to), x);
  }

  lemma {:induction false} StatsTracked(h: Hier, st: Stats, x: nat, m: Mode, second: Option<bool>)
    requires Tracked(h, x, m, second)
    ensures Tracked(h.(st := st), x, m, second)
  {
  }

  /** A read of L3, or a write of another line: a dirty victim takes its version to memory,
      and a read that misses takes it from there. */
  lemma {:induction false} L3Tracked(h: Hier, a: Access, from: Place, x: nat, m: Mode, second: Option<bool>)
    requires Enabled(h.l3) && Tracked(h, x, m, second)
    requires a.line == x ==> !a.write && from == InMemory
    requires !Enabled(h.l2) ==> !a.write
    ensures Tracked(L3Access(h, a, from).0, x, m, second)
    ensures a.line == x ==> Has(L3Access(h, a, from).0.l3, x)
  {
    hide AccessCache; hide L3Access; hide Lookup; hide Replay; hide WritesJustified;
    AccessLines(h.l3, a, x);
    L3Log(h, a, from, x);
  }

  // ---- L2 ----

  function Evicts(victim: Option<Line>, x: nat): bool { victim.Some? && victim.value.tag == x }

  lemma {:induction false} OtherDram(h: Hier, y: nat, from: Place, x: nat, m: Mode, second: Option<bool>)
    requires Tracked(h, x, m, second) && x != y
    ensures Tracked(WriteDram(h, y, from), x, m, second)
  {
    hide Tracked;
    StatsTracked(h, h.st.(dramWb := h.st.dramWb + 1), x, m, second);
    OtherMove(h.(st := h.st.(dramWb := h.st.dramWb + 1)), y, from, InMemory, x, m, second);
  }

  lemma {:induction false} LeavesOther(h: Hier, v: Line, d: bool, x: nat, m: Mode, second: Option<bool>)
    requires Enabled(h.l2) && Tracked(h, x, m, second) && x != v.tag
    ensures Tracked(L2Leaves(h, v, d), x, m, second)
  {
    hide Tracked; hide L3Access; hide WriteDram;
    var h2 := if v.pf then h.(st := h.st.(pfEvictedUnused := h.st.pfEvictedUnused + 1)) else h;
    var h3 := h2.(st := h2.st.(l2Wb := h2.st.l2Wb + 1));
    StatsTracked(h, h2.st, x, m, second);
    StatsTracked(h, h3.st, x, m, second);
    var from := if d then InL1D else InL2;
    if v.dirty || d {
      if Enabled(h3.l3) {
        L3Tracked(h3, Access(v.tag, true, false, false), from, x, m, second);
      } else {
        OtherDram(h3, v.tag, from, x, m, second);
      }
    }
  }

  lemma {:induction false} LeavesOwn(h: Hier, v: Line, d: bool, m: Mode)
    requires Enabled(h.l2)
    requires v.dirty || d ==> Leaving(h, v.tag, m, if d then InL1D else InL2)
    requires !(v.dirty || d) ==> Tracked(h, v.tag, m, None)
    requires WellFormed(h)
    ensures Tracked(L2Leaves(h, v, d), v.tag, m, None)
  {
    hide Tracked; hide L3Access; hide WriteDram; hide Lookup; hide Replay; hide WritesJustified;
    var h2 := if v.pf then h.(st := h.st.(pfEvictedUnused := h.st.pfEvictedUnused + 1)) else h;
    var h3 := h2.(st := h2.st.(l2Wb := h2.st.l2Wb + 1));
    var from := if d then InL1D else InL2;
    if !(v.dirty || d) {
      StatsTracked(h, h2.st, v.tag, m, None);
    } else if Enabled(h3.l3) {
      L3WriteTracked(h3, Access(v.tag, true, false, false), from, m);
    } else {
      NoCopy(h3.l3, v.tag);
      DramWriteTracked(h3, v.tag, from, m);
    }
  }

  /** The victim of L2 with whatever L1D held of it goes down; all other lines stay put. */
  lemma {:induction false} L2EvictTracked(h: Hier, victim: Option<Line>, x: nat, m: Mode, second: Option<bool>)
    requires Enabled(h.l2) && Tracked(h, x, m, second)
    requires Evicts(victim, x) ==> m != Awaited && second == Some(victim.value.dirty)
    ensures Tracked(L2Evict(h, victim), x, m, if Evicts(victim, x) then None else second)
  {
    hide Invalidate; hide Lookup; hide BackInvalidate; hide L2Leaves; hide Replay; hide WritesJustified;
    if victim.Some? {
      var v := victim.value;
      HierarchyProofs.BackInvalidateLines(h, v.tag, x);
      var (h1, d) := BackInvalidate(h, v.tag);
      if v.tag != x {
        LeavesOther(h1, v, d, x, m, second);
      } else {
        LeavesOwn(h1, v, d, m);
      }
    }
  }

  /** An L2 access, for another line than its own. */
  lemma {:induction false} L2OtherTracked(h: Hier, a: Access, x: nat, m: Mode)
    requires WellFormed(h) && Enabled(h.l2) && Tracked(h, x, m, Second(h, x)) && x != a.line && m != Awaited
    ensures Tracked(L2Access(h, a).0, x, m, Second(L2Access(h, a).0, x))
  {
    hide AccessCache; hide Lookup; hide L2Evict; hide Current; hide Replay; hide WritesJustified;
    AccessLines(h.l2, a, x);
    var r := AccessCache(h.l2, a);
    L2EvictTracked(h.(l2 := r.cache), r.victim, x, m, Second(h, x));
    HierarchyProofs.L2EvictLines(h.(l2 := r.cache), r.victim, x);
  }

  /** An L2 access, for its own line; `second` is the copy whose data has arrived. */
  lemma {:induction false} L2OwnTracked(h: Hier, a: Access, m: Mode, second: Option<bool>)
    requires WellFormed(h) && Enabled(h.l2) && Tracked(h, a.line, m, second)
    ensures var h' := L2Access(h, a).0;
            && Tracked(h', a.line, m, second)
            && Lookup(h'.l1d, a.line) == Lookup(h.l1d, a.line)
            && Lookup(h'.l2, a.line) == AfterAccess(Lookup(h.l2, a.line), None, a, a.line)
            && L2Access(h, a).1 == Has(h.l2, a.line)
  {
    hide AccessCache; hide Lookup; hide L2Evict; hide Current; hide Replay; hide WritesJustified;
    AccessLines(h.l2, a, a.line);
    var r := AccessCache(h.l2, a);
    L2EvictTracked(h.(l2 := r.cache), r.victim, a.line, m, second);
    HierarchyProofs.L2EvictLines(h.(l2 := r.cache), r.victim, a.line);
  }

  /** The level that supplies a line missing in L2 holds it, if it is a cache. */
  predicate Arrived(h: Hier, x: nat)
    requires |h.l3.data| == h.l3.sets
  {
    Enabled(h.l3) ==> Has(h.l3, x)
  }

  /** Data arriving in L2 is the newest, unless a dirty copy is above. */
  lemma {:induction false} FillL2Tracked(h: Hier, x: nat, m: Mode)
    requires WellFormed(h) && Enabled(h.l2) && Tracked(h, x, m, None) && Arrived(h, x)
    ensures Tracked(Moved(h, x, BelowSecond(h), InL2), x, m, Some(false))
  {
    hide Lookup; hide Replay; hide WritesJustified;
    LogSnoc(h.log, Move(x, BelowSecond(h), InL2), x);
    if !Enabled(h.l3) { NoCopy(h.l3, x); }
  }

  lemma {:induction false} BelowL2Tracked(h: Hier, la: nat, x: nat, m: Mode, second: Option<bool>)
    requires WellFormed(h) && Tracked(h, x, m, second)
    ensures Tracked(BelowL2(h, la).h, x, m, second)
    ensures x == la ==> Arrived(BelowL2(h, la).h, x)
    ensures BelowL2(h, la).h.l2 == h.l2 && BelowL2(h, la).h.l1d == h.l1d
  {
    hide L3Access; hide Lookup; hide Current; hide Replay; hide WritesJustified;
    if Enabled(h.l3) {
      L3Tracked(h, Access(la, false, false, true), InMemory, x, m, second);
      HierarchyProofs.L3Upper(h, Access(la, false, false, true), InMemory);
    }
  }

  /** An L1 miss, for another line. */
  lemma {:induction false} BelowOther(h: Hier, la: nat, x: nat, m: Mode)
    requires WellFormed(h) && Tracked(h, x, m, Second(h, x)) && x != la && m != Awaited
    ensures Tracked(Below(h, la).h, x, m, Second(Below(h, la).h, x))
  {
    hide L2Access; hide BelowL2; hide Tracked; hide Lookup;
    if !Enabled(h.l2) {
      BelowL2Tracked(h, la, x, m, Second(h, x));
    } else {
      var a := Access(la, false, false, true);
      L2OtherTracked(h, a, x, m);
      var (h1, hit, useful) := L2Access(h, a);
      var h2 := h1.(st := CountL2(h1.st, hit, useful));
      StatsTracked(h1, h2.st, x, m, Second(h1, x));
      if !hit {
        BelowL2Tracked(h2, la, x, m, Second(h2, x));
        OtherMove(BelowL2(h2, la).h, la, BelowSecond(h2), InL2, x, m, Second(h2, x));
      }
    }
  }

  /** An L1 miss, for its own line: afterwards the nearest level below L1 has its data. */
  lemma {:induction false} BelowOwn(h: Hier, la: nat, m: Mode)
    requires WellFormed(h) && Tracked(h, la, m, Second(h, la))
    ensures var h' := Below(h, la).h;
            && Tracked(h', la, m, Second(h', la))
            && Lookup(h'.l1d, la) == Lookup(h.l1d, la)
            && (if Enabled(h.l2) then Has(h'.l2, la) else Arrived(h', la))
  {
    hide L2Access; hide BelowL2; hide Tracked; hide Lookup;
    if !Enabled(h.l2) {
      BelowL2Tracked(h, la, la, m, Second(h, la));
    } else {
      var a := Access(la, false, false, true);
      L2OwnTracked(h, a, m, Second(h, la));
      var (h1, hit, useful) := L2Access(h, a);
      var h2 := h1.(st := CountL2(h1.st, hit, useful));
      StatsTracked(h1, h2.st, la, m, Second(h, la));
      if !hit {
        BelowL2Tracked(h2, la, la, m, None);
        FillL2Tracked(BelowL2(h2, la).h, la, m);
      }
    }
  }

  // ---- L1 ----

  /** Data arriving in L1D is the newest, and a store makes it newer. */
  lemma {:induction false} FillL1Tracked(h: Hier, x: nat, write: bool)
    requires WellFormed(h) && Enabled(h.l1d) && Tracked(h, x, Awaited, Second(h, x))
    requires Dirt(Lookup(h.l1d, x)) == Some(write)
    requires if Enabled(h.l2) then Has(h.l2, x) else Arrived(h, x)
    ensures Tracked(StoredTo(FillL1(h, x, false), x, write), x, AtRest, Second(h, x))
  {
    hide Lookup; hide Replay; hide WritesJustified;
    var h1 := FillL1(h, x, false);
    LogSnoc(h.log, Move(x, if Enabled(h.l2) then InL2 else BelowSecond(h), InL1D), x);
    LogSnoc(h1.log, Store(x), x);
    if !Enabled(h.l2) { NoCopy(h.l2, x); }
    if !Enabled(h.l3) { NoCopy(h.l3, x); }
  }

  /** A store that hits L1D makes its copy the newest. */
  lemma {:induction false} StoreTracked(h: Hier, c: Cache, x: nat, write: bool)
    requires WellFormed(h) && Enabled(h.l1d) && Tracked(h, x, AtRest, Second(h, x)) && Has(h.l1d, x)
    requires Valid(c) && c.sets == h.l1d.sets && Dirt(Lookup(c, x)) == Some(IsDirty(h.l1d, x) || write)
    ensures Tracked(StoredTo(h.(l1d := c), x, write), x, AtRest, Second(h, x))
  {
    hide Lookup; hide Replay; hide WritesJustified;
    LogSnoc(h.log, Store(x), x);
  }

  lemma {:induction false} OtherStore(h: Hier, y: nat, write: bool, x: nat, m: Mode, second: Option<bool>)
    requires WellFormed(h) && Tracked(h, x, m, second) && x != y
    ensures Tracked(StoredTo(h, y, write), x, m, second)
  {
    hide Lookup; hide Replay; hide WritesJustified;
    LogSnoc(h.log, Store(y), x);
  }

  // ---- write-backs of L1D ----

  /** The newest version arrives in L2. */
  lemma {:induction false} LandTracked(h: Hier, x: nat, second: Option<bool>)
    requires Enabled(h.l2) && Tracked(h, x, InTransit, second)
    ensures Tracked(Moved(h, x, InL1D, InL2), x, AtRest, Some(true))
  {
    hide Lookup; hide Replay; hide WritesJustified;
    LogSnoc(h.log, Move(x, InL1D, InL2), x);
  }

  /** The write-back of a dirty line ends its transit. */
  lemma {:induction false} WriteBackOwn(h: Hier, l: Line)
    requires WellFormed(h) && Tracked(h, l.tag, InTransit, Second(h, l.tag)) && l.dirty
    requires !Enabled(h.l2) && AllCurrent(h) ==> !Has(h.l3, l.tag)
    ensures Tracked(WriteBackL1(h, Some(l)), l.tag, AtRest, Second(WriteBackL1(h, Some(l)), l.tag))
  {
    hide Lookup; hide Replay; hide WritesJustified; hide L2Access;
    var x := l.tag;
    var h1 := h.(st := h.st.(l1dWb := h.st.l1dWb + 1));
    StatsTracked(h, h1.st, x, InTransit, Second(h, x));
    if !Enabled(h.l2) {
      NoCopy(h.l2, x);
      DramWriteTracked(h1, x, InL1D, AtRest);
    } else {
      LandTracked(h1, x, Second(h1, x));
      L2OwnTracked(Moved(h1, x, InL1D, InL2), Access(x, true, false, false), AtRest, Some(true));
    }
  }

  lemma {:induction false} InsertOther(h: Hier, la: nat, dirty: bool, asPf: bool, x: nat)
    requires WellFormed(h) && Tracked(h, x, AtRest, Second(h, x)) && x != la
    ensures Tracked(L2Insert(h, la, dirty, asPf), x, AtRest, Second(L2Insert(h, la, dirty, asPf), x))
  {
    hide Tracked; hide Lookup; hide L2Access;
    if Enabled(h.l2) {
      var from := if dirty then InL1D else BelowSecond(h);
      OtherMove(h, la, from, InL2, x, AtRest, Second(h, x));
      L2OtherTracked(Moved(h, la, from, InL2), Access(la, dirty, asPf, false), x, AtRest);
    } else if dirty {
      OtherDram(h, la, InL1D, x, AtRest, Second(h, x));
    }
  }

  lemma {:induction false} WriteBackOther(h: Hier, victim: Option<Line>, x: nat)
    requires WellFormed(h) && Tracked(h, x, AtRest, Second(h, x))
    requires Evicts(victim, x) ==> !victim.value.dirty
    ensures Tracked(WriteBackL1(h, victim), x, AtRest, Second(WriteBackL1(h, victim), x))
  {
    hide Tracked; hide Lookup; hide L2Insert;
    if victim.Some? && victim.value.dirty {
      var h1 := h.(st := h.st.(l1dWb := h.st.l1dWb + 1));
      StatsTracked(h, h1.st, x, AtRest, Second(h, x));
      InsertOther(h1, victim.value.tag, true, false, x);
    }
  }

  // ---- whole accesses ----

  function AfterL1(victim: Option<Line>, la: nat, ifetch: bool, x: nat): Mode {
    if !ifetch && x == la then Awaited
    else if EvictsDirty(victim, x) then InTransit
    else AtRest
  }

  predicate EvictsDirty(victim: Option<Line>, x: nat) { Evicts(victim, x) && victim.value.dirty }

  /** The first level's tags change: a hit stores at once, a miss waits for its data, and a
      dirty victim is in transit from here on. */
  lemma {:induction false} L1Tracked(h: Hier, la: nat, store: bool, ifetch: bool, x: nat)
    requires WellFormed(h) && Enabled(h.l1d) && Tracked(h, x, AtRest, Second(h, x))
    ensures var r := L1Access(h, la, store, ifetch);
            var write := store && !ifetch;
            && r.h.l1d.sets == h.l1d.sets && r.h.l2 == h.l2 && r.h.l3 == h.l3
            && (r.hit ==> Tracked(StoredTo(r.h, la, write), x, AtRest, Second(h, x)))
            && (!r.hit ==> Tracked(r.h, x, AfterL1(r.victim, la, ifetch, x), Second(h, x)))
            && (!r.hit && !ifetch ==> Dirt(Lookup(r.h.l1d, la)) == Some(write))
            && (EvictsDirty(r.victim, x) ==> x != la && !ifetch && x % h.l1d.sets == la % h.l1d.sets)
  {
    hide AccessCache; hide Lookup; hide Replay; hide WritesJustified;
    var write := store && !ifetch;
    var a := Access(la, write, false, true);
    var c := if ifetch then h.l1i else h.l1d;
    if Enabled(c) {
      AccessLines(c, a, x);
      AccessLines(c, a, la);
      VictimSet(c, a);
      var st := CountL1(h.st, ifetch, AccessCache(c, a).hit);
      StatsTracked(h, st, x, AtRest, Second(h, x));
      var h1 := h.(st := st);
      if AccessCache(c, a).hit {
        if ifetch {
          assert Tracked(h1.(l1i := AccessCache(c, a).cache), x, AtRest, Second(h, x));
        } else if x == la {
          StoreTracked(h1, AccessCache(c, a).cache, x, write);
        } else {
          assert Tracked(h1.(l1d := AccessCache(c, a).cache), x, AtRest, Second(h, x));
          if write { OtherStore(h1.(l1d := AccessCache(c, a).cache), la, true, x, AtRest, Second(h, x)); }
        }
      }
    }
  }

  /** The victim comes from the set of the line accessed. */
  lemma {:induction false} VictimSet(c: Cache, a: Access)
    requires Valid(c) && Enabled(c)
    ensures var r := AccessCache(c, a);
            r.victim.Some? ==> r.victim.value.tag % c.sets == a.line % c.sets
  {
    assert ValidSet(c, SetOf(c, a.line));
  }

  /** In a cache of one way, an access leaves nothing else in its set. */
  lemma {:induction false} OneWay(c: Cache, a: Access, x: nat)
    requires Valid(c) && Enabled(c) && c.ways == 1 && x != a.line && x % c.sets == a.line % c.sets
    ensures AccessCache(c, a).cache.sets == |AccessCache(c, a).cache.data| && !Has(AccessCache(c, a).cache, x)
  {
    var s := SetOf(c, a.line);
    assert ValidSet(c, s);
    AccessLines(c, a, x);
    var r := AccessSet(c.data[s], c.ways, a);
    assert r.set_ == [r.set_[0]] && r.set_[0].tag == a.line;
    NotFound(r.set_, x);
  }

  /** A miss takes the only place that a line of its L1D set could have in L3. */
  lemma {:induction false} PlaceTaken(h: Hier, la: nat, x: nat)
    requires WellFormed(h) && !Enabled(h.l2) && AllCurrent(h)
    requires Enabled(h.l1d) && x != la && x % h.l1d.sets == la % h.l1d.sets
    ensures !Has(Below(h, la).h.l3, x)
  {
    hide AccessCache; hide Lookup;
    if Enabled(h.l3) {
      ModOfMod(x, h.l3.sets, h.l1d.sets);
      ModOfMod(la, h.l3.sets, h.l1d.sets);
      OneWay(h.l3, Access(la, false, false, true), x);
    } else {
      NoCopy(h.l3, x);
    }
  }

  lemma {:induction false} BelowTracked(h: Hier, la: nat, x: nat, m: Mode)
    requires WellFormed(h) && Tracked(h, x, m, Second(h, x))
    requires m == Awaited ==> x == la
    ensures Tracked(Below(h, la).h, x, m, Second(Below(h, la).h, x))
  {
    hide Below; hide Tracked; hide Lookup;
    if x == la { BelowOwn(h, la, m); } else { BelowOther(h, la, x, m); }
  }

  lemma {:induction false} AccessTracked(h: Hier, la: nat, store: bool, ifetch: bool, x: nat)
    requires WellFormed(h) && Enabled(h.l1d) && Tracked(h, x, AtRest, Second(h, x))
    ensures var h' := AccessLine(h, la, store, ifetch).h;
            Tracked(h', x, AtRest, Second(h', x))
  {
    hide L1Access; hide Below; hide WriteBackL1; hide Tracked; hide Lookup; hide AllCurrent;
    L1Tracked(h, la, store, ifetch, x);
    var l1 := L1Access(h, la, store, ifetch);
    var write := store && !ifetch;
    if !l1.hit {
      var m := AfterL1(l1.victim, la, ifetch, x);
      BelowTracked(l1.h, la, x, m);
      var s := Below(l1.h, la);
      var h1 := StoredTo(FillL1(s.h, la, ifetch), la, write);
      if m == Awaited {
        BelowOwn(l1.h, la, Awaited);
        FillL1Tracked(s.h, la, write);
        WriteBackOther(h1, l1.victim, x);
      } else {
        Arriving(s.h, la, ifetch, write, x, m);
        if m == InTransit {
          if !Enabled(h1.l2) && AllCurrent(h1) {
            SameCurrent(l1.h, h1);
            PlaceTaken(l1.h, la, x);
          }
          WriteBackOwn(h1, l1.victim.value);
        } else {
          WriteBackOther(h1, l1.victim, x);
        }
      }
    }
  }

  lemma {:induction false} SameCurrent(h: Hier, h': Hier)
    requires SameShape(h, h')
    ensures AllCurrent(h) == AllCurrent(h')
  {
  }

  /** The data of another line arrives in L1D. */
  lemma {:induction false} Arriving(h: Hier, la: nat, ifetch: bool, write: bool, x: nat, m: Mode)
    requires WellFormed(h) && Tracked(h, x, m, Second(h, x)) && (x == la ==> ifetch) && (ifetch ==> !write)
    ensures Tracked(StoredTo(FillL1(h, la, ifetch), la, write), x, m, Second(h, x))
  {
    hide Tracked; hide Lookup;
    if x != la {
      var from := if Enabled(h.l2) then InL2 else BelowSecond(h);
      OtherMove(h, la, from, InL1D, x, m, Second(h, x));
      OtherStore(FillL1(h, la, ifetch), la, write, x, m, Second(h, x));
    }
  }

  lemma {:induction false} PrefetchTracked(h: Hier, la: nat, x: nat)
    requires WellFormed(h) && Enabled(h.l1d) && Tracked(h, x, AtRest, Second(h, x))
    ensures Tracked(IssuePrefetch(h, la), x, AtRest, Second(IssuePrefetch(h, la), x))
  {
    hide L2Insert; hide L3Access; hide Probe; hide Tracked; hide Lookup;
    var h1 := h.(st := h.st.(pfIssued := h.st.pfIssued + 1));
    StatsTracked(h, h.st.(pfRedundant := h.st.pfRedundant + 1), x, AtRest, Second(h, x));
    StatsTracked(h, h1.st, x, AtRest, Second(h, x));
    var h2 := h1;
    if Enabled(h1.l3) {
      L3Tracked(h1, Access(la, false, false, false), InMemory, x, AtRest, Second(h, x));
      HierarchyProofs.L3Upper(h1, Access(la, false, false, false), InMemory);
      h2 := L3Access(h1, Access(la, false, false, false), InMemory).0;
    }
    if x != la {
      InsertOther(h2, la, false, true, x);
    } else if !Enabled(h.l2) || !Probe(h.l2, la) {
      if Enabled(h.l2) { HierarchyProofs.ProbeIsHas(h.l2, la); }
      PrefetchOwn(h2, x);
    }
  }

  /** A prefetched line arrives in L2, which did not hold it. */
  lemma {:induction false} PrefetchOwn(h: Hier, x: nat)
    requires WellFormed(h) && Tracked(h, x, AtRest, Second(h, x)) && Arrived(h, x)
    requires Enabled(h.l2) ==> !Has(h.l2, x)
    ensures Tracked(L2Insert(h, x, false, true), x, AtRest, Second(L2Insert(h, x, false, true), x))
  {
    hide L2Access; hide Tracked; hide Lookup;
    if Enabled(h.l2) {
      FillL2Tracked(h, x, AtRest);
      L2OwnTracked(Moved(h, x, BelowSecond(h), InL2), Access(x, false, true, false), AtRest, Some(false));
    }
  }

  // ---- every run ----

  lemma {:induction false} RunTracked(c: Config, ops: seq<Op>, x: nat)
    requires GoodConfig(c) && c.l1d.sets != 0
    ensures var h := Run(c, ops);
            && Enabled(h.l1d) && SameShape(Init(c), h)
            && Tracked(h, x, AtRest, Second(h, x))
    decreases |ops|
  {
    hide AccessLine; hide IssuePrefetch; hide Tracked; hide Lookup;
    if ops == [] {
      InitTracked(c, x);
    } else {
      var h := Run(c, ops[..|ops| - 1]);
      RunTracked(c, ops[..|ops| - 1], x);
      match ops[|ops| - 1]
      case Touch(la, store, ifetch) => AccessTracked(h, la, store, ifetch, x);
      case Prefetch(la) => PrefetchTracked(h, la, x);
    }
  }

  lemma {:induction false} InitTracked(c: Config, x: nat)
    requires GoodConfig(c)
    ensures Tracked(Init(c), x, AtRest, Second(Init(c), x))
  {
    EmptyValid(c.l1i.sets, c.l1i.ways, x);
    EmptyValid(c.l1d.sets, c.l1d.ways, x);
    EmptyValid(c.l2.sets, c.l2.ways, x);
    EmptyValid(c.l3.sets, c.l3.ways, x);
  }

  /** No store is lost: with an L1 data cache, after any run the topmost dirty copy of a line
      holds its last store, and when no copy is dirty memory does. Memory is written only
      with lines somebody stored to. */
  lemma {:induction false} NoStoreIsLost(c: Config, ops: seq<Op>, x: nat)
    requires GoodConfig(c) && c.l1d.sets != 0
    ensures var h := Run(c, ops);
            var v := Replay(h.log, x);
            && At(v, Newest(h, x)) == v.stores
            && WritesJustified(h.log, x)
  {
    hide Run; hide Replay; hide WritesJustified; hide Lookup;
    RunTracked(c, ops, x);
  }

  /** A load finds the last store, in a hierarchy where no write-back goes past a copy. */
  lemma {:induction false} LoadsAreCurrent(c: Config, ops: seq<Op>, x: nat)
    requires GoodConfig(c) && c.l1d.sets != 0 && NoBypass(c.l1d.sets, c.l2.sets, c.l3.sets, c.l3.ways)
    ensures var h := Run(c, ops);
            var v := Replay(h.log, x);
            At(v, Supplier(h, x)) == v.stores
  {
    hide Run; hide Replay; hide WritesJustified; hide Lookup;
    RunTracked(c, ops, x);
  }
}
