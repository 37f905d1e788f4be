/** The simulator object (preprocess/cachesim/cachesim.cpp, `Sim`): four caches and the
    statistics, each method being the transition of `HierarchySpec` on their contents. */
module Hierarchy {
  import opened Options
  import opened CacheImpl
  import opened CacheSpec
  import opened HierarchySpec

  /** The 8-bit count of a set can hold its ways. */
  predicate FitsCounter(g: Geometry) { g.sets == 0 || g.ways <= 255 }

  class Sim {
    const l1i: CacheObj
    const l1d: CacheObj
    const l2: CacheObj
    const l3: CacheObj
    const inclusive: bool
    var st: Stats
    ghost var log: seq<DataEvent>

    ghost function Repr(c: CacheObj): set<object> { {c, c.tag, c.fl, c.cnt} }

    ghost function Footprint(): set<object> {
      {this} + Repr(l1i) + Repr(l1d) + Repr(l2) + Repr(l3)
    }

    static ghost predicate Apart(a: CacheObj, b: CacheObj) {
      a != b && a.fl != b.fl && a.tag != b.tag && a.cnt != b.cnt && a.tag != b.cnt && a.cnt != b.tag
    }

    /** The caches share no storage. */
    ghost predicate Separate() {
      && Apart(l1i, l1d) && Apart(l1i, l2) && Apart(l1i, l3)
      && Apart(l1d, l2) && Apart(l1d, l3) && Apart(l2, l3)
    }

    ghost predicate Valid()
      reads Footprint()
    {
      Separate() && l1i.Good() && l1d.Good() && l2.Good() && l3.Good()
    }

    ghost function State(): Hier
      reads this, l1i, l1d, l2, l3
    {
      Hier(l1i.Model(), l1d.Model(), l2.Model(), l3.Model(), inclusive, st, log)
    }

    constructor (c: Config)
      requires GoodConfig(c)
      ensures State() == Init(c)
      ensures FitsCounter(c.l1i) && FitsCounter(c.l1d) && FitsCounter(c.l2) && FitsCounter(c.l3) ==> Valid()
    {
      hide CacheObj.Good; hide EmptyCache;
      l1i := new CacheObj(c.l1i.sets, c.l1i.ways);
      l1d := new CacheObj(c.l1d.sets, c.l1d.ways);
      l2 := new CacheObj(c.l2.sets, c.l2.ways);
      l3 := new CacheObj(c.l3.sets, c.l3.ways);
      inclusive := c.inclusive;
      st := NoStats();
      log := [];
    }

    method ToDram(x: nat, ghost from: Place)
      requires Valid()
      modifies this
      ensures Valid() && State() == WriteDram(old(State()), x, from)
    {
      st := st.(dramWb := st.dramWb + 1);
      log := log + [Move(x, from, InMemory)];
    }

    method AccessL3(a: Access, ghost from: Place) returns (hit: bool)
      requires Valid() && l3.IsEnabled()
      modifies this, Repr(l3)
      ensures Valid() && (State(), hit) == L3Access(old(State()), a, from)
    {
      hide CacheObj.Good; hide AccessCache; hide L3Data;
      var victim, pf;
      hit, victim, pf := l3.AccessLine(a);
      EvictL3(a, from, hit, victim);
    }

    /** A dirty victim of L3 goes to memory. */
    method EvictL3(a: Access, ghost from: Place, hit: bool, victim: Option<Line>)
      requires Valid()
      modifies this
      ensures Valid() && State() == L3Data(old(State()), a, from, hit, victim)
    {
      hide Separate; hide CacheObj.Good;
      if victim.Some? && victim.value.dirty {
        ToDram(victim.value.tag, InL3);
      }
      if a.write || !hit {
        log := log + [Move(a.line, from, InL3)];
      }
    }

    /** A line evicted from L2: out of L1 as well, and down to L3 or memory if dirty. */
    method EvictL2(victim: Option<Line>)
      requires Valid()
      modifies this, Repr(l1i), Repr(l1d), Repr(l3)
      ensures Valid() && State() == L2Evict(old(State()), victim)
    {
      hide Separate; hide BackInvalidateD; hide CacheObj.Good; hide L2Leaves; hide Invalidate;
      if victim.None? {
        return;
      }
      var d := false;
      if inclusive {
        d := OutOfL1(victim.value.tag);
      }
      LeaveL2(victim.value, d);
    }

    method LeaveL2(v: Line, d: bool)
      requires Valid()
      modifies this, Repr(l3)
      ensures Valid() && State() == L2Leaves(old(State()), v, d)
    {
      hide Separate; hide CacheObj.Good; hide L3Access; hide WriteDram;
      if v.pf {
        st := st.(pfEvictedUnused := st.pfEvictedUnused + 1);
      }
      if v.dirty || d {
        WriteBackL2(v.tag, if d then InL1D else InL2);
      }
    }

    /** The write-back of a dirty line leaving L2. */
    method WriteBackL2(x: nat, ghost from: Place)
      requires Valid()
      modifies this, Repr(l3)
      ensures Valid()
      ensures var h := old(State()).(st := old(st).(l2Wb := old(st).l2Wb + 1));
              State() == if Enabled(h.l3) then L3Access(h, Access(x, true, false, false), from).0 else WriteDram(h, x, from)
    {
      hide CacheObj.Good; hide L3Access;
      st := st.(l2Wb := st.l2Wb + 1);
      if l3.IsEnabled() {
        var hit := AccessL3(Access(x, true, false, false), from);
      } else {
        ToDram(x, from);
      }
    }

    /** Back-invalidation; the result says whether the data cache's copy was dirty. */
    method OutOfL1(x: nat) returns (dirty: bool)
      requires Valid() && inclusive
      modifies this, Repr(l1i), Repr(l1d)
      ensures Valid() && (State(), dirty) == BackInvalidate(old(State()), x)
    {
      hide CacheObj.Good; hide Invalidate;
      dirty := false;
      if l1d.IsEnabled() {
        var found, d := l1d.InvalidateLine(x);
        st := st.(backInval := st.backInval + One(found));
        dirty := d;
      }
      if l1i.IsEnabled() {
        var found, d := l1i.InvalidateLine(x);
        st := st.(backInval := st.backInval + One(found));
      }
    }

    method AccessL2(a: Access) returns (hit: bool, useful: bool)
      requires Valid() && l2.IsEnabled()
      modifies Footprint()
      ensures Valid() && (State(), hit, useful) == L2Access(old(State()), a)
    {
      hide CacheObj.Good; hide AccessCache; hide L2Evict;
      var victim;
      hit, victim, useful := l2.AccessLine(a);
      EvictL2(victim);
    }

    method InsertL2(la: nat, dirty: bool, asPf: bool)
      requires Valid()
      modifies Footprint()
      ensures Valid() && State() == L2Insert(old(State()), la, dirty, asPf)
    {
      hide Separate; hide CacheObj.Good; hide L2Access;
      if !l2.IsEnabled() {
        if dirty {
          ToDram(la, InL1D);
        }
        return;
      }
      log := log + [Move(la, if dirty then InL1D else BelowSecond(State()), InL2)];
      var hit, useful := AccessL2(Access(la, dirty, asPf, false));
    }

    /** The line is already in L1D or L2. */
    method HeldAbove(la: nat) returns (held: bool)
      requires Valid()
      ensures held == ((Enabled(State().l1d) && Probe(State().l1d, la)) || (Enabled(State().l2) && Probe(State().l2, la)))
    {
      hide Probe;
      held := false;
      if l1d.IsEnabled() {
        held := l1d.ProbeLine(la);
      }
      if !held && l2.IsEnabled() {
        held := l2.ProbeLine(la);
      }
    }

    method Prefetch(la: nat)
      requires Valid()
      modifies Footprint()
      ensures Valid() && State() == IssuePrefetch(old(State()), la)
    {
      hide Separate; hide CacheObj.Good; hide L3Access; hide L2Insert; hide Probe;
      var redundant := HeldAbove(la);
      if redundant {
        st := st.(pfRedundant := st.pfRedundant + 1);
        return;
      }
      st := st.(pfIssued := st.pfIssued + 1);
      FillForPrefetch(la);
    }

    method FillForPrefetch(la: nat)
      requires Valid()
      modifies Footprint()
      ensures Valid()
      ensures var h := old(State());
              State() == L2Insert(if Enabled(h.l3) then L3Access(h, Access(la, false, false, false), InMemory).0 else h, la, false, true)
    {
      hide Separate; hide CacheObj.Good; hide L3Access; hide L2Insert;
      if l3.IsEnabled() {
        var hit := AccessL3(Access(la, false, false, false), InMemory);
      }
      InsertL2(la, false, true);
    }

    method AccessL1(la: nat, store: bool, ifetch: bool) returns (hit: bool, victim: Option<Line>)
      requires Valid()
      modifies this, Repr(l1i), Repr(l1d)
      ensures Valid() && L1Result(State(), hit, victim) == L1Access(old(State()), la, store, ifetch)
    {
      hide CacheObj.Good; hide AccessCache;
      var write := store && !ifetch;
      hit, victim := false, None;
      var pf;
      if ifetch {
        if l1i.IsEnabled() {
          hit, victim, pf := l1i.AccessLine(Access(la, write, false, true));
          st := st.(l1iAcc := st.l1iAcc + 1, l1iHit := st.l1iHit + One(hit));
        }
      } else if l1d.IsEnabled() {
        hit, victim, pf := l1d.AccessLine(Access(la, write, false, true));
        st := st.(l1dAcc := st.l1dAcc + 1, l1dHit := st.l1dHit + One(hit));
      }
    }

    method AccessBelow(la: nat) returns (level: nat, pfHit: bool)
      requires Valid()
      modifies Footprint()
      ensures Valid() && Served(State(), level, pfHit) == Below(old(State()), la)
    {
      hide Separate; hide CacheObj.Good; hide L2Access; hide BelowL2; hide Moved; hide CountL2;
      if !l2.IsEnabled() {
        level := AccessBelowL2(la);
        return level, false;
      }
      var hit, useful := DemandL2(la);
      if hit {
        return 1, useful;
      }
      level := FillL2(la);
      pfHit := false;
    }

    /** A demand access to L2, with its counts. */
    method DemandL2(la: nat) returns (hit: bool, useful: bool)
      requires Valid() && l2.IsEnabled()
      modifies Footprint()
      ensures Valid()
      ensures var (h1, h1Hit, h1Useful) := L2Access(old(State()), Access(la, false, false, true));
              State() == h1.(st := CountL2(h1.st, hit, useful)) && hit == h1Hit && useful == h1Useful
    {
      hide Separate; hide CacheObj.Good; hide L2Access;
      hit, useful := AccessL2(Access(la, false, false, true));
      st := st.(l2Acc := st.l2Acc + 1, l2Hit := st.l2Hit + One(hit), pfUseful := st.pfUseful + One(useful));
    }

    /** A line that missed L2 arrives there. */
    method FillL2(la: nat) returns (level: nat)
      requires Valid()
      modifies this, Repr(l3)
      ensures Valid()
      ensures var s := BelowL2(old(State()), la);
              State() == Moved(s.h, la, BelowSecond(old(State())), InL2) && level == s.level && !s.pfHit
    {
      hide Separate; hide CacheObj.Good; hide BelowL2;
      level := AccessBelowL2(la);
      log := log + [Move(la, BelowSecond(State()), InL2)];
    }

    method AccessBelowL2(la: nat) returns (level: nat)
      requires Valid()
      modifies this, Repr(l3)
      ensures Valid() && Served(State(), level, false) == BelowL2(old(State()), la)
    {
      hide Separate; hide CacheObj.Good; hide L3Access;
      level := 3;
      if l3.IsEnabled() {
        var hit := AccessL3(Access(la, false, false, true), InMemory);
        st := st.(l3Acc := st.l3Acc + 1, l3Hit := st.l3Hit + One(hit),
                  dramAcc := st.dramAcc + One(!hit));
        level := if hit then 2 else 3;
      } else {
        st := st.(dramAcc := st.dramAcc + 1);
      }
    }

    /** What follows an L1 miss. */
    method AfterMiss(la: nat, write: bool, ifetch: bool, victim: Option<Line>) returns (level: nat, pfHit: bool)
      requires Valid()
      modifies Footprint()
      ensures Valid() && Served(State(), level, pfHit) == Miss(old(State()), la, write, ifetch, victim)
    {
      hide Separate; hide CacheObj.Good; hide Below; hide L2Insert; hide FillL1; hide StoredTo;
      level, pfHit := AccessBelow(la);
      DataArrives(la, write, ifetch);
      if victim.Some? && victim.value.dirty {
        st := st.(l1dWb := st.l1dWb + 1);
        InsertL2(victim.value.tag, true, false);
      }
    }

    ghost method DataArrives(la: nat, write: bool, ifetch: bool)
      requires Valid()
      modifies `log
      ensures Valid() && State() == StoredTo(FillL1(old(State()), la, ifetch), la, write)
    {
      hide Separate; hide CacheObj.Good;
      log := StoredTo(FillL1(State(), la, ifetch), la, write).log;
    }

    /** One line of one access. */
    method AccessOne(la: nat, store: bool, ifetch: bool) returns (level: nat, pfHit: bool)
      requires Valid()
      modifies Footprint()
      ensures Valid() && Served(State(), level, pfHit) == AccessLine(old(State()), la, store, ifetch)
    {
      hide Separate; hide CacheObj.Good; hide L1Access; hide Miss;
      var hit, victim := AccessL1(la, store, ifetch);
      var write := store && !ifetch;
      if hit {
        log := StoredTo(State(), la, write).log;
        return 0, false;
      }
      level, pfHit := AfterMiss(la, write, ifetch, victim);
    }
  }
}
