/** The single-scan engine attached to a first-level cache (preprocess/cachesim/cachesim.cpp,
    `access_line`): exact for every run if and only if nothing but its own accesses changes
    that cache. */
module SweepL1 {
  import opened Options
  import opened Arith
  import opened CacheSpec
  import opened HierarchySpec
  import opened StackSpec
  import opened StackTheorems
  import HierarchyProofs
  import SweepAttached

  /** The instruction cache, or the data cache. */
  function L1Of(h: Hier, ifetch: bool): Cache { if ifetch then h.l1i else h.l1d }

  function GeometryOf(c: Config, ifetch: bool): Geometry { if ifetch then c.l1i else c.l1d }

  function AccOf(st: Stats, ifetch: bool): nat { if ifetch then st.l1iAcc else st.l1dAcc }

  function HitOf(st: Stats, ifetch: bool): nat { if ifetch then st.l1iHit else st.l1dHit }

  /** The accesses of its kind that a run makes, as the sweep sees them. */
  function L1Stream(ops: seq<Op>, ifetch: bool): seq<Access> {
    if ops == [] then [] else L1Stream(ops[..|ops| - 1], ifetch) + L1Trace(ops[|ops| - 1], ifetch)
  }

  function L1Trace(op: Op, ifetch: bool): seq<Access> {
    match op
    case Touch(la, store, f) => if f == ifetch then [Access(la, store && !f, false, true)] else []
    case Prefetch(la) => []
  }

  /** What goes on below leaves the first level and its counts alone. */
  ghost predicate SameL1(h: Hier, h': Hier) {
    h'.l1i == h.l1i && h'.l1d == h.l1d && HierarchyProofs.SameL1Counts(h, h') && h'.inclusive == h.inclusive
  }

  /** Without back-invalidation that is everything but a first-level access. */
  ghost predicate Alone(h: Hier) { !Enabled(h.l2) || !h.inclusive }

  lemma {:induction false} L2AccessAlone(h: Hier, a: Access)
    requires WellFormed(h) && Enabled(h.l2) && !h.inclusive
    ensures SameL1(h, L2Access(h, a).0)
  {
    hide AccessCache; hide L2Evict; hide Lookup;
    AccessLines(h.l2, a, a.line);
    var r := AccessCache(h.l2, a);
    HierarchyProofs.L2EvictLines(h.(l2 := r.cache), r.victim, a.line);
  }

  lemma {:induction false} BelowL2Alone(h: Hier, la: nat)
    requires WellFormed(h)
    ensures SameL1(h, BelowL2(h, la).h)
  {
    hide L3Access;
    if Enabled(h.l3) { HierarchyProofs.L3Upper(h, Access(la, false, false, true), InMemory); }
  }

  lemma {:induction false} BelowAlone(h: Hier, la: nat)
    requires WellFormed(h) && Alone(h)
    ensures SameL1(h, Below(h, la).h)
  {
    hide L2Access; hide BelowL2;
    if !Enabled(h.l2) {
      BelowL2Alone(h, la);
    } else {
      var a := Access(la, false, false, true);
      L2AccessAlone(h, a);
      var (h1, hit, useful) := L2Access(h, a);
      BelowL2Alone(h1.(st := CountL2(h1.st, hit, useful)), la);
    }
  }

  lemma {:induction false} InsertAlone(h: Hier, la: nat, dirty: bool, asPf: bool)
    requires WellFormed(h) && Alone(h)
    ensures SameL1(h, L2Insert(h, la, dirty, asPf))
  {
    hide L2Access;
    if Enabled(h.l2) {
      L2AccessAlone(Moved(h, la, if dirty then InL1D else BelowSecond(h), InL2), Access(la, dirty, asPf, false));
    }
  }

  lemma {:induction false} MissAlone(h: Hier, la: nat, write: bool, ifetch: bool, victim: Option<Line>)
    requires WellFormed(h) && Alone(h)
    ensures SameL1(h, Miss(h, la, write, ifetch, victim).h)
  {
    hide Below; hide L2Insert;
    BelowAlone(h, la);
    var h1 := StoredTo(FillL1(Below(h, la).h, la, ifetch), la, write);
    if victim.Some? && victim.value.dirty {
      InsertAlone(h1.(st := h1.st.(l1dWb := h1.st.l1dWb + 1)), victim.value.tag, true, false);
    }
  }

  lemma {:induction false} PrefetchAlone(h: Hier, la: nat)
    requires WellFormed(h) && Alone(h)
    ensures SameL1(h, IssuePrefetch(h, la))
  {
    hide L2Insert; hide L3Access; hide Probe;
    var h1 := h.(st := h.st.(pfIssued := h.st.pfIssued + 1));
    var h2 := h1;
    if Enabled(h1.l3) {
      HierarchyProofs.L3Upper(h1, Access(la, false, false, false), InMemory);
      h2 := L3Access(h1, Access(la, false, false, false), InMemory).0;
    }
    InsertAlone(h2, la, false, true);
  }

  /** The cache holds what an LRU cache of its geometry holds after the same accesses, and its
      counters are the accesses and hits of that cache. */
  ghost predicate Attached(h: Hier, ifetch: bool, g: Geometry, stream: seq<Access>)
    requires GoodGeometry(g) && g.sets != 0
  {
    && WellFormed(h) && L1Of(h, ifetch) == Lru(g, stream)
    && AccOf(h.st, ifetch) == Demands(stream) && HitOf(h.st, ifetch) == LruHits(g, stream)
  }

  lemma {:induction false} AccessAttached(h: Hier, la: nat, store: bool, f: bool, ifetch: bool, g: Geometry, stream: seq<Access>)
    requires GoodGeometry(g) && g.sets != 0 && WellFormed(h) && Attached(h, ifetch, g, stream)
    ensures Attached(L1Access(h, la, store, f).h, ifetch, g, stream + L1Trace(Touch(la, store, f), ifetch))
  {
    hide AccessCache;
    var a := Access(la, store && !f, false, true);
    assert (stream + [a])[..|stream|] == stream && stream + [] == stream;
  }

  lemma {:induction false} SameAttached(h: Hier, h': Hier, ifetch: bool, g: Geometry, stream: seq<Access>)
    requires GoodGeometry(g) && g.sets != 0 && Attached(h, ifetch, g, stream) && WellFormed(h') && SameL1(h, h')
    ensures Attached(h', ifetch, g, stream)
  {
  }

  lemma {:induction false} RunAttached(c: Config, ops: seq<Op>, ifetch: bool)
    requires GoodConfig(c) && GeometryOf(c, ifetch).sets != 0 && (c.l2.sets == 0 || !c.inclusive)
    ensures Alone(Run(c, ops)) && Attached(Run(c, ops), ifetch, GeometryOf(c, ifetch), L1Stream(ops, ifetch))
    decreases |ops|
  {
    hide L1Access; hide Miss; hide IssuePrefetch; hide Attached; hide L1Trace;
    var g := GeometryOf(c, ifetch);
    if ops == [] {
      InitAttached(c, ifetch);
    } else {
      var h := Run(c, ops[..|ops| - 1]);
      var stream := L1Stream(ops[..|ops| - 1], ifetch);
      RunAttached(c, ops[..|ops| - 1], ifetch);
      match ops[|ops| - 1]
      case Touch(la, store, f) =>
        var l1 := L1Access(h, la, store, f);
        var write := store && !f;
        AccessAttached(h, la, store, f, ifetch, g, stream);
        if l1.hit {
          SameAttached(l1.h, StoredTo(l1.h, la, write), ifetch, g, L1Stream(ops, ifetch));
        } else {
          MissAlone(l1.h, la, write, f, l1.victim);
          SameAttached(l1.h, Miss(l1.h, la, write, f, l1.victim).h, ifetch, g, L1Stream(ops, ifetch));
        }
      case Prefetch(la) =>
        PrefetchAlone(h, la);
        NoTrace(la, ifetch);
        assert stream + [] == stream;
        SameAttached(h, IssuePrefetch(h, la), ifetch, g, L1Stream(ops, ifetch));
    }
  }

  lemma {:induction false} NoTrace(la: nat, ifetch: bool)
    ensures L1Trace(Prefetch(la), ifetch) == []
  {
  }

  lemma {:induction false} InitAttached(c: Config, ifetch: bool)
    requires GoodConfig(c) && GeometryOf(c, ifetch).sets != 0
    ensures Attached(Init(c), ifetch, GeometryOf(c, ifetch), [])
  {
    hide Lru; hide LruHits; hide Demands; hide EmptyCache; hide Valid;
    SweepAttached.NothingCounted(GeometryOf(c, ifetch), []);
  }

  /** Without back-invalidation a sweep attached to a first-level cache that contains its
      geometry reports for it exactly the accesses and hits that the simulator counts. */
  lemma {:induction false} SweepReportsL1(c: Config, ops: seq<Op>, ifetch: bool, cs: seq<Geometry>, k: nat)
    requires GoodConfig(c) && GoodSweep(cs) && k < |cs| && cs[k] == GeometryOf(c, ifetch)
    requires c.l2.sets == 0 || !c.inclusive
    ensures var s := Scan(cs, L1Stream(ops, ifetch));
            var h := Run(c, ops);
            s.hits[k] == HitOf(h.st, ifetch) && s.accs[k] == AccOf(h.st, ifetch)
  {
    hide Run; hide Scan; hide LruHits; hide Demands; hide Lru;
    ScanCountsEveryCache(cs, L1Stream(ops, ifetch), k);
    RunAttached(c, ops, ifetch);
  }

  // ---- back-invalidation ----

  ghost predicate Clean(c: Cache)
    requires |c.data| == c.sets
  {
    forall x: nat :: !IsDirty(c, x)
  }

  lemma {:induction false} AccessClean(c: Cache, a: Access)
    requires Valid(c) && Enabled(c) && Clean(c) && !a.write
    ensures var r := AccessCache(c, a);
            && Valid(r.cache) && r.cache.sets == c.sets && Clean(r.cache)
            && (r.victim.Some? ==> !r.victim.value.dirty)
  {
    hide AccessCache; hide Lookup;
    var r := AccessCache(c, a);
    forall x: nat ensures Valid(r.cache) && r.cache.sets == c.sets && !IsDirty(r.cache, x) {
      assert !IsDirty(c, x);
      AccessLines(c, a, x);
    }
    AccessLines(c, a, a.line);
    if r.victim.Some? { assert !IsDirty(c, r.victim.value.tag); }
  }

  lemma {:induction false} EvictClean(h: Hier, victim: Option<Line>)
    requires WellFormed(h) && Clean(h.l1i) && Clean(h.l1d)
    ensures Clean(L2Evict(h, victim).l1i) && Clean(L2Evict(h, victim).l1d)
  {
    hide Lookup; hide L2Evict;
    var h' := L2Evict(h, victim);
    forall x: nat ensures !IsDirty(h'.l1i, x) && !IsDirty(h'.l1d, x) {
      HierarchyProofs.L2EvictLines(h, victim, x);
      assert !IsDirty(h.l1i, x) && !IsDirty(h.l1d, x);
    }
  }

  /** A load or a fetch that misses its first level, where nothing is dirty. */
  lemma {:induction false} CleanMiss(h: Hier, y: nat, f: bool, x: nat)
    requires WellFormed(h) && Enabled(h.l2) && h.inclusive && Clean(h.l1i) && Clean(h.l1d)
    requires !L1Access(h, y, false, f).hit && x != y
    ensures var h' := AccessLine(h, y, false, f).h;
            var r := AccessCache(h.l2, Access(y, false, false, true));
            && h'.l2 == r.cache && h'.inclusive && Enabled(h'.l2) && Clean(h'.l1i) && Clean(h'.l1d)
            && (Has(L1Of(h', !f), x) <==> Has(L1Of(h, !f), x) && !(r.victim.Some? && r.victim.value.tag == x))
            && AccOf(h'.st, !f) == AccOf(h.st, !f) && HitOf(h'.st, !f) == HitOf(h.st, !f)
            && HitOf(h'.st, f) == HitOf(h.st, f)
  {
    hide AccessCache; hide Lookup; hide L2Evict; hide L3Access; hide BelowL2; hide L1Access; hide Clean;
    var l1 := L1Access(h, y, false, f);
    CleanFirst(h, y, f);
    var a := Access(y, false, false, true);
    AccessLines(l1.h.l2, a, y);
    var r := AccessCache(l1.h.l2, a);
    var h0 := l1.h.(l2 := r.cache);
    EvictClean(h0, r.victim);
    HierarchyProofs.L2EvictLines(h0, r.victim, x);
    var h1 := L2Evict(h0, r.victim);
    var h2 := h1.(st := CountL2(h1.st, r.hit, r.pfUseful));
    BelowL2Alone(h2, y);
    BelowL2Keeps(h2, y);
  }

  lemma {:induction false} BelowL2Keeps(h: Hier, la: nat)
    requires WellFormed(h)
    ensures BelowL2(h, la).h.l2 == h.l2
  {
    hide L3Access;
    if Enabled(h.l3) { HierarchyProofs.L3Upper(h, Access(la, false, false, true), InMemory); }
  }

  /** The first-level part of it. */
  lemma {:induction false} CleanFirst(h: Hier, y: nat, f: bool)
    requires WellFormed(h) && Clean(h.l1i) && Clean(h.l1d)
    ensures var l1 := L1Access(h, y, false, f);
            && l1.h.l2 == h.l2 && l1.h.l3 == h.l3 && l1.h.inclusive == h.inclusive
            && Clean(l1.h.l1i) && Clean(l1.h.l1d) && L1Of(l1.h, !f) == L1Of(h, !f)
            && (l1.victim.Some? ==> !l1.victim.value.dirty)
            && AccOf(l1.h.st, !f) == AccOf(h.st, !f) && HitOf(l1.h.st, !f) == HitOf(h.st, !f)
            && HitOf(l1.h.st, f) == HitOf(h.st, f) + One(l1.hit)
  {
    hide AccessCache; hide Clean;
    var c := L1Of(h, f);
    if Enabled(c) { AccessClean(c, Access(y, false, false, true)); }
  }

  /** The same for the line itself, which arrives in the first level. */
  lemma {:induction false} CleanMissOwn(h: Hier, y: nat, f: bool)
    requires WellFormed(h) && Enabled(h.l2) && h.inclusive && Clean(h.l1i) && Clean(h.l1d)
    requires !L1Access(h, y, false, f).hit && Enabled(L1Of(h, f))
    ensures var h' := AccessLine(h, y, false, f).h;
            && h'.l2 == AccessCache(h.l2, Access(y, false, false, true)).cache
            && h'.inclusive && Enabled(h'.l2) && Clean(h'.l1i) && Clean(h'.l1d)
            && Has(L1Of(h', f), y)
            && AccOf(h'.st, f) == AccOf(h.st, f) + 1 && HitOf(h'.st, f) == HitOf(h.st, f)
  {
    hide AccessCache; hide Lookup; hide L2Evict; hide L3Access; hide BelowL2; hide Clean;
    var l1 := L1Access(h, y, false, f);
    CleanFirst(h, y, f);
    AccessLines(L1Of(h, f), Access(y, false, false, true), y);
    var a := Access(y, false, false, true);
    AccessLines(l1.h.l2, a, y);
    var r := AccessCache(l1.h.l2, a);
    var h0 := l1.h.(l2 := r.cache);
    EvictClean(h0, r.victim);
    HierarchyProofs.L2EvictLines(h0, r.victim, y);
    var h1 := L2Evict(h0, r.victim);
    var h2 := h1.(st := CountL2(h1.st, r.hit, r.pfUseful));
    BelowL2Alone(h2, y);
    BelowL2Keeps(h2, y);
  }

  lemma {:induction false} MissIff(h: Hier, y: nat, f: bool)
    requires WellFormed(h)
    ensures L1Access(h, y, false, f).hit <==> Has(L1Of(h, f), y)
  {
    hide AccessCache; hide Find;
    if Enabled(L1Of(h, f)) { AccessLines(L1Of(h, f), Access(y, false, false, true), y); }
  }

  // ---- a run on which the sweep counts a hit too many ----

  function Load0(ifetch: bool): Op { Touch(0, false, ifetch) }

  function Access0(): Access { Access(0, false, false, true) }

  ghost predicate Inclusive(c: Config, ifetch: bool) {
    GoodConfig(c) && GeometryOf(c, ifetch).sets != 0 && c.l2.sets != 0 && c.inclusive
  }

  /** The set of L2 that line 0 maps to. */
  function Set0(h: Hier): seq<Line>
    requires WellFormed(h) && Enabled(h.l2)
  {
    h.l2.data[0]
  }

  /** Line 0 was loaded once; in L2 it is the oldest of its set, behind k lines up to `top`. */
  ghost predicate Crowded(c: Config, ops: seq<Op>, ifetch: bool, k: nat, top: nat)
    requires Inclusive(c, ifetch)
  {
    var h := Run(c, ops);
    && SameShape(Init(c), h) && h.l2.ways == c.l2.ways && Clean(h.l1i) && Clean(h.l1d)
    && |Set0(h)| == k + 1 <= c.l2.ways && Set0(h)[k].tag == 0
    && (forall i :: 0 <= i < k ==> 0 < Set0(h)[i].tag <= top)
    && Has(L1Of(h, ifetch), 0)
    && HitOf(h.st, ifetch) == 0 && L1Stream(ops, ifetch) == [Access0()]
  }

  lemma {:induction false} RunSnoc(c: Config, ops: seq<Op>, op: Op, ifetch: bool)
    requires GoodConfig(c)
    ensures Run(c, ops + [op]) == Step(Run(c, ops), op)
    ensures L1Stream(ops + [op], ifetch) == L1Stream(ops, ifetch) + L1Trace(op, ifetch)
  {
    assert (ops + [op])[..|ops|] == ops;
  }

  lemma {:induction false} FirstLoad(c: Config, ifetch: bool)
    requires Inclusive(c, ifetch)
    ensures Crowded(c, [Load0(ifetch)], ifetch, 0, 0)
  {
    hide AccessLine; hide Lookup; hide Find; hide Run; hide AccessCache; hide EmptyCache; hide L1Access; hide L1Stream;
    var none: seq<Op> := [];
    NoOps(c, none, ifetch);
    RunSnoc(c, none, Load0(ifetch), ifetch);
    assert none + [Load0(ifetch)] == [Load0(ifetch)];
    var h := Init(c);
    EmptyMisses(c, ifetch);
    CleanMissOwn(h, 0, ifetch);
    EmptyFills(c.l2);
  }

  lemma {:induction false} NoOps(c: Config, ops: seq<Op>, ifetch: bool)
    requires GoodConfig(c) && ops == []
    ensures var h := Init(c);
            && Run(c, ops) == h && L1Stream(ops, ifetch) == []
            && h.l2 == Empty(c.l2) && h.l2.sets == c.l2.sets && h.l2.ways == c.l2.ways && h.inclusive == c.inclusive
            && L1Of(h, ifetch).sets == GeometryOf(c, ifetch).sets && HitOf(h.st, ifetch) == 0
  {
  }

  lemma {:induction false} EmptyMisses(c: Config, ifetch: bool)
    requires GoodConfig(c)
    ensures var h := Init(c);
            Clean(h.l1i) && Clean(h.l1d) && !L1Access(h, 0, false, ifetch).hit
  {
    hide AccessCache; hide EmptyCache; hide Find; hide L1Access; hide Lookup;
    var h := Init(c);
    forall x: nat ensures !IsDirty(h.l1i, x) && !IsDirty(h.l1d, x) {
      EmptyValid(c.l1i.sets, c.l1i.ways, x);
      EmptyValid(c.l1d.sets, c.l1d.ways, x);
    }
    EmptyValid(c.l1i.sets, c.l1i.ways, 0);
    EmptyValid(c.l1d.sets, c.l1d.ways, 0);
    MissIff(h, 0, ifetch);
  }

  lemma {:induction false} EmptyFills(g: Geometry)
    requires GoodGeometry(g) && g.sets != 0 && Valid(Empty(g))
    ensures var c := AccessCache(Empty(g), Access0()).cache;
            |c.data| == g.sets && c.data[0] == [Line(0, false, false)] && c.ways == g.ways
  {
  }

  /** A line that L2 does not hold misses the other first-level cache. */
  lemma {:induction false} NextMisses(c: Config, ops: seq<Op>, ifetch: bool, k: nat, top: nat, y: nat)
    requires Inclusive(c, ifetch) && Crowded(c, ops, ifetch, k, top) && y > top && y % c.l2.sets == 0
    ensures !L1Access(Run(c, ops), y, false, !ifetch).hit
    ensures Find(Set0(Run(c, ops)), y) == |Set0(Run(c, ops))|
  {
    hide Run; hide L1Access; hide Find; hide L1Stream; hide Clean;
    var h := Run(c, ops);
    NotFound(Set0(h), y);
    HierarchyProofs.L2StaysInclusive(c, ops, y);
    MissIff(h, y, !ifetch);
  }

  /** What such a miss does to the set. */
  lemma {:induction false} SetTakes(c: Cache, y: nat)
    requires Valid(c) && Enabled(c) && y % c.sets == 0 && Find(c.data[0], y) == |c.data[0]|
    ensures var r := AccessCache(c, Access(y, false, false, true));
            && |r.cache.data| == c.sets && |c.data[0]| <= c.ways && r.cache.ways == c.ways
            && (|c.data[0]| < c.ways ==> r.victim.None? && r.cache.data[0] == [Line(y, false, false)] + c.data[0])
            && (|c.data[0]| == c.ways ==> r.victim == Some(c.data[0][c.ways - 1]))
  {
    hide Find;
    assert ValidSet(c, 0);
  }

  lemma {:induction false} CrowdOne(c: Config, ops: seq<Op>, ops': seq<Op>, ifetch: bool, k: nat, top: nat, y: nat)
    requires Inclusive(c, ifetch) && Crowded(c, ops, ifetch, k, top) && y > top && y % c.l2.sets == 0
    requires k + 1 < c.l2.ways && ops' == ops + [Touch(y, false, !ifetch)]
    ensures Crowded(c, ops', ifetch, k + 1, y)
  {
    hide Run; hide L1Access; hide Find; hide L1Stream; hide Clean; hide AccessLine; hide AccessCache; hide Lookup;
    var h := Run(c, ops);
    RunSnoc(c, ops, Touch(y, false, !ifetch), ifetch);
    NextMisses(c, ops, ifetch, k, top, y);
    CleanMiss(h, y, !ifetch, 0);
    SetTakes(h.l2, y);
    assert [Access0()] + [] == [Access0()];
  }

  lemma {:induction false} Crowd(c: Config, ifetch: bool, k: nat) returns (ops: seq<Op>)
    requires Inclusive(c, ifetch) && k < c.l2.ways
    ensures Crowded(c, ops, ifetch, k, k * c.l2.sets)
  {
    hide Crowded; hide Run;
    if k == 0 {
      ops := [Load0(ifetch)];
      FirstLoad(c, ifetch);
    } else {
      var ops0 := Crowd(c, ifetch, k - 1);
      var y := k * c.l2.sets;
      ops := ops0 + [Touch(y, false, !ifetch)];
      DivExact(k, c.l2.sets);
      assert (k - 1) * c.l2.sets + c.l2.sets == y;
      CrowdOne(c, ops0, ops, ifetch, k - 1, (k - 1) * c.l2.sets, y);
    }
  }

  /** One more line of that set takes line 0 out of L2 and so out of the first level, where
      the next load of it misses; a cache on its own would have kept it. */
  lemma {:induction false} HitTooMany(c: Config, ifetch: bool) returns (ops: seq<Op>)
    requires Inclusive(c, ifetch)
    ensures HitOf(Run(c, ops).st, ifetch) == 0 && L1Stream(ops, ifetch) == [Access0(), Access0()]
  {
    hide Run; hide L1Access; hide Find; hide L1Stream; hide Clean; hide AccessLine; hide AccessCache; hide Lookup;
    var n: nat := c.l2.ways - 1;
    var ops0 := Crowd(c, ifetch, n);
    var top, y := n * c.l2.sets, c.l2.ways * c.l2.sets;
    DivExact(c.l2.ways, c.l2.sets);
    assert y == top + c.l2.sets;
    var h := Run(c, ops0);
    var op := Touch(y, false, !ifetch);
    RunSnoc(c, ops0, op, ifetch);
    NextMisses(c, ops0, ifetch, n, top, y);
    CleanMiss(h, y, !ifetch, 0);
    SetTakes(h.l2, y);
    var h1 := Run(c, ops0 + [op]);
    MissIff(h1, 0, ifetch);
    RunSnoc(c, ops0 + [op], Load0(ifetch), ifetch);
    CleanMissOwn(h1, 0, ifetch);
    ops := ops0 + [op] + [Load0(ifetch)];
    assert [Access0()] + [] + [Access0()] == [Access0(), Access0()];
  }

  lemma {:induction false} TwiceHitsOnce(g: Geometry, stream: seq<Access>)
    requires GoodGeometry(g) && g.sets != 0 && stream == [Access0(), Access0()]
    ensures LruHits(g, stream) == 1
  {
    hide AccessCache; hide EmptyCache; hide Lookup;
    var one, none := stream[..1], stream[..0];
    assert one[..0] == none;
    SweepAttached.NothingCounted(g, none);
    EmptyValid(g.sets, g.ways, 0);
    AccessLines(Lru(g, none), Access0(), 0);
    AccessLines(Lru(g, one), Access0(), 0);
  }

  /** A sweep attached to a first-level cache reports that cache's hits in every run if and
      only if L2 is off or not inclusive. */
  lemma {:induction false} SweepExactIff(c: Config, ifetch: bool, cs: seq<Geometry>, k: nat)
    requires GoodConfig(c) && GoodSweep(cs) && k < |cs| && cs[k] == GeometryOf(c, ifetch)
    ensures (forall ops: seq<Op> :: Scan(cs, L1Stream(ops, ifetch)).hits[k] == HitOf(Run(c, ops).st, ifetch))
            <==> c.l2.sets == 0 || !c.inclusive
  {
    hide Run; hide Scan; hide LruHits; hide L1Stream;
    if c.l2.sets == 0 || !c.inclusive {
      forall ops: seq<Op> ensures Scan(cs, L1Stream(ops, ifetch)).hits[k] == HitOf(Run(c, ops).st, ifetch) {
        SweepReportsL1(c, ops, ifetch, cs, k);
      }
    } else {
      ScanCountsEveryCache(cs, [], k);
      var ops := HitTooMany(c, ifetch);
      ScanCountsEveryCache(cs, L1Stream(ops, ifetch), k);
      TwiceHitsOnce(cs[k], L1Stream(ops, ifetch));
    }
  }
}
