/** When loads can be stale: without an L1D, and when write-backs of L1D go to memory past a
    copy in L3. */
module LoadWitness {
  import opened Options
  import opened Arith
  import opened CacheSpec
  import opened HierarchySpec
  import opened StoreProofs

  // ---- without an L1 data cache ----

  /** The first access of a hierarchy without an L1 data cache leaves the store nowhere. */
  lemma {:induction false} FirstStoreWithoutL1d(c: Config, x: nat)
    requires GoodConfig(c) && c.l1d.sets == 0
    ensures var h := Run(c, [Touch(x, true, false)]);
            var v := Replay(h.log, x);
            v.stores == 1 && v.l2 == v.l3 == v.memory == 0 && !DirtyAny(h, x) && !Has(h.l1d, x)
  {
    hide AccessCache; hide Lookup; hide L2Evict; hide Replay;
    var ops := [Touch(x, true, false)];
    assert ops[..|ops| - 1] == [];
    var h := Init(c);
    assert Run(c, ops) == AccessLine(h, x, true, false).h;
    assert L1Access(h, x, true, false) == L1Result(h, false, None);
    var a := Access(x, false, false, true);
    var h1 := h;
    if Enabled(h.l2) {
      FirstAccess(h.l2, c.l2, a);
      EvictNone(h.(l2 := AccessCache(h.l2, a).cache));
      h1 := h.(l2 := AccessCache(h.l2, a).cache, st := CountL2(h.st, false, false));
    }
    var h2 := BelowL2(h1, x).h;
    var h3 := if Enabled(h.l2) then Moved(h2, x, BelowSecond(h1), InL2) else h2;
    if Enabled(h.l3) {
      FirstAccess(h.l3, c.l3, a);
      LogSnoc([], Move(x, InMemory, InL3), x);
    }
    EmptyReplay(x);
    LogSnoc(h2.log, Move(x, BelowSecond(h1), InL2), x);
    LogSnoc(h3.log, Store(x), x);
    assert Below(h, x).h == h3;
    NoCopy(h.l1d, x);
    if !Enabled(h.l2) { NoCopy(h.l2, x); }
    if !Enabled(h.l3) { NoCopy(h.l3, x); }
  }

  lemma {:induction false} EmptyReplay(x: nat)
    ensures Replay([], x) == Versions(0, 0, 0, 0, 0)
  {
  }

  lemma {:induction false} EvictNone(h: Hier)
    requires WellFormed(h)
    ensures L2Evict(h, None) == h
  {
  }

  lemma {:induction false} FirstAccess(c: Cache, g: Geometry, a: Access)
    requires GoodGeometry(g) && c == Empty(g) && Valid(c) && Enabled(c) && !a.write && !a.prefetch
    ensures var r := AccessCache(c, a);
            !r.hit && r.victim.None? && !r.pfUseful && Valid(r.cache) && !IsDirty(r.cache, a.line)
  {
    hide AccessCache; hide Lookup;
    AccessLines(c, a, a.line);
    EmptyValid(g.sets, g.ways, a.line);
    var r := AccessCache(c, a);
    if r.victim.Some? { EmptyValid(g.sets, g.ways, r.victim.value.tag); }
  }

  /** A configuration keeps every store of every run exactly when it has an L1 data cache. */
  lemma {:induction false} StoresKeptIffL1d(c: Config)
    requires GoodConfig(c)
    ensures (forall ops: seq<Op>, x: nat ::
               At(Replay(Run(c, ops).log, x), Newest(Run(c, ops), x)) == Replay(Run(c, ops).log, x).stores)
            <==> c.l1d.sets != 0
  {
    hide Run; hide Replay;
    if c.l1d.sets == 0 {
      FirstStoreWithoutL1d(c, 0);
    } else {
      forall ops: seq<Op>, x: nat
        ensures At(Replay(Run(c, ops).log, x), Newest(Run(c, ops), x)) == Replay(Run(c, ops).log, x).stores
      {
        NoStoreIsLost(c, ops, x);
      }
    }
  }

  // ---- past a copy in L3 ----

  ghost predicate Bypassing(c: Config) {
    GoodConfig(c) && c.l1d.sets != 0 && !NoBypass(c.l1d.sets, c.l2.sets, c.l3.sets, c.l3.ways)
  }

  /** The set of L1D that line 0 maps to. */
  function Set0(h: Hier): seq<Line>
    requires WellFormed(h) && Enabled(h.l1d)
  {
    h.l1d.data[0]
  }

  lemma {:induction false} RunSnoc(c: Config, ops: seq<Op>, op: Op)
    requires GoodConfig(c)
    ensures Run(c, ops + [op]) == Step(Run(c, ops), op)
  {
    assert (ops + [op])[..|ops|] == ops;
  }

  /** A load from L1D changes nothing but its own set and the counts. */
  lemma {:induction false} LoadHits(h: Hier, la: nat)
    requires WellFormed(h) && Enabled(h.l1d) && la % h.l1d.sets == 0
    requires Find(Set0(h), la) < |Set0(h)|
    ensures var h' := AccessLine(h, la, false, false).h;
            && |Set0(h)| <= h.l1d.ways
            && Set0(h') == AccessSet(Set0(h), h.l1d.ways, Access(la, false, false, true)).set_
            && h'.l3 == h.l3 && h'.log == h.log
  {
    hide Find;
    assert ValidSet(h.l1d, 0);
  }

  /** What line 0 sees of a missing load or store of a line of its set: `gone` says that its
      dirty copy is evicted from L1D. */
  function Seen(v: Versions, la: nat, store: bool, missed: bool, gone: bool): Versions {
    var v1 := if la == 0 && missed then v.(l3 := v.memory) else v;
    var v2 := if la == 0 then v1.(l1d := v1.l3) else v1;
    var v3 := if la == 0 && store then v2.(stores := v2.stores + 1, l1d := v2.stores + 1) else v2;
    if gone then v3.(memory := v3.l1d) else v3
  }

  lemma {:induction false} AccessMisses(h: Hier, la: nat, store: bool)
    requires WellFormed(h) && Enabled(h.l1d) && !Enabled(h.l2) && Enabled(h.l3)
    requires la % h.l1d.sets == 0 && Find(Set0(h), la) == |Set0(h)|
    requires Tracked(h, 0, AtRest, Second(h, 0))
    ensures var h' := AccessLine(h, la, store, false).h;
            && |Set0(h)| <= h.l1d.ways
            && var r := AccessSet(Set0(h), h.l1d.ways, Access(la, store, false, true));
            && Set0(h') == r.set_
            && h'.l3 == AccessCache(h.l3, Access(la, false, false, true)).cache
            && Replay(h'.log, 0) == Seen(Replay(h.log, 0), la, store,
                                         !AccessCache(h.l3, Access(la, false, false, true)).hit, EvictsDirty(r.victim, 0))
  {
    hide Find; hide Lookup; hide Replay; hide WritesJustified;
    assert ValidSet(h.l1d, 0);
    var l1 := L1Access(h, la, store, false);
    assert l1.victim == AccessSet(Set0(h), h.l1d.ways, Access(la, store, false, true)).victim;
    BelowSeen(l1.h, la);
    var h1 := Below(l1.h, la).h;
    ArrivalSeen(h1, la, store, l1.victim);
  }

  lemma {:induction false} BelowSeen(h: Hier, la: nat)
    requires WellFormed(h) && !Enabled(h.l2) && Enabled(h.l3)
    requires WritesJustified(h.log, 0) && !IsDirty(h.l3, 0)
    ensures var h' := Below(h, la).h;
            var r := AccessCache(h.l3, Access(la, false, false, true));
            && h'.l1d == h.l1d && h'.l2 == h.l2 && h'.l3 == r.cache
            && Replay(h'.log, 0) == (if la == 0 && !r.hit then Replay(h.log, 0).(l3 := Replay(h.log, 0).memory) else Replay(h.log, 0))
            && WritesJustified(h'.log, 0)
  {
    hide AccessCache; hide Lookup; hide Replay; hide WritesJustified; hide L3Access;
    var a := Access(la, false, false, true);
    AccessLines(h.l3, a, 0);
    L3Log(h, a, InMemory, 0);
  }

  lemma {:induction false} ArrivalSeen(h: Hier, la: nat, store: bool, victim: Option<Line>)
    requires WellFormed(h) && Enabled(h.l1d) && !Enabled(h.l2) && Enabled(h.l3)
    ensures var h' := WriteBackL1(StoredTo(FillL1(h, la, false), la, store), victim);
            && h'.l1d == h.l1d && h'.l3 == h.l3
            && Replay(h'.log, 0) == Seen(Replay(h.log, 0), la, store, false, EvictsDirty(victim, 0))
  {
    hide Replay;
    var h1 := FillL1(h, la, false);
    LogSnoc(h.log, Move(la, InL3, InL1D), 0);
    var h2 := StoredTo(h1, la, store);
    LogSnoc(h1.log, Store(la), 0);
    if victim.Some? && victim.value.dirty { LogSnoc(h2.log, Move(victim.value.tag, InL1D, InMemory), 0); }
  }

  // ---- a trace that leaves a stale copy in L3 ----

  /** Set 0 of L1D holds k lines up to `top`, none of them line 0 or dirty, and nobody has
      stored to line 0. */
  ghost predicate Filled(c: Config, ops: seq<Op>, k: nat, top: nat)
    requires GoodConfig(c) && c.l1d.sets != 0
  {
    var h := Run(c, ops);
    && SameShape(Init(c), h)
    && |Set0(h)| == k && CleanUpTo(Set0(h), top)
    && var v := Replay(h.log, 0);
       v.stores == v.l3 == v.memory == 0
  }

  /** The dirty line 0 is in place p of its full set in L1D, and first in its set in L3, where
      its data is older. */
  ghost predicate Parked(c: Config, ops: seq<Op>, p: nat)
    requires GoodConfig(c) && c.l1d.sets != 0
  {
    var h := Run(c, ops);
    && SameShape(Init(c), h)
    && p < |Set0(h)| == c.l1d.ways
    && Set0(h)[p].tag == 0 && Set0(h)[p].dirty
    && (forall i :: 0 <= i < |Set0(h)| ==> Set0(h)[i].tag <= c.l1d.ways * c.l1d.sets)
    && Enabled(h.l3) && |h.l3.data[0]| > 0 && h.l3.data[0][0].tag == 0
    && var v := Replay(h.log, 0);
       v.stores == 1 && v.l1d == 1 && v.l3 == 0
  }

  lemma {:induction false} FillSet(c: Config, k: nat) returns (ops: seq<Op>)
    requires Bypassing(c) && k <= c.l1d.ways
    ensures Filled(c, ops, k, k * c.l1d.sets)
  {
    hide AccessLine; hide Replay; hide Find; hide Lookup;
    if k == 0 {
      ops := [];
      EmptyReplay(0);
    } else {
      var ops0 := FillSet(c, k - 1);
      var la := k * c.l1d.sets;
      ops := ops0 + [Touch(la, false, false)];
      RunSnoc(c, ops0, Touch(la, false, false));
      DivExact(k, c.l1d.sets);
      assert (k - 1) * c.l1d.sets + c.l1d.sets == la;
      FillOne(c, ops0, ops, k, (k - 1) * c.l1d.sets, la);
    }
  }

  /** Clean lines from 1 to `top`. */
  predicate CleanUpTo(ls: seq<Line>, top: nat) {
    forall i :: 0 <= i < |ls| ==> !ls[i].dirty && 0 < ls[i].tag <= top
  }

  lemma {:induction false} FillList(ls: seq<Line>, ways: nat, top: nat, la: nat)
    requires |ls| < ways && CleanUpTo(ls, top) && la > top
    ensures Find(ls, la) == |ls|
    ensures var r := AccessSet(ls, ways, Access(la, false, false, true));
            |r.set_| == |ls| + 1 && CleanUpTo(r.set_, la) && r.victim.None?
  {
    hide Find;
    NotFound(ls, la);
  }

  /** A load of another line into a set with room. */
  lemma {:induction false} FillLine(h: Hier, top: nat, la: nat)
    requires WellFormed(h) && Enabled(h.l1d) && !Enabled(h.l2) && Enabled(h.l3)
    requires Tracked(h, 0, AtRest, Second(h, 0))
    requires |Set0(h)| < h.l1d.ways && CleanUpTo(Set0(h), top) && la > top && la % h.l1d.sets == 0
    ensures var h' := AccessLine(h, la, false, false).h;
            && |Set0(h')| == |Set0(h)| + 1 && CleanUpTo(Set0(h'), la)
            && Replay(h'.log, 0) == Replay(h.log, 0)
  {
    hide AccessLine; hide Replay; hide Find; hide AccessCache; hide AccessSet; hide Tracked; hide CleanUpTo;
    FillList(Set0(h), h.l1d.ways, top, la);
    AccessMisses(h, la, false);
  }

  lemma {:induction false} FillOne(c: Config, ops0: seq<Op>, ops: seq<Op>, k: nat, top: nat, la: nat)
    requires Bypassing(c) && 0 < k <= c.l1d.ways && Filled(c, ops0, k - 1, top)
    requires la > top && la % c.l1d.sets == 0
    requires Run(c, ops) == AccessLine(Run(c, ops0), la, false, false).h
    ensures Filled(c, ops, k, la)
  {
    hide AccessLine; hide Replay; hide Run; hide Tracked; hide CleanUpTo;
    RunTracked(c, ops0, 0);
    FillLine(Run(c, ops0), top, la);
  }

  /** The store to line 0 misses everywhere it matters. */
  lemma {:induction false} Park(c: Config) returns (ops: seq<Op>)
    requires Bypassing(c)
    ensures Parked(c, ops, 0)
  {
    hide AccessLine; hide Replay; hide Find; hide Lookup; hide Run; hide AccessCache;
    var ops0 := FillSet(c, c.l1d.ways);
    ops := ops0 + [Touch(0, true, false)];
    RunSnoc(c, ops0, Touch(0, true, false));
    var h := Run(c, ops0);
    RunTracked(c, ops0, 0);
    NotFound(Set0(h), 0);
    AccessMisses(h, 0, true);
    FirstInSet(h.l3, Access(0, false, false, true));
    var r := AccessSet(Set0(h), h.l1d.ways, Access(0, true, false, true));
    assert r.set_ == [Line(0, true, false)] + Set0(h)[..c.l1d.ways - 1];
  }

  lemma {:induction false} FirstInSet(c: Cache, a: Access)
    requires Valid(c) && Enabled(c)
    ensures var d := AccessCache(c, a).cache.data;
            |d| == c.sets && |d[SetOf(c, a.line)]| > 0 && d[SetOf(c, a.line)][0].tag == a.line
  {
    assert ValidSet(c, SetOf(c, a.line));
  }

  /** Loads that hit L1D push line 0 to the last place of its set. */
  lemma {:induction false} PushBack(c: Config, ops0: seq<Op>, p: nat) returns (ops: seq<Op>)
    requires Bypassing(c) && Parked(c, ops0, p)
    ensures Parked(c, ops, c.l1d.ways - 1)
    decreases c.l1d.ways - p
  {
    hide AccessLine; hide Replay; hide Find; hide Lookup; hide Run; hide AccessCache; hide Parked;
    Places(c, ops0, p);
    if p == c.l1d.ways - 1 {
      ops := ops0;
    } else {
      var la := Set0(Run(c, ops0))[c.l1d.ways - 1].tag;
      ops := ops0 + [Touch(la, false, false)];
      RunSnoc(c, ops0, Touch(la, false, false));
      PushOne(c, ops0, ops, p);
      ops := PushBack(c, ops, p + 1);
    }
  }

  lemma {:induction false} Places(c: Config, ops: seq<Op>, p: nat)
    requires Bypassing(c) && Parked(c, ops, p)
    ensures Enabled(Run(c, ops).l1d) && p < |Set0(Run(c, ops))| == c.l1d.ways
  {
  }

  lemma {:induction false} PushOne(c: Config, ops0: seq<Op>, ops: seq<Op>, p: nat)
    requires Bypassing(c) && Parked(c, ops0, p) && p < c.l1d.ways - 1
    requires Run(c, ops) == AccessLine(Run(c, ops0), Set0(Run(c, ops0))[c.l1d.ways - 1].tag, false, false).h
    ensures Parked(c, ops, p + 1)
  {
    hide AccessLine; hide Replay; hide Find; hide Lookup; hide Run; hide AccessCache;
    var h := Run(c, ops0);
    var ls := Set0(h);
    var last := c.l1d.ways - 1;
    assert ValidSet(h.l1d, 0);
    FindIs(ls, ls[last].tag, last);
    LoadHits(h, ls[last].tag);
    var r := AccessSet(ls, h.l1d.ways, Access(ls[last].tag, false, false, true));
    assert WithoutAt(ls, last) == ls[..last];
    assert r.set_ == [r.set_[0]] + ls[..last];
    assert r.set_[0].tag == ls[last].tag;
  }

  /** A line of line 0's set in L1D that is not there, and that does not take line 0's place in L3. */
  function Intruder(c: Config): nat
    requires c.l3.sets != 0
  {
    var w := (c.l1d.ways + 1) * c.l1d.sets;
    if c.l3.ways >= 2 || w % c.l3.sets != 0 then w else w + c.l1d.sets
  }

  lemma {:induction false} IntruderIs(c: Config)
    requires Bypassing(c)
    ensures var w := Intruder(c);
            && w % c.l1d.sets == 0 && w > c.l1d.ways * c.l1d.sets
            && (c.l3.ways >= 2 || w % c.l3.sets != 0)
  {
    var s1 := c.l1d.sets;
    var w := (c.l1d.ways + 1) * s1;
    DivExact(c.l1d.ways + 1, s1);
    DivExact(c.l1d.ways + 2, s1);
    assert w == c.l1d.ways * s1 + s1;
    assert (c.l1d.ways + 2) * s1 == w + s1;
    if w % c.l3.sets == 0 { SumMod(w, s1, c.l3.sets); }
  }

  lemma {:induction false} SumMod(a: nat, b: nat, m: nat)
    requires m > 0 && a % m == 0
    ensures (a + b) % m == b % m
  {
    ModAdd(b, a / m, m);
  }

  /** Line 0 stays in L3 when the intruder comes. */
  lemma {:induction false} Survives(c: Cache, w: nat)
    requires Valid(c) && Enabled(c) && w != 0
    requires |c.data[0]| > 0 && c.data[0][0].tag == 0
    requires c.ways >= 2 || w % c.sets != 0
    ensures Has(c, 0)
    ensures AccessCache(c, Access(w, false, false, true)).cache.sets == |AccessCache(c, Access(w, false, false, true)).cache.data|
    ensures Has(AccessCache(c, Access(w, false, false, true)).cache, 0)
  {
    hide AccessSet; hide Find;
    var a := Access(w, false, false, true);
    assert ValidSet(c, 0);
    FindIs(c.data[0], 0, 0);
    AccessLines(c, a, 0);
    VictimSet(c, a);
    if w % c.sets == 0 { LastIsNotFirst(c.data[0], c.ways, a); }
  }

  lemma {:induction false} LastIsNotFirst(ls: seq<Line>, ways: nat, a: Access)
    requires ways >= 2 && 0 < |ls| <= ways && ls[0].tag == 0
    requires Distinct(ls)
    ensures var r := AccessSet(ls, ways, a); r.victim.Some? ==> r.victim.value.tag != 0
  {
  }

  /** When a write-back can bypass L3, some load is stale: after some run, the version that a
      load of line 0 would read is not its last store. */
  lemma {:induction false} StaleLoad(c: Config) returns (ops: seq<Op>)
    requires Bypassing(c)
    ensures var h := Run(c, ops);
            var v := Replay(h.log, 0);
            At(v, Supplier(h, 0)) != v.stores
  {
    hide AccessLine; hide Replay; hide Find; hide Lookup; hide Run; hide AccessCache; hide Parked;
    var ops0 := Park(c);
    ops0 := PushBack(c, ops0, 0);
    var w := Intruder(c);
    ops := ops0 + [Touch(w, false, false)];
    RunSnoc(c, ops0, Touch(w, false, false));
    Intrude(c, ops0, ops);
  }

  lemma {:induction false} Intrude(c: Config, ops0: seq<Op>, ops: seq<Op>)
    requires Bypassing(c) && Parked(c, ops0, c.l1d.ways - 1)
    requires Run(c, ops) == AccessLine(Run(c, ops0), Intruder(c), false, false).h
    ensures var h := Run(c, ops);
            var v := Replay(h.log, 0);
            At(v, Supplier(h, 0)) != v.stores
  {
    hide AccessLine; hide Replay; hide Find; hide Run; hide AccessCache; hide Lookup;
    var h := Run(c, ops0);
    var h' := Run(c, ops);
    var w := Intruder(c);
    IntruderIs(c);
    RunTracked(c, ops0, 0);
    NotFound(Set0(h), w);
    AccessMisses(h, w, false);
    Survives(h.l3, w);
    var ls := Set0(h);
    assert ValidSet(h.l1d, 0);
    assert Set0(h') == [Line(w, false, false)] + ls[..c.l1d.ways - 1];
    NotFound(Set0(h'), 0);
    Gone(h'.l1d);
    NoCopy(h'.l2, 0);
  }

  lemma {:induction false} Gone(c: Cache)
    requires Valid(c) && Enabled(c) && Find(c.data[0], 0) == |c.data[0]|
    ensures !Has(c, 0)
  {
    hide Find;
  }

  /** Every load of every run finds the last store exactly when there is an L1D and no
      write-back of it can go past a copy of its line in L3. */
  lemma {:induction false} LoadsCurrentIff(c: Config)
    requires GoodConfig(c)
    ensures (forall ops: seq<Op>, x: nat ::
               At(Replay(Run(c, ops).log, x), Supplier(Run(c, ops), x)) == Replay(Run(c, ops).log, x).stores)
            <==> c.l1d.sets != 0 && NoBypass(c.l1d.sets, c.l2.sets, c.l3.sets, c.l3.ways)
  {
    hide Run; hide Replay; hide Lookup; hide NoBypass;
    if c.l1d.sets == 0 {
      FirstStoreWithoutL1d(c, 0);
    } else if NoBypass(c.l1d.sets, c.l2.sets, c.l3.sets, c.l3.ways) {
      forall ops: seq<Op>, x: nat
        ensures At(Replay(Run(c, ops).log, x), Supplier(Run(c, ops), x)) == Replay(Run(c, ops).log, x).stores
      {
        LoadsAreCurrent(c, ops, x);
      }
    } else {
      var ops := StaleLoad(c);
    }
  }
}
