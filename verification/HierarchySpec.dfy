/** The three-level hierarchy (preprocess/cachesim/cachesim.cpp, `Sim`): back-invalidation,
    write-backs and prefetch fills as transitions on four caches. */
module HierarchySpec {
  import opened Options
  import opened CacheSpec

  datatype Stats = Stats(
    l1iAcc: nat, l1iHit: nat, l1dAcc: nat, l1dHit: nat, l2Acc: nat, l2Hit: nat, l3Acc: nat, l3Hit: nat,
    dramAcc: nat,
    pfIssued: nat, pfRedundant: nat, pfUseful: nat, pfEvictedUnused: nat,
    l1dWb: nat, l2Wb: nat, dramWb: nat, backInval: nat)

  function NoStats(): Stats { Stats(0, 0, 0, 0, 0, 0, 0, 0, 0, 0, 0, 0, 0, 0, 0, 0, 0) }

  function One(b: bool): nat { if b then 1 else 0 }

  /** Where the data of a line can be. */
  datatype Place = InL1D | InL2 | InL3 | InMemory

  /** What happens to the data of a line: it is stored to, or it moves. */
  datatype DataEvent = Store(line: nat) | Move(line: nat, from: Place, to: Place)

  /** `log` records what the accesses mean for the data, which the caches do not hold. */
  datatype Hier = Hier(
    l1i: Cache, l1d: Cache, l2: Cache, l3: Cache,
    inclusive: bool,
    st: Stats,
    log: seq<DataEvent>)

  ghost predicate WellFormed(h: Hier) {
    Valid(h.l1i) && Valid(h.l1d) && Valid(h.l2) && Valid(h.l3)
  }

  /** No transition turns a level on or off. */
  ghost predicate SameShape(h: Hier, h': Hier) {
    && h'.l1d.sets == h.l1d.sets && h'.l1d.ways == h.l1d.ways && h'.l1i.sets == h.l1i.sets
    && h'.l2.sets == h.l2.sets && h'.l3.sets == h.l3.sets && h'.l3.ways == h.l3.ways
    && h'.inclusive == h.inclusive
  }

  function Moved(h: Hier, x: nat, from: Place, to: Place): Hier {
    h.(log := h.log + [Move(x, from, to)])
  }

  function StoredTo(h: Hier, x: nat, write: bool): Hier {
    if write then h.(log := h.log + [Store(x)]) else h
  }

  function WriteDram(h: Hier, x: nat, from: Place): Hier {
    Moved(h.(st := h.st.(dramWb := h.st.dramWb + 1)), x, from, InMemory)
  }

  /** An L3 access together with the write-back of its victim. A write brings its data
      from above; a read that misses brings it from memory. */
  function L3Access(h: Hier, a: Access, from: Place): (r: (Hier, bool))
    requires WellFormed(h) && Enabled(h.l3)
    ensures WellFormed(r.0) && SameShape(h, r.0)
  {
    AccessLines(h.l3, a, a.line);
    var r := AccessCache(h.l3, a);
    (L3Data(h.(l3 := r.cache), a, from, r.hit, r.victim), r.hit)
  }

  function L3Data(h: Hier, a: Access, from: Place, hit: bool, victim: Option<Line>): (r: Hier)
    ensures r == h.(st := r.st, log := r.log)
  {
    var h1 := if victim.Some? && victim.value.dirty then WriteDram(h, victim.value.tag, InL3) else h;
    if a.write || !hit then Moved(h1, a.line, from, InL3) else h1
  }

  /** Removes the evicted L2 line from the first-level caches. */
  function BackInvalidate(h: Hier, x: nat): (r: (Hier, bool))
    requires WellFormed(h)
    ensures WellFormed(r.0) && SameShape(h, r.0)
  {
    if !h.inclusive then (h, false)
    else
      var (h1, d) := BackInvalidateD(h, x);
      if !Enabled(h1.l1i) then (h1, d)
      else
        InvalidateLines(h1.l1i, x, x);
        var (c, l) := Invalidate(h1.l1i, x);
        (h1.(l1i := c, st := h1.st.(backInval := h1.st.backInval + One(l.Some?))), d)
  }

  function BackInvalidateD(h: Hier, x: nat): (r: (Hier, bool))
    requires WellFormed(h)
    ensures WellFormed(r.0) && SameShape(h, r.0)
  {
    if !Enabled(h.l1d) then (h, false)
    else
      InvalidateLines(h.l1d, x, x);
      var (c, l) := Invalidate(h.l1d, x);
      (h.(l1d := c, st := h.st.(backInval := h.st.backInval + One(l.Some?))),
       l.Some? && l.value.dirty)
  }

  /** What happens to a line evicted from L2. */
  function L2Evict(h: Hier, victim: Option<Line>): (r: Hier)
    requires WellFormed(h)
    ensures WellFormed(r) && SameShape(h, r)
  {
    if victim.None? then h
    else
      var (h1, d) := BackInvalidate(h, victim.value.tag);
      L2Leaves(h1, victim.value, d)
  }

  /** The books and the write-back of a line that has left L2; `d` says that the copy taken
      out of L1D was dirty. */
  function L2Leaves(h: Hier, v: Line, d: bool): (r: Hier)
    requires WellFormed(h)
    ensures WellFormed(r) && SameShape(h, r)
  {
    var h2 := if v.pf then h.(st := h.st.(pfEvictedUnused := h.st.pfEvictedUnused + 1)) else h;
    if !(v.dirty || d) then h2
    else
      var h3 := h2.(st := h2.st.(l2Wb := h2.st.l2Wb + 1));
      var from := if d then InL1D else InL2;
      if Enabled(h3.l3) then L3Access(h3, Access(v.tag, true, false, false), from).0 else WriteDram(h3, v.tag, from)
  }

  /** An L2 access followed by the handling of its victim. */
  function L2Access(h: Hier, a: Access): (r: (Hier, bool, bool))
    requires WellFormed(h) && Enabled(h.l2)
    ensures WellFormed(r.0) && SameShape(h, r.0)
  {
    AccessLines(h.l2, a, a.line);
    var r := AccessCache(h.l2, a);
    (L2Evict(h.(l2 := r.cache), r.victim), r.hit, r.pfUseful)
  }

  /** The level below L2. */
  function BelowSecond(h: Hier): Place { if Enabled(h.l3) then InL3 else InMemory }

  /** A fill for a write-back, whose data comes from L1D, or for a prefetch. */
  function L2Insert(h: Hier, la: nat, dirty: bool, asPf: bool): (r: Hier)
    requires WellFormed(h)
    ensures WellFormed(r) && SameShape(h, r)
  {
    if !Enabled(h.l2) then (if dirty then WriteDram(h, la, InL1D) else h)
    else L2Access(Moved(h, la, if dirty then InL1D else BelowSecond(h), InL2), Access(la, dirty, asPf, false)).0
  }

  function IssuePrefetch(h: Hier, la: nat): (r: Hier)
    requires WellFormed(h)
    ensures WellFormed(r) && SameShape(h, r)
  {
    if (Enabled(h.l1d) && Probe(h.l1d, la)) || (Enabled(h.l2) && Probe(h.l2, la)) then
      h.(st := h.st.(pfRedundant := h.st.pfRedundant + 1))
    else
      var h1 := h.(st := h.st.(pfIssued := h.st.pfIssued + 1));
      var h2 := if Enabled(h1.l3) then L3Access(h1, Access(la, false, false, false), InMemory).0 else h1;
      L2Insert(h2, la, false, true)
  }

  datatype L1Result = L1Result(h: Hier, hit: bool, victim: Option<Line>)

  function CountL1(st: Stats, ifetch: bool, hit: bool): Stats {
    if ifetch then st.(l1iAcc := st.l1iAcc + 1, l1iHit := st.l1iHit + One(hit))
    else st.(l1dAcc := st.l1dAcc + 1, l1dHit := st.l1dHit + One(hit))
  }

  /** The first-level access: an instruction fetch never writes. */
  function L1Access(h: Hier, la: nat, store: bool, ifetch: bool): (r: L1Result)
    requires WellFormed(h)
    ensures WellFormed(r.h) && SameShape(h, r.h)
  {
    var c := if ifetch then h.l1i else h.l1d;
    if !Enabled(c) then L1Result(h, false, None)
    else
      var a := Access(la, store && !ifetch, false, true);
      AccessLines(c, a, la);
      var r := AccessCache(c, a);
      var h1 := h.(st := CountL1(h.st, ifetch, r.hit));
      L1Result(if ifetch then h1.(l1i := r.cache) else h1.(l1d := r.cache), r.hit, r.victim)
  }

  /** The level that served an access: 0 for L1, up to 3 for memory. */
  datatype Served = Served(h: Hier, level: nat, pfHit: bool)

  function CountL2(st: Stats, hit: bool, useful: bool): Stats {
    st.(l2Acc := st.l2Acc + 1, l2Hit := st.l2Hit + One(hit), pfUseful := st.pfUseful + One(useful))
  }

  function CountL3(st: Stats, hit: bool): Stats {
    st.(l3Acc := st.l3Acc + 1, l3Hit := st.l3Hit + One(hit), dramAcc := st.dramAcc + One(!hit))
  }

  /** L2 and below, for an access that missed L1. */
  function Below(h: Hier, la: nat): (r: Served)
    requires WellFormed(h)
    ensures WellFormed(r.h) && SameShape(h, r.h)
  {
    if !Enabled(h.l2) then BelowL2(h, la)
    else
      var (h1, hit, useful) := L2Access(h, Access(la, false, false, true));
      var h2 := h1.(st := CountL2(h1.st, hit, useful));
      if hit then Served(h2, 1, useful)
      else
        var s := BelowL2(h2, la);
        s.(h := Moved(s.h, la, BelowSecond(h), InL2))
  }

  function BelowL2(h: Hier, la: nat): (r: Served)
    requires WellFormed(h)
    ensures WellFormed(r.h) && SameShape(h, r.h)
  {
    if !Enabled(h.l3) then Served(h.(st := h.st.(dramAcc := h.st.dramAcc + 1)), 3, false)
    else
      var (h1, hit) := L3Access(h, Access(la, false, false, true), InMemory);
      Served(h1.(st := CountL3(h1.st, hit)), if hit then 2 else 3, false)
  }

  /** The data of a missing line arrives from the nearest level below L1. */
  function FillL1(h: Hier, la: nat, ifetch: bool): Hier {
    if ifetch || !Enabled(h.l1d) then h
    else Moved(h, la, if Enabled(h.l2) then InL2 else BelowSecond(h), InL1D)
  }

  function WriteBackL1(h: Hier, victim: Option<Line>): (r: Hier)
    requires WellFormed(h)
    ensures WellFormed(r) && SameShape(h, r)
  {
    if victim.Some? && victim.value.dirty then
      L2Insert(h.(st := h.st.(l1dWb := h.st.l1dWb + 1)), victim.value.tag, true, false)
    else h
  }

  /** What follows an L1 miss. */
  function Miss(h: Hier, la: nat, write: bool, ifetch: bool, victim: Option<Line>): (r: Served)
    requires WellFormed(h)
    ensures WellFormed(r.h) && SameShape(h, r.h)
  {
    var s := Below(h, la);
    s.(h := WriteBackL1(StoredTo(FillL1(s.h, la, ifetch), la, write), victim))
  }

  function AccessLine(h: Hier, la: nat, store: bool, ifetch: bool): (r: Served)
    requires WellFormed(h)
    ensures WellFormed(r.h) && SameShape(h, r.h)
  {
    var l1 := L1Access(h, la, store, ifetch);
    var write := store && !ifetch;
    if l1.hit then Served(StoredTo(l1.h, la, write), 0, false) else Miss(l1.h, la, write, ifetch, l1.victim)
  }

  // ---- runs ----

  datatype Op = Touch(line: nat, store: bool, ifetch: bool) | Prefetch(line: nat)

  function Step(h: Hier, op: Op): (r: Hier)
    requires WellFormed(h)
    ensures WellFormed(r) && SameShape(h, r)
  {
    match op
    case Touch(la, store, ifetch) => AccessLine(h, la, store, ifetch).h
    case Prefetch(la) => IssuePrefetch(h, la)
  }

  datatype Geometry = Geometry(sets: nat, ways: nat)

  /** A geometry the configuration loader accepts; no sets means the level is off. */
  predicate GoodGeometry(g: Geometry) { g.sets != 0 ==> g.ways >= 1 }

  datatype Config = Config(l1i: Geometry, l1d: Geometry, l2: Geometry, l3: Geometry, inclusive: bool)

  predicate GoodConfig(c: Config) {
    GoodGeometry(c.l1i) && GoodGeometry(c.l1d) && GoodGeometry(c.l2) && GoodGeometry(c.l3)
  }

  function Empty(g: Geometry): Cache { EmptyCache(g.sets, g.ways) }

  function Init(c: Config): (h: Hier)
    requires GoodConfig(c)
    ensures WellFormed(h)
  {
    EmptyValid(c.l1i.sets, c.l1i.ways, 0);
    EmptyValid(c.l1d.sets, c.l1d.ways, 0);
    EmptyValid(c.l2.sets, c.l2.ways, 0);
    EmptyValid(c.l3.sets, c.l3.ways, 0);
    Hier(Empty(c.l1i), Empty(c.l1d), Empty(c.l2), Empty(c.l3), c.inclusive, NoStats(), [])
  }

  function Run(c: Config, ops: seq<Op>): (h: Hier)
    requires GoodConfig(c)
    ensures WellFormed(h)
  {
    if ops == [] then Init(c) else Step(Run(c, ops[..|ops| - 1]), ops[|ops| - 1])
  }
}
