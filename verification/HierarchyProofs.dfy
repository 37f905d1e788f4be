/** What the hierarchy keeps over every run: the L2 stays inclusive, and every issued
    prefetch is accounted for. */
module HierarchyProofs {
  import opened Options
  import opened CacheSpec
  import opened HierarchySpec

  // ---- frames ----

  ghost predicate SameL1Counts(h: Hier, h': Hier) {
    && h'.st.l1iAcc == h.st.l1iAcc && h'.st.l1iHit == h.st.l1iHit
    && h'.st.l1dAcc == h.st.l1dAcc && h'.st.l1dHit == h.st.l1dHit
  }

  /** Levels above L3 do not notice an L3 access. */
  ghost predicate SameUpper(h: Hier, h': Hier) {
    && h'.l1i == h.l1i && h'.l1d == h.l1d && h'.l2 == h.l2 && h'.inclusive == h.inclusive
    && h'.l3.sets == h.l3.sets
    && h'.st.pfIssued == h.st.pfIssued && h'.st.pfUseful == h.st.pfUseful
    && h'.st.pfEvictedUnused == h.st.pfEvictedUnused
    && h'.st.l2Acc == h.st.l2Acc && h'.st.l2Hit == h.st.l2Hit && SameL1Counts(h, h')
  }

  lemma {:induction false} L3Upper(h: Hier, a: Access, from: Place)
    requires WellFormed(h) && Enabled(h.l3)
    ensures SameUpper(h, L3Access(h, a, from).0)
  {
    AccessLines(h.l3, a, a.line);
  }

  /** Back-invalidation takes the line out of both first-level caches and nothing else, and
      counts the copies it took out. */
  lemma {:induction false} BackInvalidateLines(h: Hier, v: nat, x: nat)
    requires WellFormed(h)
    ensures var (h', d) := BackInvalidate(h, v);
            && WellFormed(h')
            && h'.l2 == h.l2 && h'.l3 == h.l3 && h'.inclusive == h.inclusive && h'.log == h.log
            && h'.l1d.sets == h.l1d.sets && h'.l1i.sets == h.l1i.sets
            && h'.st == h.st.(backInval := h.st.backInval + One(h.inclusive && Has(h.l1d, v)) + One(h.inclusive && Has(h.l1i, v)))
            && Lookup(h'.l1d, x) == (if h.inclusive && x == v then None else Lookup(h.l1d, x))
            && Lookup(h'.l1i, x) == (if h.inclusive && x == v then None else Lookup(h.l1i, x))
            && d == (h.inclusive && IsDirty(h.l1d, v))
            && (!h.inclusive ==> h' == h)
  {
    hide Invalidate; hide Find;
    if Enabled(h.l1d) { InvalidateLines(h.l1d, v, x); InvalidateLines(h.l1d, v, v); }
    if Enabled(h.l1i) { InvalidateLines(h.l1i, v, x); InvalidateLines(h.l1i, v, v); }
  }

  // ---- the L2 is inclusive ----

  predicate Incl(h: Hier, x: nat)
    requires |h.l1i.data| == h.l1i.sets && |h.l1d.data| == h.l1d.sets && |h.l2.data| == h.l2.sets
  {
    Has(h.l1d, x) || Has(h.l1i, x) ==> Has(h.l2, x)
  }

  lemma {:induction false} L2EvictLines(h: Hier, victim: Option<Line>, x: nat)
    requires WellFormed(h)
    ensures var h' := L2Evict(h, victim);
            && h'.l2 == h.l2
            && Lookup(h'.l1d, x) == (if h.inclusive && victim.Some? && x == victim.value.tag then None else Lookup(h.l1d, x))
            && Lookup(h'.l1i, x) == (if h.inclusive && victim.Some? && x == victim.value.tag then None else Lookup(h.l1i, x))
            && h'.st.pfIssued == h.st.pfIssued && h'.st.pfUseful == h.st.pfUseful
            && h'.st.pfEvictedUnused == h.st.pfEvictedUnused + (if victim.Some? && victim.value.pf then 1 else 0)
            && h'.st.l2Acc == h.st.l2Acc && h'.st.l2Hit == h.st.l2Hit && SameL1Counts(h, h')
            && (!h.inclusive ==> h'.l1i == h.l1i && h'.l1d == h.l1d)
  {
    hide BackInvalidate; hide L3Access; hide Lookup;
    if victim.Some? {
      var v := victim.value;
      BackInvalidateLines(h, v.tag, x);
      var (h1, d) := BackInvalidate(h, v.tag);
      var h2 := if v.pf then h1.(st := h1.st.(pfEvictedUnused := h1.st.pfEvictedUnused + 1)) else h1;
      if v.dirty || d {
        var h3 := h2.(st := h2.st.(l2Wb := h2.st.l2Wb + 1));
        if Enabled(h3.l3) { L3Upper(h3, Access(v.tag, true, false, false), if d then InL1D else InL2); }
      }
    }
  }

  /** An L2 access brings its own line in and takes its victim out of L1. */
  lemma {:induction false} L2AccessIncl(h: Hier, a: Access, x: nat)
    requires WellFormed(h) && Enabled(h.l2) && h.inclusive
    requires x != a.line ==> Incl(h, x)
    ensures Incl(L2Access(h, a).0, x)
  {
    hide AccessCache; hide L2Evict; hide Lookup;
    AccessLines(h.l2, a, x);
    var r := AccessCache(h.l2, a);
    L2EvictLines(h.(l2 := r.cache), r.victim, x);
  }

  lemma {:induction false} BelowIncl(h: Hier, la: nat, x: nat)
    requires WellFormed(h) && Enabled(h.l2) && h.inclusive
    requires x != la ==> Incl(h, x)
    ensures Incl(Below(h, la).h, x)
  {
    hide L2Access; hide L3Access; hide Lookup;
    L2AccessIncl(h, Access(la, false, false, true), x);
    var (h1, hit, useful) := L2Access(h, Access(la, false, false, true));
    var h2 := h1.(st := CountL2(h1.st, hit, useful));
    if Enabled(h2.l3) { L3Upper(h2, Access(la, false, false, true), InMemory); }
  }

  lemma {:induction false} L1Lines(h: Hier, la: nat, store: bool, ifetch: bool, x: nat)
    requires WellFormed(h)
    ensures var r := L1Access(h, la, store, ifetch);
            && r.h.l2 == h.l2 && r.h.l3 == h.l3 && r.h.st.pfIssued == h.st.pfIssued
            && r.h.st.pfUseful == h.st.pfUseful && r.h.st.pfEvictedUnused == h.st.pfEvictedUnused
            && r.h.st.l2Acc == h.st.l2Acc && r.h.st.l2Hit == h.st.l2Hit
            && (x != la ==> (Has(r.h.l1d, x) ==> Has(h.l1d, x)) && (Has(r.h.l1i, x) ==> Has(h.l1i, x)))
            && (r.hit ==> (Has(r.h.l1d, x) == Has(h.l1d, x)) && (Has(r.h.l1i, x) == Has(h.l1i, x)))
  {
    hide AccessCache; hide Lookup;
    var c := if ifetch then h.l1i else h.l1d;
    if Enabled(c) {
      AccessLines(c, Access(la, store && !ifetch, false, true), x);
      AccessLines(c, Access(la, store && !ifetch, false, true), la);
    }
  }

  lemma {:induction false} StepIncl(h: Hier, op: Op, x: nat)
    requires WellFormed(h) && Enabled(h.l2) && h.inclusive && Incl(h, x)
    ensures Incl(Step(h, op), x)
  {
    hide L1Access; hide Below; hide L2Access; hide L3Access; hide Lookup; hide Probe;
    match op
    case Touch(la, store, ifetch) =>
      L1Lines(h, la, store, ifetch, x);
      var l1 := L1Access(h, la, store, ifetch);
      if !l1.hit {
        BelowIncl(l1.h, la, x);
        var s := Below(l1.h, la);
        if l1.victim.Some? && l1.victim.value.dirty {
          var h0 := StoredTo(FillL1(s.h, la, ifetch), la, store && !ifetch);
          var h1 := Moved(h0.(st := h0.st.(l1dWb := h0.st.l1dWb + 1)), l1.victim.value.tag, InL1D, InL2);
          L2AccessIncl(h1, Access(l1.victim.value.tag, true, false, false), x);
        }
      }
    case Prefetch(la) =>
      var h1 := h.(st := h.st.(pfIssued := h.st.pfIssued + 1));
      if Enabled(h1.l3) { L3Upper(h1, Access(la, false, false, false), InMemory); }
      var h2 := if Enabled(h1.l3) then L3Access(h1, Access(la, false, false, false), InMemory).0 else h1;
      L2AccessIncl(Moved(h2, la, BelowSecond(h2), InL2), Access(la, false, true, false), x);
  }

  /** Inclusion: after any run every line in a first-level cache is in the L2, even when
      the L1 victim's own write-back evicts from L2, and for any number of ways. */
  lemma {:induction false} L2StaysInclusive(c: Config, ops: seq<Op>, x: nat)
    requires GoodConfig(c) && c.l2.sets != 0 && c.inclusive
    ensures var h := Run(c, ops);
            Enabled(h.l2) && h.inclusive && (Has(h.l1d, x) || Has(h.l1i, x) ==> Has(h.l2, x))
    decreases |ops|
  {
    hide AccessLine; hide IssuePrefetch;
    if ops == [] {
      EmptyValid(c.l1i.sets, c.l1i.ways, x);
      EmptyValid(c.l1d.sets, c.l1d.ways, x);
    } else {
      L2StaysInclusive(c, ops[..|ops| - 1], x);
      StepIncl(Run(c, ops[..|ops| - 1]), ops[|ops| - 1], x);
    }
  }

  // ---- prefetches are accounted for ----

  /** The lines of a cache that were prefetched and not yet used. */
  ghost function PfLines(c: Cache): set<nat> {
    set s, i | 0 <= s < |c.data| && 0 <= i < |c.data[s]| && c.data[s][i].pf :: c.data[s][i].tag
  }

  lemma {:induction false} PfLinesAre(c: Cache, x: nat)
    requires Valid(c)
    ensures x in PfLines(c) <==> IsPf(c, x)
  {
    if x in PfLines(c) {
      var s, i :| 0 <= s < |c.data| && 0 <= i < |c.data[s]| && c.data[s][i].pf && c.data[s][i].tag == x;
      assert ValidSet(c, s);
      FindIs(c.data[s], x, i);
    }
  }

  /** Useful, evicted unused, or still waiting in L2. */
  ghost function Accounted(h: Hier): nat {
    h.st.pfUseful + h.st.pfEvictedUnused + |PfLines(h.l2)|
  }

  function Only(b: bool, x: nat): set<nat> { if b then {x} else {} }

  lemma {:induction false} AccessPfSet(c: Cache, a: Access)
    requires Valid(c) && Enabled(c)
    ensures var r := AccessCache(c, a);
            var gone := Only(r.victim.Some? && r.victim.value.pf, if r.victim.Some? then r.victim.value.tag else 0);
            && PfLines(r.cache) == PfLines(c) - gone - Only(r.pfUseful, a.line) + Only(!r.hit && a.prefetch, a.line)
            && gone <= PfLines(c)
            && Only(r.pfUseful, a.line) <= PfLines(c) - gone
            && (!r.hit ==> a.line !in PfLines(c))
  {
    hide AccessCache; hide Lookup; hide PfLines;
    var r := AccessCache(c, a);
    AccessLines(c, a, a.line);
    PfLinesAre(c, a.line);
    if r.victim.Some? { PfLinesAre(c, r.victim.value.tag); }
    var gone := Only(r.victim.Some? && r.victim.value.pf, if r.victim.Some? then r.victim.value.tag else 0);
    forall x ensures x in PfLines(r.cache) <==>
                       x in PfLines(c) - gone - Only(r.pfUseful, a.line) + Only(!r.hit && a.prefetch, a.line)
    {
      AccessLines(c, a, x);
      PfLinesAre(c, x);
      PfLinesAre(r.cache, x);
    }
  }

  lemma {:induction false} AccessPfLines(c: Cache, a: Access)
    requires Valid(c) && Enabled(c)
    ensures var r := AccessCache(c, a);
            |PfLines(r.cache)| == |PfLines(c)|
              + (if !r.hit && a.prefetch then 1 else 0)
              - (if r.pfUseful then 1 else 0)
              - (if r.victim.Some? && r.victim.value.pf then 1 else 0)
  {
    hide AccessCache; hide PfLines;
    AccessPfSet(c, a);
    var r := AccessCache(c, a);
    AccessLines(c, a, a.line);
    var s0 := PfLines(c);
    var s1 := s0 - Only(r.victim.Some? && r.victim.value.pf, if r.victim.Some? then r.victim.value.tag else 0);
    var s2 := s1 - Only(r.pfUseful, a.line);
    assert |s2| == |s1| - (if r.pfUseful then 1 else 0);
  }

  lemma {:induction false} L2AccessPf(h: Hier, a: Access)
    requires WellFormed(h) && Enabled(h.l2)
    ensures var (h', hit, useful) := L2Access(h, a);
            && hit == Has(h.l2, a.line)
            && (useful ==> hit && a.demand)
            && h'.st.pfIssued == h.st.pfIssued
            && Accounted(h') + (if useful then 1 else 0) == Accounted(h) + (if !hit && a.prefetch then 1 else 0)
  {
    hide AccessCache; hide L2Evict; hide Lookup; hide PfLines;
    AccessLines(h.l2, a, a.line);
    AccessPfLines(h.l2, a);
    var r := AccessCache(h.l2, a);
    L2EvictLines(h.(l2 := r.cache), r.victim, a.line);
  }

  ghost predicate Balanced(h: Hier) { h.st.pfIssued == h.st.pfUseful + h.st.pfEvictedUnused + |PfLines(h.l2)| }

  lemma {:induction false} BelowPf(h: Hier, la: nat)
    requires WellFormed(h) && Enabled(h.l2) && Balanced(h)
    ensures Balanced(Below(h, la).h)
  {
    hide L2Access; hide L3Access; hide Lookup; hide PfLines;
    var a := Access(la, false, false, true);
    L2AccessPf(h, a);
    var (h1, hit, useful) := L2Access(h, a);
    var h2 := h1.(st := CountL2(h1.st, hit, useful));
    if Enabled(h2.l3) { L3Upper(h2, a, InMemory); }
  }

  lemma {:induction false} TouchPf(h: Hier, la: nat, store: bool, ifetch: bool)
    requires WellFormed(h) && Enabled(h.l2) && Balanced(h)
    ensures Balanced(AccessLine(h, la, store, ifetch).h)
  {
    hide L1Access; hide Below; hide L2Access; hide Lookup; hide PfLines;
    L1Lines(h, la, store, ifetch, la);
    var l1 := L1Access(h, la, store, ifetch);
    if !l1.hit {
      BelowPf(l1.h, la);
      var s := Below(l1.h, la);
      if l1.victim.Some? && l1.victim.value.dirty {
        var h0 := StoredTo(FillL1(s.h, la, ifetch), la, store && !ifetch);
        var h3 := Moved(h0.(st := h0.st.(l1dWb := h0.st.l1dWb + 1)), l1.victim.value.tag, InL1D, InL2);
        L2AccessPf(h3, Access(l1.victim.value.tag, true, false, false));
      }
    }
  }

  lemma {:induction false} PrefetchPf(h: Hier, la: nat)
    requires WellFormed(h) && Enabled(h.l2) && Balanced(h)
    ensures Balanced(IssuePrefetch(h, la))
  {
    hide L2Access; hide L3Access; hide Lookup; hide PfLines;
    ProbeIsHas(h.l2, la);
    var h1 := h.(st := h.st.(pfIssued := h.st.pfIssued + 1));
    if Enabled(h1.l3) { L3Upper(h1, Access(la, false, false, false), InMemory); }
    var h2 := if Enabled(h1.l3) then L3Access(h1, Access(la, false, false, false), InMemory).0 else h1;
    L2AccessPf(Moved(h2, la, BelowSecond(h2), InL2), Access(la, false, true, false));
  }

  lemma {:induction false} ProbeIsHas(c: Cache, x: nat)
    requires Valid(c) && Enabled(c)
    ensures Probe(c, x) == Has(c, x)
  {
  }

  /** Prefetch conservation: every prefetch issued was used by a demand access, was
      evicted unused, or is still flagged in L2. */
  lemma {:induction false} PrefetchesBalance(c: Config, ops: seq<Op>)
    requires GoodConfig(c) && c.l2.sets != 0
    ensures var h := Run(c, ops);
            Enabled(h.l2) && h.st.pfIssued == h.st.pfUseful + h.st.pfEvictedUnused + |PfLines(h.l2)|
    decreases |ops|
  {
    hide AccessLine; hide IssuePrefetch;
    if ops == [] {
      assert PfLines(Run(c, ops).l2) == {};
    } else {
      PrefetchesBalance(c, ops[..|ops| - 1]);
      match ops[|ops| - 1]
      case Touch(la, store, ifetch) => TouchPf(Run(c, ops[..|ops| - 1]), la, store, ifetch);
      case Prefetch(la) => PrefetchPf(Run(c, ops[..|ops| - 1]), la);
    }
  }
}
