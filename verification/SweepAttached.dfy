/** The single-scan engine attached to L2 (preprocess/cachesim/cachesim.cpp, `sweep_l2`): it
    sees the very accesses the L2 sees. */
module SweepAttached {
  import opened CacheSpec
  import opened HierarchySpec
  import opened StackSpec
  import opened StackTheorems
  import HierarchyProofs

  /** The accesses to L2 that one operation makes, as the sweep sees them. */
  function L2Trace(h: Hier, op: Op): seq<Access>
    requires WellFormed(h)
  {
    match op
    case Touch(la, store, ifetch) =>
      var l1 := L1Access(h, la, store, ifetch);
      if l1.hit || !Enabled(h.l2) then []
      else
        [Access(la, false, false, true)] +
        (if l1.victim.Some? && l1.victim.value.dirty then [Access(l1.victim.value.tag, true, false, false)] else [])
    case Prefetch(la) =>
      if !Enabled(h.l2) || (Enabled(h.l1d) && Probe(h.l1d, la)) || Probe(h.l2, la) then []
      else [Access(la, false, true, false)]
  }

  /** All accesses to L2 of a run. */
  function L2Stream(c: Config, ops: seq<Op>): seq<Access>
    requires GoodConfig(c)
  {
    if ops == [] then []
    else
      var init := ops[..|ops| - 1];
      L2Stream(c, init) + L2Trace(Run(c, init), ops[|ops| - 1])
  }

  /** L2 holds what an LRU cache of its geometry holds after the same accesses, and its
      counters are the demand accesses and demand hits of that cache. */
  ghost predicate Attached(h: Hier, g: Geometry, stream: seq<Access>)
    requires GoodGeometry(g) && g.sets != 0
  {
    && WellFormed(h) && h.l2 == Lru(g, stream)
    && h.st.l2Acc == Demands(stream) && h.st.l2Hit == LruHits(g, stream)
  }

  lemma {:induction false} L2AccessIs(h: Hier, a: Access)
    requires WellFormed(h) && Enabled(h.l2)
    ensures var r := AccessCache(h.l2, a);
            var (h', hit, useful) := L2Access(h, a);
            && h'.l2 == r.cache && hit == r.hit
            && h'.st.l2Acc == h.st.l2Acc && h'.st.l2Hit == h.st.l2Hit
  {
    hide AccessCache; hide L2Evict; hide Lookup;
    AccessLines(h.l2, a, a.line);
    var r := AccessCache(h.l2, a);
    HierarchyProofs.L2EvictLines(h.(l2 := r.cache), r.victim, a.line);
  }

  lemma {:induction false} AttachedSnoc(h: Hier, h': Hier, g: Geometry, stream: seq<Access>, a: Access)
    requires GoodGeometry(g) && g.sets != 0 && Attached(h, g, stream) && WellFormed(h') && Enabled(h.l2)
    requires var r := AccessCache(h.l2, a);
             && h'.l2 == r.cache
             && h'.st.l2Acc == h.st.l2Acc + Count(a.demand) && h'.st.l2Hit == h.st.l2Hit + Count(a.demand && r.hit)
    ensures Attached(h', g, stream + [a])
  {
    hide AccessCache;
    assert (stream + [a])[..|stream|] == stream;
  }

  /** Frame: what is not an access to L2. */
  lemma {:induction false} AttachedSame(h: Hier, h': Hier, g: Geometry, stream: seq<Access>)
    requires GoodGeometry(g) && g.sets != 0 && Attached(h, g, stream) && WellFormed(h')
    requires h'.l2 == h.l2 && h'.st.l2Acc == h.st.l2Acc && h'.st.l2Hit == h.st.l2Hit
    ensures Attached(h', g, stream)
  {
  }

  lemma {:induction false} BelowAttached(h: Hier, la: nat, g: Geometry, stream: seq<Access>)
    requires GoodGeometry(g) && g.sets != 0 && WellFormed(h) && Attached(h, g, stream) && Enabled(h.l2)
    ensures Attached(Below(h, la).h, g, stream + [Access(la, false, false, true)])
  {
    hide L2Access; hide L3Access; hide AccessCache; hide Attached;
    var a := Access(la, false, false, true);
    L2AccessIs(h, a);
    var (h1, hit, useful) := L2Access(h, a);
    var h2 := h1.(st := CountL2(h1.st, hit, useful));
    AttachedSnoc(h, h2, g, stream, a);
    if !hit {
      if Enabled(h2.l3) { HierarchyProofs.L3Upper(h2, a, InMemory); }
      AttachedSame(h2, Below(h, la).h, g, stream + [a]);
    }
  }

  lemma {:induction false} InsertAttached(h: Hier, la: nat, dirty: bool, asPf: bool, g: Geometry, stream: seq<Access>)
    requires GoodGeometry(g) && g.sets != 0 && WellFormed(h) && Attached(h, g, stream) && Enabled(h.l2)
    ensures Attached(L2Insert(h, la, dirty, asPf), g, stream + [Access(la, dirty, asPf, false)])
  {
    hide L2Access; hide AccessCache; hide Attached;
    var a := Access(la, dirty, asPf, false);
    var h1 := Moved(h, la, if dirty then InL1D else BelowSecond(h), InL2);
    AttachedSame(h, h1, g, stream);
    L2AccessIs(h1, a);
    AttachedSnoc(h1, L2Access(h1, a).0, g, stream, a);
  }

  lemma {:induction false} TouchAttached(h: Hier, la: nat, store: bool, ifetch: bool, g: Geometry, stream: seq<Access>)
    requires GoodGeometry(g) && g.sets != 0 && WellFormed(h) && Attached(h, g, stream) && Enabled(h.l2)
    ensures Attached(AccessLine(h, la, store, ifetch).h, g, stream + L2Trace(h, Touch(la, store, ifetch)))
  {
    hide L1Access; hide Below; hide L2Insert; hide Attached;
    HierarchyProofs.L1Lines(h, la, store, ifetch, la);
    var l1 := L1Access(h, la, store, ifetch);
    var write := store && !ifetch;
    AttachedSame(h, l1.h, g, stream);
    if l1.hit {
      AttachedSame(l1.h, StoredTo(l1.h, la, write), g, stream);
      assert stream + [] == stream;
    } else {
      var a := Access(la, false, false, true);
      BelowAttached(l1.h, la, g, stream);
      var h1 := Below(l1.h, la).h;
      var h2 := StoredTo(FillL1(h1, la, ifetch), la, write);
      AttachedSame(h1, h2, g, stream + [a]);
      if l1.victim.Some? && l1.victim.value.dirty {
        var h3 := h2.(st := h2.st.(l1dWb := h2.st.l1dWb + 1));
        AttachedSame(h2, h3, g, stream + [a]);
        InsertAttached(h3, l1.victim.value.tag, true, false, g, stream + [a]);
        assert stream + [a] + [Access(l1.victim.value.tag, true, false, false)]
            == stream + ([a] + [Access(l1.victim.value.tag, true, false, false)]);
      } else {
        assert [a] + [] == [a];
      }
    }
  }

  lemma {:induction false} PrefetchAttached(h: Hier, la: nat, g: Geometry, stream: seq<Access>)
    requires GoodGeometry(g) && g.sets != 0 && WellFormed(h) && Attached(h, g, stream) && Enabled(h.l2)
    ensures Attached(IssuePrefetch(h, la), g, stream + L2Trace(h, Prefetch(la)))
  {
    hide L2Insert; hide L3Access; hide Probe; hide Attached;
    if (Enabled(h.l1d) && Probe(h.l1d, la)) || Probe(h.l2, la) {
      AttachedSame(h, IssuePrefetch(h, la), g, stream);
      assert stream + [] == stream;
    } else {
      var h1 := h.(st := h.st.(pfIssued := h.st.pfIssued + 1));
      var h2 := h1;
      if Enabled(h1.l3) {
        HierarchyProofs.L3Upper(h1, Access(la, false, false, false), InMemory);
        h2 := L3Access(h1, Access(la, false, false, false), InMemory).0;
      }
      AttachedSame(h, h2, g, stream);
      InsertAttached(h2, la, false, true, g, stream);
    }
  }

  lemma {:induction false} RunAttached(c: Config, ops: seq<Op>)
    requires GoodConfig(c) && c.l2.sets != 0
    ensures Enabled(Run(c, ops).l2) && Attached(Run(c, ops), c.l2, L2Stream(c, ops))
    decreases |ops|
  {
    hide AccessLine; hide IssuePrefetch; hide L2Trace; hide Attached;
    if ops == [] {
      InitAttached(c);
    } else {
      var h := Run(c, ops[..|ops| - 1]);
      var stream := L2Stream(c, ops[..|ops| - 1]);
      RunAttached(c, ops[..|ops| - 1]);
      match ops[|ops| - 1]
      case Touch(la, store, ifetch) => TouchAttached(h, la, store, ifetch, c.l2, stream);
      case Prefetch(la) => PrefetchAttached(h, la, c.l2, stream);
    }
  }

  lemma {:induction false} InitAttached(c: Config)
    requires GoodConfig(c) && c.l2.sets != 0
    ensures Attached(Init(c), c.l2, [])
  {
    hide Lru; hide LruHits; hide Demands; hide EmptyCache; hide Valid;
    NothingCounted(c.l2, []);
  }

  lemma {:induction false} NothingCounted(g: Geometry, stream: seq<Access>)
    requires GoodGeometry(g) && g.sets != 0 && stream == []
    ensures Lru(g, stream) == Empty(g) && LruHits(g, stream) == Demands(stream) == 0
  {
    hide AccessCache; hide EmptyCache; hide Valid;
  }

  /** A sweep attached to L2 that contains the geometry of L2 reports for it exactly the
      demand accesses and demand hits that the simulator counts, after any run of accesses,
      write-backs and prefetches. */
  lemma {:induction false} SweepReportsL2(c: Config, ops: seq<Op>, cs: seq<Geometry>, k: nat)
    requires GoodConfig(c) && GoodSweep(cs) && k < |cs| && cs[k] == c.l2
    ensures var s := Scan(cs, L2Stream(c, ops));
            var h := Run(c, ops);
            s.hits[k] == h.st.l2Hit && s.accs[k] == h.st.l2Acc
  {
    hide Run; hide Scan; hide LruHits; hide Demands; hide Lru;
    ScanCountsEveryCache(cs, L2Stream(c, ops), k);
    RunAttached(c, ops);
  }
}
