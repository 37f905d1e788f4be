/** The distances the engine counts, and the theorem: one scan reports for every geometry
    the demand hits of an LRU cache of that geometry. */
module StackTheorems {
  import opened Arith
  import opened CacheSpec
  import opened HierarchySpec
  import opened StackProofs
  import opened StackSpec

  // ---- splitting a set's list at a line ----

  lemma {:induction false} InSetConcat(x: seq<E>, y: seq<E>, s: nat, k: nat)
    requires s > 0
    ensures InSet(x + y, s, k) == InSet(x, s, k) + InSet(y, s, k)
  {
    if x == [] {
      assert x + y == y;
    } else {
      assert (x + y)[1..] == x[1..] + y;
      InSetConcat(x[1..], y, s, k);
    }
  }

  /** A line's place in its set's list is the number of that set's lines used since. */
  lemma {:induction false} PlaceInSet(r: seq<E>, q: nat, s: nat, t: nat)
    requires s > 0 && Ordered(r, t) && q < |r|
    ensures var k := r[q].la % s; var l := InSet(r, s, k);
            FindE(l, r[q].la) == |InSet(r[..q], s, k)| < |l|
  {
    hide FindE;
    var k := r[q].la % s;
    assert r == r[..q] + r[q..];
    InSetConcat(r[..q], r[q..], s, k);
    var b := InSet(r[..q], s, k);
    assert InSet(r[q..], s, k)[0] == r[q];
    forall j | 0 <= j < |b| ensures b[j].la != r[q].la {
      assert b[j] in r[..q];
    }
    FindEIs(InSet(r, s, k), r[q].la, |b|);
  }

  /** Another set's entries used since are a prefix of its list. */
  lemma {:induction false} NewerIs(r: seq<E>, q: nat, s: nat, k: nat, n: nat, t: nat)
    requires s > 0 && Ordered(r, t) && q < |r|
    ensures Newer(Cut(InSet(r, s, k), n), r[q].ts)
            == if |InSet(r[..q], s, k)| <= n then |InSet(r[..q], s, k)| else n
  {
    hide InSet;
    assert r == r[..q] + r[q..];
    InSetConcat(r[..q], r[q..], s, k);
    var b, d := InSet(r[..q], s, k), InSet(r[q..], s, k);
    forall j | 0 <= j < |b| ensures b[j].ts > r[q].ts { assert b[j] in r[..q]; }
    forall j | 0 <= j < |d| ensures d[j].ts <= r[q].ts { assert d[j] in r[q..]; }
    var l := Cut(b + d, n);
    NewerPrefix(l, r[q].ts, if |b| <= n then |b| else n);
  }

  lemma {:induction false} NewerPrefix(l: seq<E>, t: nat, m: nat)
    requires m <= |l|
    requires forall j :: 0 <= j < m ==> l[j].ts > t
    requires m < |l| ==> l[m].ts <= t
    ensures Newer(l, t) == m
    decreases m
  {
    if m > 0 { NewerPrefix(l[1..], t, m - 1); }
  }

  // ---- a coarse set is the disjoint union of its fine sets ----

  /** Entries of `b` in the fine sets g, g + s, g + 2s, ... below `n`. */
  function GroupCount(b: seq<E>, n: nat, g: nat, s: nat): nat
    requires s > 0 && n > 0
    decreases n - g
  {
    if g >= n then 0 else |InSet(b, n, g)| + GroupCount(b, n, g + s, s)
  }

  lemma {:induction false} GroupCountCons(x: E, b: seq<E>, n: nat, g: nat, s: nat)
    requires s > 0 && n > 0
    ensures var f := x.la % n;
            GroupCount([x] + b, n, g, s) == GroupCount(b, n, g, s) + (if g <= f && f % s == g % s then 1 else 0)
    decreases n - g
  {
    assert ([x] + b)[1..] == b;
    if g < n {
      GroupCountCons(x, b, n, g + s, s);
      NextInGroup(x.la % n, g, s);
    }
  }

  /** The members of a residue class from `g` on are `g` itself and those from g + s on. */
  lemma {:induction false} NextInGroup(f: nat, g: nat, s: nat)
    requires s > 0
    ensures (g <= f && f % s == g % s) <==> (f == g || (g + s <= f && f % s == (g + s) % s))
  {
    ShiftDiv(g, s);
    if g < f < g + s && f % s == g % s {
      var q := g / s;
      assert g == q * s + g % s;
      assert f == f / s * s + f % s;
      if f / s <= q { MulMono(f / s, q, s); } else { MulMono(q + 1, f / s, s); }
    }
  }

  lemma {:induction false} GroupCountNil(n: nat, g: nat, s: nat)
    requires s > 0 && n > 0
    ensures GroupCount([], n, g, s) == 0
    decreases n - g
  {
    if g < n { GroupCountNil(n, g + s, s); }
  }

  lemma {:induction false} GroupIsSet(b: seq<E>, n: nat, k: nat, s: nat)
    requires s > 0 && n > 0 && n % s == 0 && k < s
    ensures GroupCount(b, n, k, s) == |InSet(b, s, k)|
  {
    if b == [] {
      GroupCountNil(n, k, s);
    } else {
      GroupIsSet(b[1..], n, k, s);
      assert b == [b[0]] + b[1..];
      GroupCountCons(b[0], b[1..], n, k, s);
      ModOfMod(b[0].la, s, n);
      ModBelow(b[0].la % n, k, s);
    }
  }

  lemma {:induction false} ModBelow(f: nat, k: nat, s: nat)
    requires s > 0 && k < s
    ensures k % s == k
    ensures f % s == k ==> k <= f
  {
    QuotientIs(k, s, 0, k);
  }

  // ---- truncated lists decide every hit ----

  /** The engine's sum, with the own set's place added, never exceeds the true count and
      falls short of it only when it has already reached the truncation length. */
  lemma {:induction false} TruncatedSum(fine: seq<seq<E>>, r: seq<E>, q: nat, g: nat, s: nat, w: nat, t: nat)
    requires s > 0 && |fine| > 0 && Ordered(r, t) && q < |r|
    requires forall f :: 0 <= f < |fine| ==> fine[f] == Cut(InSet(r, |fine|, f), w)
    ensures var f := r[q].la % |fine|;
            var own := if g <= f && f % s == g % s then |InSet(r[..q], |fine|, f)| else 0;
            var d := own + NewerFrom(fine, g, s, f, r[q].ts);
            var full := GroupCount(r[..q], |fine|, g, s);
            d <= full && (d < full ==> d >= w)
    decreases |fine| - g
  {
    hide InSet; hide Cut; hide Newer; hide Ordered;
    var f := r[q].la % |fine|;
    if g < |fine| {
      TruncatedSum(fine, r, q, g + s, s, w, t);
      NextInGroup(f, g, s);
      NewerIs(r, q, |fine|, g, w, t);
    }
  }

  /** For a line the engine still lists, its test is the true one. */
  lemma {:induction false} HitInExact(lines: seq<nat>, cs: seq<Geometry>, st: Stack, c: nat, la: nat)
    requires GoodSweep(cs) && StackInv(lines, cs, st) && c < |cs|
    requires var f := la % MaxSets(cs); FindE(st.fine[f], la) < |st.fine[f]|
    ensures var f := la % MaxSets(cs); var p := FindE(st.fine[f], la);
            var l := Cut(InSet(Recency(lines), cs[c].sets, la % cs[c].sets), cs[c].ways);
            HitIn(st.fine, cs[c], f, p) == (FindE(l, la) < |l|)
  {
    hide InSet; hide Newer; hide Ordered; hide FindE; hide Recency; hide NewerFrom; hide GroupCount;
    var n, f, s := MaxSets(cs), la % MaxSets(cs), cs[c].sets;
    var r := Recency(lines);
    RecencyOrdered(lines);
    SweepDivides(cs, c);
    var q := ListedIsRecent(r, n, la, st.fine[f], MaxWays(cs), |lines|);
    assert r[q].ts == st.fine[f][FindE(st.fine[f], la)].ts;
    PlaceInSet(r, q, s, |lines|);
    FindCut(InSet(r, s, la % s), la, cs[c].ways);
    ModOfMod(la, s, n);
    ModBelow(f, la % s, s);
    GroupIsSet(r[..q], n, la % s, s);
    TruncatedSum(st.fine, r, q, la % s, s, MaxWays(cs), |lines|);
  }

  /** A listed line is in the recency list, and its place in the fine list is exact. */
  lemma {:induction false} ListedIsRecent(r: seq<E>, n: nat, la: nat, l: seq<E>, w: nat, t: nat) returns (q: nat)
    requires n > 0 && Ordered(r, t) && l == Cut(InSet(r, n, la % n), w) && FindE(l, la) < |l|
    ensures q < |r| && r[q].la == la && r[q] == l[FindE(l, la)]
    ensures FindE(l, la) == |InSet(r[..q], n, la % n)|
  {
    hide InSet; hide FindE;
    var p := FindE(l, la);
    var full := InSet(r, n, la % n);
    assert l[p] == full[p] && full[p] in r;
    q :| 0 <= q < |r| && r[q] == full[p];
    PlaceInSet(r, q, n, t);
    FindCut(full, la, w);
  }

  lemma {:induction false} SweepDivides(cs: seq<Geometry>, c: nat)
    requires GoodSweep(cs) && c < |cs|
    ensures cs[c].sets > 0 && MaxSets(cs) % cs[c].sets == 0 && cs[c].ways <= MaxWays(cs)
  {
    assert MaxSets(cs) == cs[c].sets || IsPow2(MaxSets(cs)) by {
      if MaxSets(cs) == 1 { assert 1 == Pow2(0); }
    }
    assert IsPow2(cs[c].sets);
    Pow2Divides(cs[c].sets, MaxSets(cs));
  }

  /** A line the engine has dropped or never seen misses in every geometry. */
  lemma {:induction false} UnlistedMisses(lines: seq<nat>, cs: seq<Geometry>, st: Stack, c: nat, la: nat)
    requires GoodSweep(cs) && StackInv(lines, cs, st) && c < |cs|
    requires var f := la % MaxSets(cs); FindE(st.fine[f], la) == |st.fine[f]|
    ensures var l := Cut(InSet(Recency(lines), cs[c].sets, la % cs[c].sets), cs[c].ways);
            FindE(l, la) == |l|
  {
    hide InSet; hide Ordered; hide FindE; hide Recency;
    var n, f, s := MaxSets(cs), la % MaxSets(cs), cs[c].sets;
    var r := Recency(lines);
    RecencyOrdered(lines);
    SweepDivides(cs, c);
    var l := InSet(r, s, la % s);
    var p := FindE(l, la);
    FindCut(l, la, cs[c].ways);
    if p < |l| {
      assert l[p] in r;
      var q :| 0 <= q < |r| && r[q] == l[p];
      PlaceInSet(r, q, s, |lines|);
      PlaceInSet(r, q, n, |lines|);
      FindCut(InSet(r, n, f), la, MaxWays(cs));
      FineIsSmaller(r[..q], n, s, la);
    }
  }

  /** A fine set holds no more of a prefix than the coarse set around it. */
  lemma {:induction false} FineIsSmaller(b: seq<E>, n: nat, s: nat, la: nat)
    requires s > 0 && n > 0 && n % s == 0
    ensures |InSet(b, n, la % n)| <= |InSet(b, s, la % s)|
  {
    if b != [] {
      FineIsSmaller(b[1..], n, s, la);
      ModOfMod(b[0].la, s, n);
      ModOfMod(la, s, n);
    }
  }

  // ---- whole streams ----

  function Lines(stream: seq<Access>): (r: seq<nat>)
    ensures |r| == |stream|
  {
    if stream == [] then [] else Lines(stream[..|stream| - 1]) + [stream[|stream| - 1].line]
  }

  /** The engine fed a stream. */
  function Scan(cs: seq<Geometry>, stream: seq<Access>): (s: Stack)
    ensures |s.fine| == MaxSets(cs) && |s.hits| == |cs| && |s.accs| == |cs|
  {
    if stream == [] then InitStack(cs)
    else
      var a := stream[|stream| - 1];
      AccessStack(Scan(cs, stream[..|stream| - 1]), cs, a.line, a.demand)
  }

  /** One LRU cache fed the same stream, and its demand hits. */
  function Lru(g: Geometry, stream: seq<Access>): (c: Cache)
    requires g.sets > 0 && g.ways >= 1
    ensures Valid(c) && Enabled(c) && c.sets == g.sets && c.ways == g.ways
  {
    if stream == [] then
      EmptyValid(g.sets, g.ways, 0);
      EmptyCache(g.sets, g.ways)
    else
      var c := Lru(g, stream[..|stream| - 1]);
      var a := stream[|stream| - 1];
      AccessLines(c, a, a.line);
      AccessCache(c, a).cache
  }

  function LruHits(g: Geometry, stream: seq<Access>): nat
    requires g.sets > 0 && g.ways >= 1
  {
    if stream == [] then 0
    else
      var a := stream[|stream| - 1];
      LruHits(g, stream[..|stream| - 1])
      + Count(a.demand && AccessCache(Lru(g, stream[..|stream| - 1]), a).hit)
  }

  function Demands(stream: seq<Access>): nat {
    if stream == [] then 0 else Demands(stream[..|stream| - 1]) + Count(stream[|stream| - 1].demand)
  }

  lemma {:induction false} LruHolds(g: Geometry, stream: seq<Access>)
    requires g.sets > 0 && g.ways >= 1
    ensures LruInv(Lines(stream), Lru(g, stream))
    decreases |stream|
  {
    hide AccessCache; hide Recency; hide InSet; hide Valid;
    if stream == [] {
      EmptyLru(g);
    } else {
      var p := stream[..|stream| - 1];
      LruHolds(g, p);
      LruStep(Lines(p), Lru(g, p), stream[|stream| - 1]);
    }
  }

  lemma {:induction false} EmptyLru(g: Geometry)
    requires g.sets > 0 && g.ways >= 1
    ensures LruInv([], EmptyCache(g.sets, g.ways))
  {
    EmptyValid(g.sets, g.ways, 0);
  }

  lemma {:induction false} ScanHolds(cs: seq<Geometry>, stream: seq<Access>)
    ensures StackInv(Lines(stream), cs, Scan(cs, stream))
    decreases |stream|
  {
    hide AccessStack; hide Recency; hide InSet;
    if stream == [] {
      EmptyStack(cs);
    } else {
      var p := stream[..|stream| - 1];
      ScanHolds(cs, p);
      StackStep(Lines(p), cs, Scan(cs, p), stream[|stream| - 1].line, stream[|stream| - 1].demand);
    }
  }

  lemma {:induction false} EmptyStack(cs: seq<Geometry>)
    ensures StackInv([], cs, InitStack(cs))
  {
  }

  /** One access is counted as a hit for geometry `c` exactly when its cache hits. */
  lemma {:induction false} StepCounts(lines: seq<nat>, cs: seq<Geometry>, st: Stack, c: nat, g: Cache, a: Access)
    requires GoodSweep(cs) && StackInv(lines, cs, st) && c < |cs|
    requires LruInv(lines, g) && g.sets == cs[c].sets && g.ways == cs[c].ways
    ensures AccessStack(st, cs, a.line, a.demand).hits[c] == st.hits[c] + Count(a.demand && AccessCache(g, a).hit)
    ensures AccessStack(st, cs, a.line, a.demand).accs[c] == st.accs[c] + Count(a.demand)
  {
    hide AccessCache; hide Recency; hide InSet; hide HitIn; hide FindE; hide Cut; hide Valid; hide MaxSets;
    LruStep(lines, g, a);
    var f := a.line % MaxSets(cs);
    if FindE(st.fine[f], a.line) < |st.fine[f]| {
      HitInExact(lines, cs, st, c, a.line);
    } else {
      UnlistedMisses(lines, cs, st, c, a.line);
    }
  }

  /** Main theorem.  For any stream of accesses and any sweep of power-of-two geometries,
      the counters of the single scan are, geometry by geometry, the demand hits and
      demand accesses of an independent LRU cache. */
  lemma {:induction false} ScanCountsEveryCache(cs: seq<Geometry>, stream: seq<Access>, c: nat)
    requires GoodSweep(cs) && c < |cs|
    ensures cs[c].sets > 0
    ensures Scan(cs, stream).hits[c] == LruHits(cs[c], stream)
    ensures Scan(cs, stream).accs[c] == Demands(stream)
    decreases |stream|
  {
    hide AccessCache; hide AccessStack; hide StackInv; hide LruInv; hide MaxSets;
    SweepDivides(cs, c);
    if stream != [] {
      var p := stream[..|stream| - 1];
      ScanCountsEveryCache(cs, p, c);
      ScanHolds(cs, p);
      LruHolds(cs[c], p);
      StepCounts(Lines(p), cs, Scan(cs, p), c, Lru(cs[c], p), stream[|stream| - 1]);
    }
  }
}
