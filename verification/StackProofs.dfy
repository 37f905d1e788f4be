/** The single-scan engine counts, for every geometry at once, exactly the hits of an
    independent LRU cache of that geometry. */
module StackProofs {
  import opened CacheSpec
  import opened HierarchySpec
  import opened StackSpec

  // ---- the full recency list ----

  function Remove(l: seq<E>, la: nat): (r: seq<E>)
    ensures |r| <= |l|
    ensures forall x :: x in r ==> x in l && x.la != la
  {
    if l == [] then []
    else if l[0].la == la then Remove(l[1..], la)
    else [l[0]] + Remove(l[1..], la)
  }

  function Touched(l: seq<E>, e: E): seq<E> { [e] + Remove(l, e.la) }

  /** Every line ever accessed, most recent first, with the time of its last access. */
  function Recency(lines: seq<nat>): seq<E> {
    if lines == [] then []
    else Touched(Recency(lines[..|lines| - 1]), E(lines[|lines| - 1], |lines|))
  }

  /** The entries of set `k` of a cache with `s` sets. */
  function InSet(l: seq<E>, s: nat, k: nat): (r: seq<E>)
    requires s > 0
    ensures forall x :: x in r ==> x in l && x.la % s == k
    ensures |r| <= |l|
  {
    if l == [] then []
    else if l[0].la % s == k then [l[0]] + InSet(l[1..], s, k)
    else InSet(l[1..], s, k)
  }

  /** Distinct lines, times strictly falling from `t` down. */
  predicate Ordered(l: seq<E>, t: nat) {
    && (forall i :: 0 <= i < |l| ==> l[i].ts <= t)
    && (forall i, j :: 0 <= i < j < |l| ==> l[i].ts > l[j].ts && l[i].la != l[j].la)
  }

  /** Some of the later entries, still in order, after the first. */
  lemma {:induction false} OrderedCons(l: seq<E>, r: seq<E>, t: nat)
    requires l != [] && Ordered(l, t) && Ordered(r, t) && forall x :: x in r ==> x in l[1..]
    ensures Ordered([l[0]] + r, t)
  {
    forall i | 0 <= i < |r|
      ensures l[0].ts > r[i].ts && l[0].la != r[i].la
    {
      assert r[i] in l[1..];
      var k :| 0 <= k < |l[1..]| && l[1..][k] == r[i];
      assert l[k + 1] == r[i];
    }
  }

  lemma {:induction false} RemoveOrdered(l: seq<E>, la: nat, t: nat)
    requires Ordered(l, t)
    ensures Ordered(Remove(l, la), t)
  {
    if l != [] {
      RemoveOrdered(l[1..], la, t);
      OrderedCons(l, Remove(l[1..], la), t);
    }
  }

  lemma {:induction false} InSetOrdered(l: seq<E>, s: nat, k: nat, t: nat)
    requires s > 0 && Ordered(l, t)
    ensures Ordered(InSet(l, s, k), t)
  {
    if l != [] {
      InSetOrdered(l[1..], s, k, t);
      OrderedCons(l, InSet(l[1..], s, k), t);
    }
  }

  lemma {:induction false} RecencyOrdered(lines: seq<nat>)
    ensures Ordered(Recency(lines), |lines|)
    decreases |lines|
  {
    if lines != [] {
      var p := lines[..|lines| - 1];
      RecencyOrdered(p);
      RemoveOrdered(Recency(p), lines[|lines| - 1], |p|);
    }
  }

  lemma {:induction false} RemoveAbsent(l: seq<E>, la: nat)
    requires forall x :: x in l ==> x.la != la
    ensures Remove(l, la) == l
  {
    if l != [] { RemoveAbsent(l[1..], la); }
  }

  lemma {:induction false} OrderedRest(l: seq<E>, t: nat)
    requires Ordered(l, t) && l != []
    ensures Ordered(l[1..], t) && forall x :: x in l[1..] ==> x.la != l[0].la
  {
  }

  /** Removing the line at place `p` of a distinct list. */
  lemma {:induction false} RemoveAt(l: seq<E>, p: nat, t: nat)
    requires Ordered(l, t) && p < |l|
    ensures Remove(l, l[p].la) == l[..p] + l[p + 1..]
  {
    hide Ordered; hide Remove;
    var rest := l[1..];
    OrderedRest(l, t);
    if p == 0 {
      RemoveHead(l);
      RemoveAbsent(rest, l[0].la);
    } else {
      assert rest[p - 1] == l[p] && rest[p - 1] in rest;
      RemoveAt(rest, p - 1, t);
      RemoveOther(l, l[p].la);
      SpliceRest(l, p);
    }
  }

  lemma {:induction false} RemoveHead(l: seq<E>)
    requires l != []
    ensures Remove(l, l[0].la) == Remove(l[1..], l[0].la)
  {
  }

  lemma {:induction false} RemoveOther(l: seq<E>, la: nat)
    requires l != [] && l[0].la != la
    ensures Remove(l, la) == [l[0]] + Remove(l[1..], la)
  {
  }

  /** Cutting out a place behind the first is cutting it out of the rest. */
  lemma {:induction false} SpliceRest<T>(l: seq<T>, p: nat)
    requires 0 < p < |l|
    ensures l[..p] + l[p + 1..] == [l[0]] + (l[1..][..p - 1] + l[1..][p..])
  {
  }

  /** Touching a line changes its own set only, and there it is a touch. */
  lemma {:induction false} InSetRemove(l: seq<E>, la: nat, s: nat, k: nat)
    requires s > 0
    ensures InSet(Remove(l, la), s, k) == Remove(InSet(l, s, k), la)
  {
    if l != [] { InSetRemove(l[1..], la, s, k); }
  }

  lemma {:induction false} InSetTouched(l: seq<E>, e: E, s: nat, k: nat)
    requires s > 0
    ensures InSet(Touched(l, e), s, k) == if e.la % s == k then Touched(InSet(l, s, k), e) else InSet(l, s, k)
  {
    InSetRemove(l, e.la, s, k);
    if e.la % s != k { RemoveAbsent(InSet(l, s, k), e.la); }
  }

  /** Keeping only `n` entries commutes with touching. */
  lemma {:induction false} CutTouched(l: seq<E>, e: E, n: nat, t: nat)
    requires n >= 1 && Ordered(l, t)
    ensures var c := Cut(l, n); var p := FindE(c, e.la);
            Cut(Touched(l, e), n) == if p < |c| then [e] + c[..p] + c[p + 1..] else Cut([e] + c, n)
  {
    hide Ordered; hide FindE; hide Remove; hide Cut;
    var c := Cut(l, n);
    var q := FindE(l, e.la);
    FindCut(l, e.la, n);
    if q < |l| {
      RemoveAt(l, q, t);
      if q < n {
        CutHit(l, e, n, q);
      } else {
        CutBeyond(l, e, n, q);
      }
    } else {
      RemoveAbsent(l, e.la);
      CutAbsent(l, e, n);
    }
  }

  lemma {:induction false} CutBeyond(l: seq<E>, e: E, n: nat, q: nat)
    requires 1 <= n <= q < |l|
    ensures Cut([e] + (l[..q] + l[q + 1..]), n) == Cut([e] + Cut(l, n), n)
  {
    assert ([e] + (l[..q] + l[q + 1..]))[..n] == ([e] + l[..n])[..n];
  }

  lemma {:induction false} CutAbsent(l: seq<E>, e: E, n: nat)
    requires n >= 1
    ensures Cut([e] + l, n) == Cut([e] + Cut(l, n), n)
  {
    if |l| > n { assert ([e] + l)[..n] == ([e] + l[..n])[..n]; }
  }

  lemma {:induction false} FindCut(l: seq<E>, la: nat, n: nat)
    ensures var q := FindE(l, la);
            FindE(Cut(l, n), la) == if q < |Cut(l, n)| then q else |Cut(l, n)|
  {
    hide FindE;
    var q := FindE(l, la);
    FindEIs(Cut(l, n), la, if q < |Cut(l, n)| then q else |Cut(l, n)|);
  }

  lemma {:induction false} FindEIs(l: seq<E>, la: nat, k: nat)
    requires k <= |l| && (k < |l| ==> l[k].la == la) && forall j :: 0 <= j < k ==> l[j].la != la
    ensures FindE(l, la) == k
  {
  }

  lemma {:induction false} CutHit(l: seq<E>, e: E, n: nat, q: nat)
    requires q < |l| && q < n
    ensures var c := Cut(l, n); q < |c| && Cut([e] + (l[..q] + l[q + 1..]), n) == [e] + c[..q] + c[q + 1..]
  {
    var c := Cut(l, n);
    if |l| > n {
      var x, y := ([e] + (l[..q] + l[q + 1..]))[..n], [e] + c[..q] + c[q + 1..];
      assert |x| == |y|;
      assert forall i :: 0 <= i < n ==> x[i] == y[i];
    }
  }

  // ---- an LRU cache holds the front of each set's recency list ----

  predicate SameLines(ls: seq<Line>, es: seq<E>) {
    |ls| == |es| && forall i :: 0 <= i < |ls| ==> ls[i].tag == es[i].la
  }

  ghost predicate LruInv(lines: seq<nat>, c: Cache) {
    && Valid(c) && Enabled(c)
    && forall k :: 0 <= k < c.sets ==> SameLines(c.data[k], Cut(InSet(Recency(lines), c.sets, k), c.ways))
  }

  lemma {:induction false} SameFind(ls: seq<Line>, es: seq<E>, la: nat)
    requires SameLines(ls, es)
    ensures Find(ls, la) == FindE(es, la)
  {
    hide Find;
    FindEIs(es, la, Find(ls, la));
  }

  /** The two edits of a list of lines: to the front, or in at the front. */
  lemma {:induction false} MovedSame(ls: seq<Line>, c: seq<E>, p: nat, l: Line, e: E)
    requires SameLines(ls, c) && p < |c| && l.tag == e.la
    ensures SameLines([l] + WithoutAt(ls, p), [e] + c[..p] + c[p + 1..])
  {
  }

  lemma {:induction false} FilledSame(ls: seq<Line>, c: seq<E>, n: nat, l: Line, e: E)
    requires SameLines(ls, c) && n <= |c| && l.tag == e.la
    ensures SameLines([l] + ls[..n], [e] + c[..n])
  {
  }

  /** One set: the access edits the lines as touching edits the list. */
  lemma {:induction false} LruSetStep(ls: seq<Line>, l: seq<E>, ways: nat, a: Access, e: E, t: nat)
    requires 1 <= ways && Ordered(l, t) && e.la == a.line
    requires SameLines(ls, Cut(l, ways))
    ensures SameLines(AccessSet(ls, ways, a).set_, Cut(Touched(l, e), ways))
    ensures AccessSet(ls, ways, a).hit == (FindE(Cut(l, ways), a.line) < |Cut(l, ways)|)
  {
    hide Ordered; hide Find; hide FindE; hide Touched; hide Cut; hide SameLines; hide WithoutAt;
    var c := Cut(l, ways);
    SameLength(ls, c);
    CutTouched(l, e, ways, t);
    SameFind(ls, c, a.line);
    var p := FindE(c, e.la);
    var r := AccessSet(ls, ways, a).set_;
    if p < |c| {
      MovedSame(ls, c, p, r[0], e);
    } else {
      CutCons(e, c, ways);
      var n := if |c| == ways then ways - 1 else |c|;
      FilledSame(ls, c, n, Line(a.line, a.write, a.prefetch), e);
      assert ls[..|ls|] == ls && c[..|c|] == c;
    }
  }

  lemma {:induction false} SameLength(ls: seq<Line>, es: seq<E>)
    requires SameLines(ls, es)
    ensures |ls| == |es|
  {
  }

  lemma {:induction false} CutCons(e: E, c: seq<E>, n: nat)
    requires 1 <= n && |c| <= n
    ensures Cut([e] + c, n) == if |c| == n then [e] + c[..n - 1] else [e] + c
  {
  }

  lemma {:induction false} LruStep(lines: seq<nat>, c: Cache, a: Access)
    requires LruInv(lines, c)
    ensures LruInv(lines + [a.line], AccessCache(c, a).cache)
    ensures var k := a.line % c.sets; var l := Cut(InSet(Recency(lines), c.sets, k), c.ways);
            AccessCache(c, a).hit == (FindE(l, a.line) < |l|)
  {
    hide AccessSet; hide Cut; hide InSet; hide Touched; hide Ordered; hide FindE; hide SameLines; hide ValidSet;
    var k := SetOf(c, a.line);
    var e := E(a.line, |lines| + 1);
    var r := Recency(lines);
    RecencySnoc(lines, a.line);
    RecencyOrdered(lines);
    InSetOrdered(r, c.sets, k, |lines|);
    AccessLines(c, a, a.line);
    assert ValidSet(c, k);
    LruSetStep(c.data[k], InSet(r, c.sets, k), c.ways, a, e, |lines|);
    var c' := AccessCache(c, a).cache;
    forall j | 0 <= j < c.sets
      ensures SameLines(c'.data[j], Cut(InSet(Recency(lines + [a.line]), c.sets, j), c.ways))
    {
      InSetTouched(r, e, c.sets, j);
    }
  }

  lemma {:induction false} RecencySnoc(lines: seq<nat>, la: nat)
    ensures Recency(lines + [la]) == Touched(Recency(lines), E(la, |lines| + 1))
  {
    assert (lines + [la])[..|lines|] == lines;
  }

  // ---- the engine's lists are the fronts of the fine sets' recency lists ----

  ghost predicate StackInv(lines: seq<nat>, cs: seq<Geometry>, s: Stack) {
    && |s.fine| == MaxSets(cs) && |s.hits| == |cs| && |s.accs| == |cs|
    && s.clk == |lines|
    && forall f :: 0 <= f < |s.fine| ==> s.fine[f] == Cut(InSet(Recency(lines), MaxSets(cs), f), MaxWays(cs))
  }

  lemma {:induction false} StackStep(lines: seq<nat>, cs: seq<Geometry>, s: Stack, la: nat, demand: bool)
    requires StackInv(lines, cs, s)
    ensures StackInv(lines + [la], cs, AccessStack(s, cs, la, demand))
  {
    hide Cut; hide InSet; hide Touched; hide Ordered; hide FindE; hide HitIn; hide Bump; hide MaxSets; hide MaxWays;
    var n, f := MaxSets(cs), la % MaxSets(cs);
    var e := E(la, |lines| + 1);
    var r := Recency(lines);
    RecencySnoc(lines, la);
    RecencyOrdered(lines);
    InSetOrdered(r, n, f, |lines|);
    CutTouched(InSet(r, n, f), e, MaxWays(cs), |lines|);
    var s' := AccessStack(s, cs, la, demand);
    forall g | 0 <= g < n ensures s'.fine[g] == Cut(InSet(Recency(lines + [la]), n, g), MaxWays(cs)) {
      InSetTouched(r, e, n, g);
    }
  }
}
