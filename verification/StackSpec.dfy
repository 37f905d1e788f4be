/** The single-scan engine (preprocess/cachesim/cachesim.cpp, `StackSim`): one list of
    recently used lines per fine set, from which the hits of every geometry are counted. */
module StackSpec {
  import opened Arith
  import opened HierarchySpec

  /** A line and the time of its last access. */
  datatype E = E(la: nat, ts: nat)

  datatype Stack = Stack(fine: seq<seq<E>>, clk: nat, hits: seq<nat>, accs: seq<nat>)

  function MaxSets(cs: seq<Geometry>): (m: nat)
    ensures m >= 1
    ensures forall c :: 0 <= c < |cs| ==> cs[c].sets <= m
    ensures m == 1 || exists c :: 0 <= c < |cs| && cs[c].sets == m
  {
    if cs == [] then 1
    else
      var r := MaxSets(cs[..|cs| - 1]);
      var last := cs[|cs| - 1].sets;
      if last > r then last else r
  }

  function MaxWays(cs: seq<Geometry>): (m: nat)
    ensures m >= 1
    ensures forall c :: 0 <= c < |cs| ==> cs[c].ways <= m
  {
    if cs == [] then 1
    else
      var r := MaxWays(cs[..|cs| - 1]);
      var last := cs[|cs| - 1].ways;
      if last > r then last else r
  }

  /** Power-of-two set counts, as the configuration loader demands. */
  ghost predicate GoodSweep(cs: seq<Geometry>) {
    forall c :: 0 <= c < |cs| ==> IsPow2(cs[c].sets) && cs[c].ways >= 1
  }

  function FindE(l: seq<E>, la: nat): (p: nat)
    ensures p <= |l|
    ensures p < |l| ==> l[p].la == la
    ensures forall j :: 0 <= j < p ==> l[j].la != la
  {
    if l == [] || l[0].la == la then 0 else 1 + FindE(l[1..], la)
  }

  /** Entries of a most-recent-first list used after time `t`. */
  function Newer(l: seq<E>, t: nat): (n: nat)
    ensures n <= |l|
  {
    if l == [] || l[0].ts <= t then 0 else 1 + Newer(l[1..], t)
  }

  /** Entries newer than `t` in the fine sets g, g + s, g + 2s, ... other than `f`. */
  function NewerFrom(fine: seq<seq<E>>, g: nat, s: nat, f: nat, t: nat): nat
    requires s > 0
    decreases |fine| - g
  {
    if g >= |fine| then 0
    else (if g == f then 0 else Newer(fine[g], t)) + NewerFrom(fine, g + s, s, f, t)
  }

  /** Whether geometry `c` hits on entry `p` of fine set `f`: fewer lines than its ways
      were used more recently within its set. */
  function HitIn(fine: seq<seq<E>>, c: Geometry, f: nat, p: nat): bool
    requires f < |fine| && p < |fine[f]|
  {
    c.sets > 0 && p + NewerFrom(fine, fine[f][p].la % c.sets, c.sets, f, fine[f][p].ts) < c.ways
  }

  function Cut(l: seq<E>, n: nat): (r: seq<E>)
    ensures |r| == if |l| <= n then |l| else n
  {
    if |l| <= n then l else l[..n]
  }

  function Count(b: bool): nat { if b then 1 else 0 }

  /** One more for every counter that is marked. */
  function Bump(xs: seq<nat>, marks: seq<bool>): (r: seq<nat>)
    requires |xs| == |marks|
    ensures |r| == |xs| && forall c :: 0 <= c < |xs| ==> r[c] == xs[c] + Count(marks[c])
  {
    if xs == [] then [] else Bump(xs[..|xs| - 1], marks[..|xs| - 1]) + [xs[|xs| - 1] + Count(marks[|xs| - 1])]
  }

  /** The geometries that hit on entry `p` of fine set `f`. */
  function Marks(fine: seq<seq<E>>, cs: seq<Geometry>, f: nat, p: nat): (m: seq<bool>)
    requires f < |fine| && p < |fine[f]|
    ensures |m| == |cs| && forall c :: 0 <= c < |cs| ==> m[c] == HitIn(fine, cs[c], f, p)
  {
    seq(|cs|, c requires 0 <= c < |cs| => HitIn(fine, cs[c], f, p))
  }

  function AccessStack(s: Stack, cs: seq<Geometry>, la: nat, demand: bool): Stack
    requires |s.fine| == MaxSets(cs) && |s.hits| == |cs| && |s.accs| == |cs|
  {
    var f := la % MaxSets(cs);
    var l := s.fine[f];
    var p := FindE(l, la);
    var e := E(la, s.clk + 1);
    var accs := if demand then Bump(s.accs, seq(|cs|, _ => true)) else s.accs;
    if p == |l| then
      Stack(s.fine[f := Cut([e] + l, MaxWays(cs))], s.clk + 1, s.hits, accs)
    else
      Stack(s.fine[f := [e] + l[..p] + l[p + 1..]], s.clk + 1,
            if demand then Bump(s.hits, Marks(s.fine, cs, f, p)) else s.hits,
            accs)
  }

  function InitStack(cs: seq<Geometry>): Stack {
    Stack(seq(MaxSets(cs), _ => []), 0, seq(|cs|, _ => 0), seq(|cs|, _ => 0))
  }
}
