/** The single-scan engine as preprocess/cachesim/cachesim.cpp runs it: linear searches,
    early exits, lists edited in place. */
module StackImpl {
  import opened HierarchySpec
  import opened StackSpec

  lemma {:induction false} NewerSplit(l: seq<E>, t: nat, j: nat)
    requires j <= |l| && forall i :: 0 <= i < j ==> l[i].ts > t
    ensures Newer(l, t) == j + Newer(l[j..], t)
    decreases j
  {
    if j > 0 {
      NewerSplit(l[1..], t, j - 1);
      assert l[1..][j - 1..] == l[j..];
    } else {
      assert l[0..] == l;
    }
  }

  class StackSim {
    const cs: seq<Geometry>
    const fineSets: nat
    const maxWays: nat
    var fine: seq<seq<E>>
    var clk: nat
    var hits: seq<nat>
    var accs: seq<nat>

    ghost predicate Valid()
      reads this
    {
      && fineSets == MaxSets(cs) && maxWays == MaxWays(cs)
      && |fine| == fineSets && |hits| == |cs| && |accs| == |cs|
      && forall c :: 0 <= c < |cs| ==> cs[c].sets > 0
    }

    ghost function State(): Stack
      reads this
    {
      Stack(fine, clk, hits, accs)
    }

    constructor (geometries: seq<Geometry>)
      requires forall c :: 0 <= c < |geometries| ==> geometries[c].sets > 0
      ensures Valid() && cs == geometries && State() == InitStack(cs)
    {
      cs := geometries;
      fineSets, maxWays := MaxSets(geometries), MaxWays(geometries);
      fine := seq(MaxSets(geometries), _ => []);
      clk := 0;
      hits, accs := seq(|geometries|, _ => 0), seq(|geometries|, _ => 0);
    }

    /** Place of a line in a fine list; the length if it is not there. */
    method Search(f: nat, la: nat) returns (p: nat)
      requires Valid() && f < fineSets
      ensures p == FindE(fine[f], la)
    {
      p := 0;
      while p < |fine[f]|
        invariant p <= |fine[f]|
        invariant forall j :: 0 <= j < p ==> fine[f][j].la != la
      {
        if fine[f][p].la == la {
          return;
        }
        p := p + 1;
      }
    }

    /** Adds the entries of fine set `g` newer than `t`, stopping once `w` is reached. */
    method AddNewer(g: nat, t: nat, count0: nat, w: nat) returns (count: nat)
      requires Valid() && g < fineSets && count0 < w
      ensures count <= w
      ensures count == if count0 + Newer(fine[g], t) < w then count0 + Newer(fine[g], t) else w
    {
      var l := fine[g];
      count := count0;
      var j := 0;
      while j < |l|
        invariant j <= |l| && count == count0 + j < w
        invariant forall i :: 0 <= i < j ==> l[i].ts > t
      {
        if l[j].ts <= t {
          NewerSplit(l, t, j);
          return;
        }
        count := count + 1;
        if count >= w {
          NewerSplit(l, t, j + 1);
          return;
        }
        j := j + 1;
      }
      NewerSplit(l, t, j);
    }

    /** The distance test of one geometry, with early exit. */
    method TestHit(c: nat, f: nat, p: nat) returns (hit: bool)
      requires Valid() && c < |cs| && f < fineSets && p < |fine[f]|
      ensures hit == HitIn(fine, cs[c], f, p)
    {
      var s, w := cs[c].sets, cs[c].ways;
      var t := fine[f][p].ts;
      var count: nat := p;
      var g := fine[f][p].la % s;
      ghost var total := p + NewerFrom(fine, g, s, f, t);
      while g < fineSets && count < w
        invariant count < w ==> count + NewerFrom(fine, g, s, f, t) == total
        invariant count >= w ==> total >= w
        decreases fineSets - g
      {
        if g != f {
          count := AddNewer(g, t, count, w);
        }
        g := g + s;
      }
      hit := count < w;
    }

    /** A demand access that no geometry can hit. */
    method CountMiss()
      requires Valid()
      modifies this`accs
      ensures Valid() && accs == Bump(old(accs), seq(|cs|, _ => true))
    {
      var c := 0;
      while c < |cs|
        invariant c <= |cs| && Valid()
        invariant forall i :: 0 <= i < |cs| ==> accs[i] == old(accs)[i] + (if i < c then 1 else 0)
      {
        accs := accs[c := accs[c] + 1];
        c := c + 1;
      }
    }

    /** A demand access to entry `p` of fine set `f`, tested against every geometry. */
    method CountHits(f: nat, p: nat)
      requires Valid() && f < fineSets && p < |fine[f]|
      modifies this`hits, this`accs
      ensures Valid() && accs == Bump(old(accs), seq(|cs|, _ => true))
      ensures hits == Bump(old(hits), Marks(fine, cs, f, p))
    {
      hide HitIn;
      var c := 0;
      while c < |cs|
        invariant c <= |cs| && Valid()
        invariant forall i :: 0 <= i < |cs| ==> accs[i] == old(accs)[i] + (if i < c then 1 else 0)
        invariant forall i :: 0 <= i < |cs| ==> hits[i] == old(hits)[i] + Count(i < c && HitIn(fine, cs[i], f, p))
      {
        var hit := TestHit(c, f, p);
        accs := accs[c := accs[c] + 1];
        if hit {
          hits := hits[c := hits[c] + 1];
        }
        c := c + 1;
      }
    }

    /** One access; without `demand` the lists move but nothing is counted. */
    method Access(la: nat, demand: bool)
      requires Valid()
      modifies this
      ensures Valid() && State() == AccessStack(old(State()), cs, la, demand)
    {
      hide HitIn; hide MaxSets; hide MaxWays; hide FindE; hide Cut; hide Bump; hide Marks;
      var f := la % fineSets;
      var p := Search(f, la);
      var l := fine[f];
      if p == |l| {
        if demand {
          CountMiss();
        }
        Insert(f, la);
      } else {
        if demand {
          CountHits(f, p);
        }
        clk := clk + 1;
        fine := fine[f := [E(la, clk)] + l[..p] + l[p + 1..]];
      }
    }

    /** A new line at the front of its list, which is cut to the largest associativity. */
    method Insert(f: nat, la: nat)
      requires Valid() && f < fineSets
      modifies this`fine, this`clk
      ensures Valid() && clk == old(clk) + 1
      ensures fine == old(fine)[f := Cut([E(la, clk)] + old(fine)[f], maxWays)]
    {
      clk := clk + 1;
      var l := [E(la, clk)] + fine[f];
      if |l| > maxWays {
        l := l[..maxWays];
      }
      fine := fine[f := l];
    }
  }
}
