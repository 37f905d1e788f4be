/** The worklist of prototype/gen.py: put the combinational cells in an order in which every
    cell comes after the drivers of its inputs, or find that some cells wait for each other. */
module Schedule {
  import opened Netlist

  /** `b` is known once the cells of `order` have been evaluated. */
  ghost predicate Available(d: Design, order: seq<nat>, b: nat)
    requires Valid(d, order)
  {
    b in Sources(d) || exists k :: 0 <= k < |order| && b in d.cells[order[k]].y
  }

  predicate Valid(d: Design, order: seq<nat>) { forall k :: 0 <= k < |order| ==> order[k] < |d.cells| }

  ghost predicate Distinct(s: seq<nat>) { forall i, j :: 0 <= i < j < |s| ==> s[i] != s[j] }

  predicate AllIn(bits: seq<Bit>, nets: set<nat>) {
    forall b :: b in bits && b.Net? ==> b.id in nets
  }

  ghost predicate InputsAvailable(d: Design, order: seq<nat>, c: nat)
    requires Valid(d, order) && c < |d.cells|
  {
    forall b :: b in Reads(d.cells[c]) && b.Net? ==> Available(d, order, b.id)
  }

  /** Every cell of `order` comes after the drivers of what it reads, and no cell twice. */
  ghost predicate IsSchedule(d: Design, order: seq<nat>) {
    && Valid(d, order)
    && Distinct(order)
    && forall k :: 0 <= k < |order| ==> InputsAvailable(d, order[..k], order[k])
  }

  /** `order` and `pend` together hold each cell once. */
  ghost predicate Splits(d: Design, order: seq<nat>, pend: seq<nat>) {
    && Valid(d, order) && Valid(d, pend)
    && Distinct(order) && Distinct(pend)
    && forall c :: 0 <= c < |d.cells| ==> (c in order) != (c in pend)
  }

  // ---- combinational cycles ----

  /** Cell `j` reads a net that cell `i` drives. */
  ghost predicate Feeds(d: Design, i: nat, j: nat) {
    && i < |d.cells| && j < |d.cells|
    && exists b :: Net(b) in Reads(d.cells[j]) && b in d.cells[i].y
  }

  ghost predicate Path(d: Design, p: seq<nat>) {
    forall k :: 0 <= k < |p| - 1 ==> Feeds(d, p[k], p[k + 1])
  }

  ghost predicate Cycle(d: Design, p: seq<nat>) { |p| >= 2 && Path(d, p) && p[0] == p[|p| - 1] }

  ghost predicate Cyclic(d: Design) { exists p :: Cycle(d, p) }

  /** Every pending cell waits for a net that is not available. */
  ghost predicate Stuck(d: Design, order: seq<nat>, pend: seq<nat>)
    requires Valid(d, order) && Valid(d, pend)
  {
    forall c :: c in pend ==> !InputsAvailable(d, order, c)
  }

  // ---- the loop ----

  /** gen.py:82-94: sweep over what is pending until nothing is, or a sweep places nothing.
      It places every cell exactly when there is no combinational cycle. */
  method Plan(d: Design) returns (order: seq<nat>, pend: seq<nat>)
    requires SingleDriver(d)
    ensures IsSchedule(d, order) && Splits(d, order, pend) && Stuck(d, order, pend)
    ensures pend == [] <==> !Cyclic(d)
  {
    var ready := Sources(d);
    order := [];
    pend := seq(|d.cells|, c => c);
    forall c: nat | c < |d.cells|
      ensures c in pend
    {
      assert pend[c] == c;
    }
    var prog := true;
    while pend != [] && prog
      invariant IsSchedule(d, order) && Splits(d, order, pend)
      invariant forall b :: b in ready <==> Available(d, order, b)
      invariant !prog ==> Stuck(d, order, pend)
      decreases |pend|, prog
    {
      ready, order, pend, prog := Sweep(d, ready, order, pend);
    }
    StuckMeansCycle(d, order, pend);
  }

  /** One pass over a snapshot of the pending cells, each ready one moved to the order. */
  method Sweep(d: Design, ready0: set<nat>, order0: seq<nat>, pend0: seq<nat>)
    returns (ready: set<nat>, order: seq<nat>, pend: seq<nat>, prog: bool)
    requires IsSchedule(d, order0) && Splits(d, order0, pend0)
    requires forall b :: b in ready0 <==> Available(d, order0, b)
    ensures IsSchedule(d, order) && Splits(d, order, pend)
    ensures forall b :: b in ready <==> Available(d, order, b)
    ensures if prog then |pend| < |pend0| else order == order0 && pend == pend0 && Stuck(d, order, pend)
  {
    ready, order, pend, prog := ready0, order0, pend0, false;
    var kept, i := 0, 0;
    while i < |pend0|
      invariant 0 <= kept <= i <= |pend0| && kept <= |pend|
      invariant pend[kept..] == pend0[i..]
      invariant IsSchedule(d, order) && Splits(d, order, pend)
      invariant forall b :: b in ready <==> Available(d, order, b)
      invariant prog ==> |pend| < |pend0|
      invariant !prog ==> order == order0 && pend == pend0 && kept == i
      invariant !prog ==> forall k :: 0 <= k < i ==> !InputsAvailable(d, order, pend0[k])
    {
      var c := pend0[i];
      assert c == pend[kept..][0];
      if AllIn(Reads(d.cells[c]), ready) {
        MoveKeeps(d, order, pend, kept);
        AvailableGrows(d, order, c);
        ready := ready + (set b | b in d.cells[c].y);
        order := order + [c];
        pend := pend[..kept] + pend[kept + 1..];
        prog := true;
      } else {
        kept := kept + 1;
      }
      i := i + 1;
    }
  }

  lemma {:induction false} AvailableGrows(d: Design, order: seq<nat>, c: nat)
    requires Valid(d, order) && c < |d.cells|
    ensures forall b :: Available(d, order + [c], b) <==> Available(d, order, b) || b in d.cells[c].y
  {
    var next := order + [c];
    forall b
      ensures Available(d, next, b) <==> Available(d, order, b) || b in d.cells[c].y
    {
      if b in d.cells[c].y { assert b in d.cells[next[|order|]].y; }
      if k :| 0 <= k < |order| && b in d.cells[order[k]].y { assert b in d.cells[next[k]].y; }
    }
  }

  /** Moving a ready cell from the pending list to the order. */
  lemma {:induction false} MoveKeeps(d: Design, order: seq<nat>, pend: seq<nat>, at: nat)
    requires IsSchedule(d, order) && Splits(d, order, pend) && at < |pend|
    requires InputsAvailable(d, order, pend[at])
    ensures IsSchedule(d, order + [pend[at]])
    ensures Splits(d, order + [pend[at]], pend[..at] + pend[at + 1..])
  {
    var c, next, rest := pend[at], order + [pend[at]], pend[..at] + pend[at + 1..];
    assert c in pend && c !in order;
    forall k | 0 <= k < |next|
      ensures InputsAvailable(d, next[..k], next[k])
    {
      if k < |order| { assert next[..k] == order[..k]; } else { assert next[..k] == order; }
    }
    forall x | 0 <= x < |d.cells|
      ensures (x in next) != (x in rest)
    {
      if x in pend {
        var k :| 0 <= k < |pend| && pend[k] == x;
        if k < at { assert rest[k] == x; } else if k > at { assert rest[k - 1] == x; }
      }
    }
  }

  // ---- stuck exactly on a cycle ----

  lemma {:induction false} StuckMeansCycle(d: Design, order: seq<nat>, pend: seq<nat>)
    requires SingleDriver(d)
    requires IsSchedule(d, order) && Splits(d, order, pend) && Stuck(d, order, pend)
    ensures pend == [] <==> !Cyclic(d)
  {
    if pend != [] {
      var p := WalkBack(d, order, pend, |d.cells|);
      PathRepeats(d, p);
    } else if p :| Cycle(d, p) {
      PathClimbs(d, order, p, |p| - 1);
    }
  }

  /** A pending cell is fed by a pending cell. */
  lemma {:induction false} PendingFeeder(d: Design, order: seq<nat>, pend: seq<nat>, c: nat) returns (u: nat)
    requires Splits(d, order, pend) && Stuck(d, order, pend) && c in pend
    ensures u in pend && Feeds(d, u, c)
  {
    var b :| b in Reads(d.cells[c]) && b.Net? && !Available(d, order, b.id);
    assert b.id in CellNets(d.cells[c]) by { assert b in d.cells[c].a + d.cells[c].b + d.cells[c].s; }
    assert b.id in Nets(d) && b.id in Driven(d);
    u :| 0 <= u < |d.cells| && b.id in d.cells[u].y;
    assert Net(b.id) in Reads(d.cells[c]);
  }

  /** A path of any length through pending cells, built backwards. */
  lemma {:induction false} WalkBack(d: Design, order: seq<nat>, pend: seq<nat>, n: nat) returns (p: seq<nat>)
    requires Splits(d, order, pend) && Stuck(d, order, pend) && pend != []
    ensures |p| == n + 1 && Path(d, p) && forall k :: 0 <= k < |p| ==> p[k] in pend
  {
    if n == 0 {
      p := [pend[0]];
    } else {
      var q := WalkBack(d, order, pend, n - 1);
      var u := PendingFeeder(d, order, pend, q[0]);
      p := [u] + q;
      forall k | 0 <= k < |p| - 1
        ensures Feeds(d, p[k], p[k + 1])
      {
        if k > 0 { assert p[k] == q[k - 1] && p[k + 1] == q[k]; }
      }
    }
  }

  /** A path longer than the number of cells comes back to a cell. */
  lemma {:induction false} PathRepeats(d: Design, p: seq<nat>)
    requires Path(d, p) && Valid(d, p) && |p| == |d.cells| + 1
    ensures Cyclic(d)
  {
    if Distinct(p) { Pigeonhole(p, |d.cells|); }
    var i, j :| 0 <= i < j < |p| && p[i] == p[j];
    var q := p[i..j + 1];
    forall k | 0 <= k < |q| - 1
      ensures Feeds(d, q[k], q[k + 1])
    {
      assert Feeds(d, p[i + k], p[i + k + 1]);
    }
    assert Cycle(d, q);
  }

  lemma {:induction false} Pigeonhole(s: seq<nat>, n: nat)
    requires Distinct(s) && forall k :: 0 <= k < |s| ==> s[k] < n
    ensures |s| <= n
    decreases n
  {
    assert |s| == 0 || s[0] < n;
    if n > 0 {
      if k :| 0 <= k < |s| && s[k] == n - 1 {
        var t := s[..k] + s[k + 1..];
        forall x | 0 <= x < |t|
          ensures t[x] < n - 1
        {
          assert t[x] == s[if x < k then x else x + 1] != s[k];
        }
        Pigeonhole(t, n - 1);
      } else {
        Pigeonhole(s, n - 1);
      }
    }
  }

  /** With every cell placed, along a path the places go up: no path returns. */
  lemma {:induction false} PathClimbs(d: Design, order: seq<nat>, p: seq<nat>, n: nat)
    requires SingleDriver(d) && IsSchedule(d, order) && Splits(d, order, [])
    requires Path(d, p) && 0 < n < |p|
    ensures p[0] < |d.cells| && p[n] < |d.cells| && p[0] in order && p[n] in order
    ensures Place(order, p[0]) < Place(order, p[n])
    decreases n
  {
    assert Feeds(d, p[n - 1], p[n]);
    DriverFirst(d, order, p[n - 1], p[n]);
    if n > 1 { PathClimbs(d, order, p, n - 1); }
  }

  ghost function Place(order: seq<nat>, c: nat): (k: nat)
    requires c in order
    ensures k < |order| && order[k] == c
  {
    var k :| 0 <= k < |order| && order[k] == c;
    k
  }

  /** The driver of a net is placed before its readers. */
  lemma {:induction false} DriverFirst(d: Design, order: seq<nat>, i: nat, j: nat)
    requires SingleDriver(d) && IsSchedule(d, order)
    requires Feeds(d, i, j) && i in order && j in order
    ensures Place(order, i) < Place(order, j)
  {
    var b :| Net(b) in Reads(d.cells[j]) && b in d.cells[i].y;
    var at := Place(order, j);
    assert InputsAvailable(d, order[..at], order[at]);
    assert Available(d, order[..at], Net(b).id);
    DrivenIsNoSource(d, i, b);
    var k :| 0 <= k < |order[..at]| && b in d.cells[order[..at][k]].y;
    assert order[k] == i;
  }

  lemma {:induction false} DrivenIsNoSource(d: Design, i: nat, b: nat)
    requires SingleDriver(d) && i < |d.cells| && b in d.cells[i].y
    ensures b in Driven(d) && b !in Sources(d)
    ensures forall j :: 0 <= j < |d.cells| && b in d.cells[j].y ==> j == i
  {
  }
}
