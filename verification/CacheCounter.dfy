/** One set of the cache with its 8-bit occupancy count (preprocess/cachesim/cachesim.cpp,
    `Cache::cnt`), as it behaves for any number of ways: the count wraps to zero after 255. */
module CacheCounter {
  import opened Options
  import opened CacheSpec

  /** The `ways` slots of a set and the count of those in use. */
  datatype CountedSet = CountedSet(slots: seq<Line>, cnt: nat)

  datatype CountedResult = CountedResult(set_: CountedSet, hit: bool, victim: Option<Line>, pfUseful: bool)

  ghost predicate InRange(c: CountedSet, ways: nat) { 1 <= ways && |c.slots| == ways && c.cnt <= ways }

  /** The slots in use move one place down and `l` comes first; with a count of zero nothing moves. */
  function ShiftIn(slots: seq<Line>, cnt: nat, l: Line): (r: seq<Line>)
    requires cnt <= |slots| && |slots| >= 1
    ensures |r| == |slots|
  {
    if cnt == 0 then [l] + slots[1..] else [l] + slots[..cnt - 1] + slots[cnt..]
  }

  function Access8(c: CountedSet, ways: nat, a: Access): (r: CountedResult)
    requires InRange(c, ways)
    ensures InRange(r.set_, ways)
  {
    var i := Find(c.slots[..c.cnt], a.line);
    if i < c.cnt then
      var l := c.slots[i];
      CountedResult(CountedSet([Line(a.line, l.dirty || a.write, l.pf && !a.demand)] + WithoutAt(c.slots, i), c.cnt),
                    true, None, a.demand && l.pf)
    else
      var full := c.cnt == ways;
      var cnt := if full then c.cnt else (c.cnt + 1) % 256;
      CountedResult(CountedSet(ShiftIn(c.slots, cnt, Line(a.line, a.write, a.prefetch)), cnt),
                    false, if full then Some(c.slots[ways - 1]) else None, false)
  }

  function Remove8(c: CountedSet, ways: nat, la: nat): (r: CountedSet)
    requires InRange(c, ways)
    ensures InRange(r, ways)
  {
    var i := Find(c.slots[..c.cnt], la);
    if i < c.cnt then CountedSet(c.slots[..i] + c.slots[i + 1..c.cnt] + c.slots[c.cnt - 1..], c.cnt - 1) else c
  }

  function Remove(ls: seq<Line>, la: nat): seq<Line> {
    if Find(ls, la) < |ls| then WithoutAt(ls, Find(ls, la)) else ls
  }

  // ---- runs of one set ----

  datatype SetOp = Use(a: Access) | Drop(line: nat)

  function Blank(): Line { Line(0, false, false) }

  function Run8(ways: nat, ops: seq<SetOp>): (c: CountedSet)
    requires 1 <= ways
    ensures InRange(c, ways)
  {
    if ops == [] then CountedSet(seq(ways, _ => Blank()), 0)
    else
      var c := Run8(ways, ops[..|ops| - 1]);
      match ops[|ops| - 1]
      case Use(a) => Access8(c, ways, a).set_
      case Drop(la) => Remove8(c, ways, la)
  }

  function RunList(ways: nat, ops: seq<SetOp>): (ls: seq<Line>)
    requires 1 <= ways
    ensures |ls| <= ways
  {
    if ops == [] then []
    else
      var ls := RunList(ways, ops[..|ops| - 1]);
      match ops[|ops| - 1]
      case Use(a) => AccessSet(ls, ways, a).set_
      case Drop(la) => Remove(ls, la)
  }

  /** Both sets answer an access alike. */
  ghost predicate SameAnswer(c: CountedSet, ls: seq<Line>, ways: nat, a: Access)
    requires InRange(c, ways) && |ls| <= ways
  {
    var r := Access8(c, ways, a);
    var s := AccessSet(ls, ways, a);
    r.hit == s.hit && r.victim == s.victim && r.pfUseful == s.pfUseful
  }

  ghost predicate Holds(c: CountedSet, ls: seq<Line>, ways: nat) {
    InRange(c, ways) && c.slots[..c.cnt] == ls
  }

  lemma {:induction false} ShiftHolds(slots: seq<Line>, cnt: nat, l: Line)
    requires 1 <= cnt <= |slots|
    ensures ShiftIn(slots, cnt, l)[..cnt] == [l] + slots[..cnt - 1]
  {
  }

  lemma {:induction false} HitHolds(slots: seq<Line>, cnt: nat, i: nat, l: Line)
    requires i < cnt <= |slots|
    ensures ([l] + WithoutAt(slots, i))[..cnt] == [l] + WithoutAt(slots[..cnt], i)
  {
  }

  lemma {:induction false} AccessHolds(c: CountedSet, ls: seq<Line>, ways: nat, a: Access)
    requires Holds(c, ls, ways) && ways <= 255
    ensures SameAnswer(c, ls, ways, a)
    ensures Holds(Access8(c, ways, a).set_, AccessSet(ls, ways, a).set_, ways)
  {
    hide Find; hide ShiftIn; hide WithoutAt;
    var i := Find(ls, a.line);
    var r := Access8(c, ways, a).set_;
    if i < |ls| {
      HitHolds(c.slots, c.cnt, i, r.slots[0]);
    } else {
      ShiftHolds(c.slots, r.cnt, Line(a.line, a.write, a.prefetch));
      assert c.slots[..r.cnt - 1] == if |ls| == ways then ls[..ways - 1] else ls;
    }
  }

  lemma {:induction false} RemoveHolds(c: CountedSet, ls: seq<Line>, ways: nat, la: nat)
    requires Holds(c, ls, ways)
    ensures Holds(Remove8(c, ways, la), Remove(ls, la), ways)
  {
    var r := Remove8(c, ways, la);
    assert r.slots[..r.cnt] == Remove(ls, la);
  }

  lemma {:induction false} RunsHold(ways: nat, ops: seq<SetOp>)
    requires 1 <= ways <= 255
    ensures Holds(Run8(ways, ops), RunList(ways, ops), ways)
    decreases |ops|
  {
    hide Access8; hide Remove8; hide AccessSet; hide Remove;
    if ops != [] {
      RunsHold(ways, ops[..|ops| - 1]);
      var c := Run8(ways, ops[..|ops| - 1]);
      var ls := RunList(ways, ops[..|ops| - 1]);
      match ops[|ops| - 1]
      case Use(a) => AccessHolds(c, ls, ways, a);
      case Drop(la) => RemoveHolds(c, ls, ways, la);
    }
  }

  /** Accesses of lines 0 to k - 1. */
  function FirstUses(k: nat): (ops: seq<SetOp>)
    ensures |ops| == k
  {
    if k == 0 then [] else FirstUses(k - 1) + [Use(Access(k - 1, false, false, true))]
  }

  /** The count is k, of lines below k. */
  ghost predicate CountedTo(c: CountedSet, k: nat) {
    c.cnt == k <= |c.slots| && forall i :: 0 <= i < k ==> c.slots[i].tag < k
  }

  lemma {:induction false} MissCounts(c: CountedSet, ways: nat, k: nat)
    requires InRange(c, ways) && CountedTo(c, k) && k < 255 < ways
    ensures CountedTo(Access8(c, ways, Access(k, false, false, true)).set_, k + 1)
  {
    NotFound(c.slots[..c.cnt], k);
  }

  lemma {:induction false} LastUse(ways: nat, k: nat)
    requires 1 <= ways && k >= 1
    ensures var a := Access(k - 1, false, false, true);
            && Run8(ways, FirstUses(k)) == Access8(Run8(ways, FirstUses(k - 1)), ways, a).set_
            && RunList(ways, FirstUses(k)) == AccessSet(RunList(ways, FirstUses(k - 1)), ways, a).set_
  {
    hide Access8; hide AccessSet;
    assert FirstUses(k)[..k - 1] == FirstUses(k - 1);
  }

  /** Misses count up to 255 and hold their lines. */
  lemma {:induction false} CountsUp(ways: nat, k: nat)
    requires k <= 255 < ways
    ensures CountedTo(Run8(ways, FirstUses(k)), k)
  {
    hide Access8; hide CountedTo;
    if k == 0 {
      assert CountedTo(Run8(ways, []), 0) by { EmptyCounted(ways); }
    } else {
      CountsUp(ways, k - 1);
      LastUse(ways, k);
      MissCounts(Run8(ways, FirstUses(k - 1)), ways, k - 1);
    }
  }

  lemma {:induction false} EmptyCounted(ways: nat)
    requires 1 <= ways
    ensures CountedTo(Run8(ways, []), 0)
  {
  }

  /** The 256th miss wraps the count: the line just accessed misses again. */
  lemma {:induction false} CountWraps(ways: nat)
    requires 255 < ways
    ensures !SameAnswer(Run8(ways, FirstUses(256)), RunList(ways, FirstUses(256)), ways, Access(255, false, false, true))
  {
    hide Run8; hide RunList; hide FirstUses;
    var a := Access(255, false, false, true);
    LastUse(ways, 256);
    CountsUp(ways, 255);
    var c := Run8(ways, FirstUses(255));
    NotFound(c.slots[..c.cnt], 255);
    assert Run8(ways, FirstUses(256)).cnt == 0;
  }

  /** The set with its 8-bit count answers every access of every run of accesses and
      removals like the list of its lines exactly when it has at most 255 ways. */
  lemma {:induction false} CounterIsExactIff(ways: nat)
    requires 1 <= ways
    ensures (forall ops: seq<SetOp>, a: Access :: SameAnswer(Run8(ways, ops), RunList(ways, ops), ways, a))
            <==> ways <= 255
  {
    hide SameAnswer;
    if ways <= 255 {
      forall ops: seq<SetOp>, a: Access ensures SameAnswer(Run8(ways, ops), RunList(ways, ops), ways, a) {
        RunsHold(ways, ops);
        AccessHolds(Run8(ways, ops), RunList(ways, ops), ways, a);
      }
    } else {
      CountWraps(ways);
    }
  }
}
