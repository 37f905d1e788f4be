/** One set-associative LRU cache (preprocess/cachesim/cachesim.cpp, `Cache`) as a value:
    every set is the list of its lines, most recently used first. */
module CacheSpec {
  import opened Options

  datatype Line = Line(tag: nat, dirty: bool, pf: bool)

  /** `sets == 0` is a disabled level. */
  datatype Cache = Cache(sets: nat, ways: nat, data: seq<seq<Line>>)

  /** `prefetch` asks for the prefetch mark on a fill; `demand` accesses clear it. */
  datatype Access = Access(line: nat, write: bool, prefetch: bool, demand: bool)

  datatype SetResult = SetResult(set_: seq<Line>, hit: bool, victim: Option<Line>, pfUseful: bool)
  datatype Result = Result(cache: Cache, hit: bool, victim: Option<Line>, pfUseful: bool)

  predicate Enabled(c: Cache) { c.sets != 0 }

  function Find(ls: seq<Line>, la: nat): (i: nat)
    ensures i <= |ls|
    ensures i < |ls| ==> ls[i].tag == la
    ensures forall j :: 0 <= j < i ==> ls[j].tag != la
  {
    if ls == [] || ls[0].tag == la then 0 else 1 + Find(ls[1..], la)
  }

  function WithoutAt<T>(s: seq<T>, i: nat): seq<T>
    requires i < |s|
  {
    s[..i] + s[i + 1..]
  }

  function AccessSet(ls: seq<Line>, ways: nat, a: Access): SetResult
    requires 1 <= ways && |ls| <= ways
  {
    var i := Find(ls, a.line);
    if i < |ls| then
      var l := ls[i];
      SetResult([Line(a.line, l.dirty || a.write, l.pf && !a.demand)] + WithoutAt(ls, i), true, None, a.demand && l.pf)
    else
      var l := Line(a.line, a.write, a.prefetch);
      if |ls| == ways then SetResult([l] + ls[..ways - 1], false, Some(ls[ways - 1]), false)
      else SetResult([l] + ls, false, None, false)
  }

  function SetOf(c: Cache, la: nat): (s: nat)
    requires Enabled(c)
    ensures s < c.sets
  {
    la % c.sets
  }

  /** Lists of distinct lines, each in the set it maps to, none longer than the ways. */
  ghost predicate Valid(c: Cache) {
    && |c.data| == c.sets
    && (Enabled(c) ==> 1 <= c.ways)
    && forall s :: 0 <= s < c.sets ==> ValidSet(c, s)
  }

  ghost predicate ValidSet(c: Cache, s: nat)
    requires s < c.sets && |c.data| == c.sets
  {
    && |c.data[s]| <= c.ways
    && (forall i :: 0 <= i < |c.data[s]| ==> SetOf(c, c.data[s][i].tag) == s)
    && (forall i, j :: 0 <= i < j < |c.data[s]| ==> c.data[s][i].tag != c.data[s][j].tag)
  }

  function AccessCache(c: Cache, a: Access): Result
    requires Valid(c) && Enabled(c)
  {
    var s := SetOf(c, a.line);
    assert ValidSet(c, s);
    var r := AccessSet(c.data[s], c.ways, a);
    Result(c.(data := c.data[s := r.set_]), r.hit, r.victim, r.pfUseful)
  }

  function Probe(c: Cache, la: nat): bool
    requires Enabled(c) && |c.data| == c.sets
  {
    var ls := c.data[SetOf(c, la)];
    Find(ls, la) < |ls|
  }

  /** Removes a line; the result says whether it was there, and what it was. */
  function Invalidate(c: Cache, la: nat): (Cache, Option<Line>)
    requires Enabled(c) && |c.data| == c.sets
  {
    var s := SetOf(c, la);
    var ls := c.data[s];
    var i := Find(ls, la);
    if i < |ls| then (c.(data := c.data[s := WithoutAt(ls, i)]), Some(ls[i])) else (c, None)
  }

  function EmptyCache(sets: nat, ways: nat): Cache { Cache(sets, ways, seq(sets, _ => [])) }

  // ---- the cache line by line ----

  /** The copy of line `x`, if the cache holds it. */
  function Lookup(c: Cache, x: nat): Option<Line>
    requires |c.data| == c.sets
  {
    if !Enabled(c) then None
    else
      var ls := c.data[SetOf(c, x)];
      var i := Find(ls, x);
      if i < |ls| then Some(ls[i]) else None
  }

  predicate Has(c: Cache, x: nat)
    requires |c.data| == c.sets
  {
    Lookup(c, x).Some?
  }

  predicate IsDirty(c: Cache, x: nat)
    requires |c.data| == c.sets
  {
    Lookup(c, x).Some? && Lookup(c, x).value.dirty
  }

  predicate IsPf(c: Cache, x: nat)
    requires |c.data| == c.sets
  {
    Lookup(c, x).Some? && Lookup(c, x).value.pf
  }

  /** In a list of distinct lines, `Find` is the place of the line. */
  lemma {:induction false} FindIs(ls: seq<Line>, la: nat, i: nat)
    requires i < |ls| && ls[i].tag == la
    requires forall j, k :: 0 <= j < k < |ls| ==> ls[j].tag != ls[k].tag
    ensures Find(ls, la) == i
  {
  }

  lemma {:induction false} NotFound(ls: seq<Line>, la: nat)
    requires forall i :: 0 <= i < |ls| ==> ls[i].tag != la
    ensures Find(ls, la) == |ls|
  {
  }

  predicate Distinct(ls: seq<Line>) {
    forall i, j :: 0 <= i < j < |ls| ==> ls[i].tag != ls[j].tag
  }

  function SetLookup(ls: seq<Line>, x: nat): Option<Line> {
    if Find(ls, x) < |ls| then Some(ls[Find(ls, x)]) else None
  }

  /** The copy of `x` after an access, given the copy before and the line evicted. */
  function AfterAccess(before: Option<Line>, victim: Option<Line>, a: Access, x: nat): Option<Line> {
    if x == a.line then
      match before
      case Some(l) => Some(Line(x, l.dirty || a.write, l.pf && !a.demand))
      case None => Some(Line(x, a.write, a.prefetch))
    else if victim.Some? && victim.value.tag == x then None
    else before
  }

  /** The rest of an access's outcome, in terms of lines. */
  ghost predicate Outcome(before: Option<Line>, a: Access, hit: bool, pfUseful: bool, victim: Option<Line>,
                          victimBefore: Option<Line>)
  {
    && hit == before.Some?
    && pfUseful == (hit && a.demand && before.value.pf)
    && (victim.Some? ==> !hit && victim.value.tag != a.line && victimBefore == victim)
  }

  lemma {:induction false} ConsLines(l: Line, rest: seq<Line>, x: nat)
    requires Distinct(rest) && SetLookup(rest, l.tag) == None
    ensures Distinct([l] + rest)
    ensures SetLookup([l] + rest, x) == if x == l.tag then Some(l) else SetLookup(rest, x)
  {
    assert ([l] + rest)[1..] == rest;
  }

  lemma {:induction false} WithoutLines(ls: seq<Line>, i: nat, x: nat)
    requires Distinct(ls) && i < |ls|
    ensures Distinct(WithoutAt(ls, i))
    ensures SetLookup(WithoutAt(ls, i), x) == if x == ls[i].tag then None else SetLookup(ls, x)
    ensures forall l :: l in WithoutAt(ls, i) ==> l in ls
  {
    var rest := WithoutAt(ls, i);
    var k := Find(ls, x);
    if x == ls[i].tag {
      NotFound(rest, x);
    } else if k < |ls| {
      FindIs(rest, x, if k < i then k else k - 1);
    } else {
      NotFound(rest, x);
    }
  }

  /** What an access does to each line of a set. */
  lemma {:induction false} AccessSetLines(ls: seq<Line>, ways: nat, a: Access, x: nat)
    requires 1 <= ways && |ls| <= ways && Distinct(ls)
    ensures var r := AccessSet(ls, ways, a);
            && Distinct(r.set_) && |r.set_| <= ways
            && SetLookup(r.set_, x) == AfterAccess(SetLookup(ls, x), r.victim, a, x)
            && Outcome(SetLookup(ls, a.line), a, r.hit, r.pfUseful, r.victim,
                       if r.victim.Some? then SetLookup(ls, r.victim.value.tag) else None)
    ensures forall l :: l in AccessSet(ls, ways, a).set_ ==> l.tag == a.line || l in ls
    ensures AccessSet(ls, ways, a).victim.Some? ==> AccessSet(ls, ways, a).victim.value in ls
  {
    hide Distinct; hide Find;
    var r := AccessSet(ls, ways, a);
    var i := Find(ls, a.line);
    if i < |ls| {
      WithoutLines(ls, i, x);
      WithoutLines(ls, i, a.line);
      ConsLines(r.set_[0], WithoutAt(ls, i), x);
    } else if |ls| == ways {
      WithoutLines(ls, ways - 1, x);
      WithoutLines(ls, ways - 1, a.line);
      assert ls[..ways - 1] == WithoutAt(ls, ways - 1);
      ConsLines(r.set_[0], WithoutAt(ls, ways - 1), x);
      LookupLast(ls);
    } else {
      ConsLines(r.set_[0], ls, x);
    }
  }

  lemma {:induction false} LookupLast(ls: seq<Line>)
    requires Distinct(ls) && |ls| > 0
    ensures SetLookup(ls, ls[|ls| - 1].tag) == Some(ls[|ls| - 1])
  {
    FindIs(ls, ls[|ls| - 1].tag, |ls| - 1);
  }

  /** What an access does to each line of a cache. */
  lemma {:induction false} AccessLines(c: Cache, a: Access, x: nat)
    requires Valid(c) && Enabled(c)
    ensures var r := AccessCache(c, a);
            && Valid(r.cache) && r.cache.sets == c.sets && r.cache.ways == c.ways
            && Lookup(r.cache, x) == AfterAccess(Lookup(c, x), r.victim, a, x)
            && Outcome(Lookup(c, a.line), a, r.hit, r.pfUseful, r.victim,
                       if r.victim.Some? then Lookup(c, r.victim.value.tag) else None)
  {
    hide AccessSet; hide Find;
    var s := SetOf(c, a.line);
    var r := AccessCache(c, a);
    assert ValidSet(c, s);
    AccessSetLines(c.data[s], c.ways, a, x);
    if r.victim.Some? {
      assert SetOf(c, r.victim.value.tag) == s;
    }
    forall q | 0 <= q < c.sets ensures ValidSet(r.cache, q) {
      assert ValidSet(c, q);
    }
  }

  /** What removing a line does to each line of a cache. */
  lemma {:induction false} InvalidateLines(c: Cache, la: nat, x: nat)
    requires Valid(c) && Enabled(c)
    ensures var (c', l) := Invalidate(c, la);
            && Valid(c') && c'.sets == c.sets && c'.ways == c.ways
            && l == Lookup(c, la)
            && Lookup(c', x) == (if x == la then None else Lookup(c, x))
  {
    hide Find;
    var s := SetOf(c, la);
    var ls := c.data[s];
    assert ValidSet(c, s);
    var i := Find(ls, la);
    var (c', l) := Invalidate(c, la);
    if i < |ls| {
      WithoutLines(ls, i, x);
      forall q | 0 <= q < c.sets ensures ValidSet(c', q) {
        assert ValidSet(c, q);
      }
    }
  }

  lemma {:induction false} EmptyValid(sets: nat, ways: nat, x: nat)
    requires sets != 0 ==> ways >= 1
    ensures Valid(EmptyCache(sets, ways)) && Lookup(EmptyCache(sets, ways), x) == None
  {
  }
}
