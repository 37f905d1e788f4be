/** The cache as preprocess/cachesim/cachesim.cpp stores it: flat tag and flag vectors of
    `sets * ways` slots, each set shifted in place, and a count per set. */
module CacheImpl {
  import opened Options
  import opened Arith
  import opened CacheSpec

  /** FL_DIRTY and FL_PREFETCH. */
  datatype Flags = Flags(dirty: bool, pf: bool)

  /** Slot `i` of set `s` in a flat vector. */
  function Slot(s: nat, i: nat, ways: nat): nat { s * ways + i }

  lemma {:induction false} SlotBound(s: nat, i: nat, sets: nat, ways: nat)
    requires s < sets && i < ways
    ensures Slot(s, i, ways) < sets * ways
  {
    MulMono(s + 1, sets, ways);
  }

  /** The slots of different sets do not overlap. */
  lemma {:induction false} OtherSet(s: nat, s': nat, i: nat, ways: nat)
    requires i < ways && s != s'
    ensures Slot(s', i, ways) < Slot(s, 0, ways) || Slot(s, 0, ways) + ways <= Slot(s', i, ways)
  {
    if s < s' { MulMono(s + 1, s', ways); } else { MulMono(s' + 1, s, ways); }
  }

  /** List `ls` with `l` put at the front and entry `i`, if there is one, dropped. */
  function Front(ls: seq<Line>, i: nat, l: Line): seq<Line>
    requires i <= |ls|
  {
    [l] + ls[..i] + (if i < |ls| then ls[i + 1..] else [])
  }

  lemma {:induction false} FrontLength(ls: seq<Line>, i: nat, l: Line, ways: nat)
    requires i <= |ls| <= ways && i < ways
    ensures |Front(ls, i, l)| <= ways
  {
  }

  /** Slot `k` of two vectors holds line `l`. */
  predicate HeldAt(tags: seq<nat>, fls: seq<Flags>, k: nat, l: Line) {
    k < |tags| && k < |fls| && l.tag == tags[k] && l.dirty == fls[k].dirty && l.pf == fls[k].pf
  }

  /** Moving the slots before `i` down by one and writing `l` first makes them hold the edited list. */
  lemma {:induction false} FrontHeld(tags: seq<nat>, fls: seq<Flags>, tags': seq<nat>, fls': seq<Flags>,
                                     base: nat, i: nat, l: Line, ls: seq<Line>)
    requires |tags| == |fls| == |tags'| == |fls'| && i <= |ls| && base + i < |tags|
    requires forall j :: 0 <= j < |ls| ==> HeldAt(tags, fls, base + j, ls[j])
    requires HeldAt(tags', fls', base, l)
    requires forall k :: base < k <= base + i ==> tags'[k] == tags[k - 1] && fls'[k] == fls[k - 1]
    requires forall k :: base + i < k < |tags| ==> tags'[k] == tags[k] && fls'[k] == fls[k]
    ensures forall j :: 0 <= j < |Front(ls, i, l)| ==> HeldAt(tags', fls', base + j, Front(ls, i, l)[j])
  {
    forall j | 0 <= j < |Front(ls, i, l)|
      ensures HeldAt(tags', fls', base + j, Front(ls, i, l)[j])
    {
      if 0 < j <= i {
        assert HeldAt(tags, fls, base + (j - 1), ls[j - 1]);
      } else if i < j {
        assert HeldAt(tags, fls, base + j, ls[j]);
      }
    }
  }

  class CacheObj {
    const sets: nat
    const ways: nat
    const tag: array<nat>
    const fl: array<Flags>
    const cnt: array<nat>
    /** The lists the vectors stand for. */
    ghost var data: seq<seq<Line>>

    ghost predicate Shaped()
      reads this
    {
      && tag.Length == sets * ways && fl.Length == sets * ways && cnt.Length == sets
      && |data| == sets
      && tag != cnt
    }

    ghost predicate SetMatches(s: nat)
      requires Shaped() && s < sets
      reads this, tag, fl, cnt
    {
      && cnt[s] == |data[s]| <= ways
      && forall i :: 0 <= i < |data[s]| ==> SlotMatches(s, i, data[s][i])
    }

    ghost predicate SlotMatches(s: nat, i: nat, l: Line)
      requires Shaped() && s < sets && i < ways
      reads this, tag, fl
    {
      SlotBound(s, i, sets, ways);
      var k := Slot(s, i, ways);
      l.tag == tag[k] && l.dirty == fl[k].dirty && l.pf == fl[k].pf
    }

    /** The vectors hold the lists; `ways` fits the 8-bit occupancy counter. */
    ghost predicate Good()
      reads this, tag, fl, cnt
    {
      && Shaped()
      && (sets != 0 ==> ways <= 255)
      && (forall s :: 0 <= s < sets ==> SetMatches(s))
      && Valid(Model())
    }

    ghost function Model(): Cache
      reads this
    {
      Cache(sets, ways, data)
    }

    constructor (s: nat, w: nat)
      requires s != 0 ==> 1 <= w
      ensures Model() == EmptyCache(s, w) && fresh(tag) && fresh(fl) && fresh(cnt)
      ensures s == 0 || w <= 255 ==> Good()
    {
      sets, ways := s, w;
      tag := new nat[s * w](_ => 0);
      fl := new Flags[s * w](_ => Flags(false, false));
      cnt := new nat[s](_ => 0);
      data := seq(s, _ => []);
    }

    predicate IsEnabled() { sets != 0 }

    /** The place of a line in its set; the count if it is not there. */
    method FindIn(s: nat, la: nat) returns (i: nat)
      requires Good() && s < sets
      ensures i == Find(data[s], la)
    {
      assert SetMatches(s);
      i := 0;
      while i < cnt[s]
        invariant i <= cnt[s]
        invariant forall j :: 0 <= j < i ==> data[s][j].tag != la
      {
        assert SlotMatches(s, i, data[s][i]);
        SlotBound(s, i, sets, ways);
        if tag[s * ways + i] == la {
          return;
        }
        i := i + 1;
      }
    }

    method ProbeLine(la: nat) returns (hit: bool)
      requires Good() && IsEnabled()
      ensures hit == Probe(Model(), la)
    {
      var s := la % sets;
      var i := FindIn(s, la);
      assert SetMatches(s);
      hit := i < cnt[s];
    }

    /** Moves the slots base .. base + k - 1 one place down, over slot base + k. */
    method ShiftDown(base: nat, k: nat)
      requires Shaped() && base + k < tag.Length
      modifies tag, fl
      ensures forall j :: base < j <= base + k ==> tag[j] == old(tag[j - 1]) && fl[j] == old(fl[j - 1])
      ensures forall j :: 0 <= j <= base || base + k < j < tag.Length ==> tag[j] == old(tag[j]) && fl[j] == old(fl[j])
    {
      var j := k;
      while j > 0
        invariant 0 <= j <= k
        invariant forall m :: base + j < m <= base + k ==> tag[m] == old(tag[m - 1]) && fl[m] == old(fl[m - 1])
        invariant forall m :: 0 <= m <= base + j || base + k < m < tag.Length ==> tag[m] == old(tag[m]) && fl[m] == old(fl[m])
      {
        tag[base + j] := tag[base + j - 1];
        fl[base + j] := fl[base + j - 1];
        j := j - 1;
      }
    }

    /** Moves the slots after base + i up to base + n - 1 one place up, over slot base + i. */
    method ShiftUp(base: nat, i: nat, n: nat)
      requires Shaped() && i < n && base + n <= tag.Length
      modifies tag, fl
      ensures forall j :: base + i <= j < base + n - 1 ==> tag[j] == old(tag[j + 1]) && fl[j] == old(fl[j + 1])
      ensures forall j :: 0 <= j < base + i || base + n <= j < tag.Length ==> tag[j] == old(tag[j]) && fl[j] == old(fl[j])
    {
      var j := i;
      while j + 1 < n
        invariant i <= j < n
        invariant forall m :: base + i <= m < base + j ==> tag[m] == old(tag[m + 1]) && fl[m] == old(fl[m + 1])
        invariant forall m :: 0 <= m < base + i || base + j <= m < tag.Length ==> tag[m] == old(tag[m]) && fl[m] == old(fl[m])
      {
        tag[base + j] := tag[base + j + 1];
        fl[base + j] := fl[base + j + 1];
        j := j + 1;
      }
    }

    /** Writes `l` at the front of set `s`, shifting the slots before slot `i` over it. */
    method PutFront(s: nat, i: nat, l: Line, ghost ls: seq<Line>)
      requires Shaped() && s < sets && i < ways
      requires i <= |ls| <= ways
      requires forall j :: 0 <= j < |ls| ==> SlotMatches(s, j, ls[j])
      modifies tag, fl
      ensures Shaped()
      ensures |Front(ls, i, l)| <= ways
      ensures forall j :: 0 <= j < |Front(ls, i, l)| ==> SlotMatches(s, j, Front(ls, i, l)[j])
      ensures Elsewhere(s)
    {
      hide SlotMatches; hide Front;
      SlotBound(s, i, sets, ways);
      var base := s * ways;
      SlotsHeld(s, base, ls);
      ghost var tags, fls := tag[..], fl[..];
      ShiftDown(base, i);
      tag[base] := l.tag;
      fl[base] := Flags(l.dirty, l.pf);
      FrontHeld(tags, fls, tag[..], fl[..], base, i, l, ls);
      FrontLength(ls, i, l, ways);
      HeldSlots(s, base, Front(ls, i, l));
    }

    /** The slots of set `s` and the vectors from its base on. */
    lemma {:induction false} SlotsHeld(s: nat, base: nat, ls: seq<Line>)
      requires Shaped() && s < sets && |ls| <= ways && base == s * ways
      requires forall j :: 0 <= j < |ls| ==> SlotMatches(s, j, ls[j])
      ensures forall j :: 0 <= j < |ls| ==> HeldAt(tag[..], fl[..], base + j, ls[j])
    {
      forall j | 0 <= j < |ls|
        ensures HeldAt(tag[..], fl[..], base + j, ls[j])
      {
        SlotBound(s, j, sets, ways);
        assert SlotMatches(s, j, ls[j]);
      }
    }

    lemma {:induction false} HeldSlots(s: nat, base: nat, ls: seq<Line>)
      requires Shaped() && s < sets && |ls| <= ways && base == s * ways
      requires forall j :: 0 <= j < |ls| ==> HeldAt(tag[..], fl[..], base + j, ls[j])
      ensures forall j :: 0 <= j < |ls| ==> SlotMatches(s, j, ls[j])
    {
      forall j | 0 <= j < |ls|
        ensures SlotMatches(s, j, ls[j])
      {
        SlotBound(s, j, sets, ways);
        assert HeldAt(tag[..], fl[..], base + j, ls[j]);
      }
    }

    /** Nothing outside set `s` has changed. */
    twostate predicate Elsewhere(s: nat)
      requires old(Shaped()) && Shaped()
      reads this, tag, fl
    {
      forall k :: 0 <= k < tag.Length && (k < s * ways || s * ways + ways <= k) ==> tag[k] == old(tag[k]) && fl[k] == old(fl[k])
    }

    /** Changing one set's slots, count and list leaves the other sets in step. */
    twostate lemma {:induction false} OthersMatch(s: nat)
      requires old(Good()) && Shaped() && s < sets
      requires Elsewhere(s)
      requires forall k :: 0 <= k < sets && k != s ==> cnt[k] == old(cnt[k])
      requires |data| == |old(data)| && forall k :: 0 <= k < sets && k != s ==> data[k] == old(data[k])
      ensures forall k :: 0 <= k < sets && k != s ==> SetMatches(k)
    {
      forall k | 0 <= k < sets && k != s ensures SetMatches(k) {
        assert old(SetMatches(k));
        forall i | 0 <= i < |data[k]| ensures SlotMatches(k, i, data[k][i]) {
          assert old(SlotMatches(k, i, data[k][i]));
          OtherSet(s, k, i, ways);
          SlotBound(k, i, sets, ways);
        }
      }
    }

    method LineAt(s: nat, i: nat) returns (l: Line)
      requires Good() && s < sets && i < |data[s]|
      ensures l == data[s][i]
    {
      assert SetMatches(s);
      assert SlotMatches(s, i, data[s][i]);
      SlotBound(s, i, sets, ways);
      l := Line(tag[s * ways + i], fl[s * ways + i].dirty, fl[s * ways + i].pf);
    }

    /** One access: a hit moves to the front, a miss fills there and may evict. */
    method AccessLine(a: Access) returns (hit: bool, victim: Option<Line>, pfUseful: bool)
      requires Good() && IsEnabled()
      modifies this, tag, fl, cnt
      ensures Good()
      ensures Result(Model(), hit, victim, pfUseful) == AccessCache(old(Model()), a)
    {
      hide AccessSet; hide Find; hide Front; hide SlotMatches;
      var s := a.line % sets;
      ghost var ls := data[s];
      assert SetMatches(s) && ValidSet(Model(), s);
      AccessLines(Model(), a, a.line);
      AccessSetIs(ls, ways, a);
      var i := FindIn(s, a.line);
      if i < cnt[s] {
        var l := LineAt(s, i);
        PlaceFront(s, i, Line(a.line, l.dirty || a.write, l.pf && !a.demand));
        return true, None, a.demand && l.pf;
      }
      hit, victim, pfUseful := false, None, false;
      i := cnt[s];
      if cnt[s] == ways {
        i := ways - 1;
        var v := LineAt(s, i);
        victim := Some(v);
      }
      PlaceFront(s, i, Line(a.line, a.write, a.prefetch));
    }

    /** Puts `l` first in set `s`, over entry `i`, or as one more entry when `i` is free. */
    method PlaceFront(s: nat, i: nat, l: Line)
      requires Good() && IsEnabled() && s < sets && i < ways && i <= |data[s]|
      modifies this, tag, fl, cnt
      ensures Shaped() && forall k :: 0 <= k < sets ==> SetMatches(k)
      ensures data == old(data)[s := Front(old(data)[s], i, l)]
    {
      ghost var ls := data[s];
      assert SetMatches(s);
      if i == cnt[s] {
        cnt[s] := (cnt[s] + 1) % 256;
      }
      PutFront(s, i, l, ls);
      data := data[s := Front(ls, i, l)];
      OthersMatch(s);
      assert SetMatches(s);
    }

    /** Removes a line, if it is there. */
    method InvalidateLine(la: nat) returns (found: bool, wasDirty: bool)
      requires Good() && IsEnabled()
      modifies this, tag, fl, cnt
      ensures Good()
      ensures var (c, l) := Invalidate(old(Model()), la);
              Model() == c && found == l.Some? && wasDirty == (l.Some? && l.value.dirty)
    {
      hide Find;
      var s := la % sets;
      ghost var ls := data[s];
      assert SetMatches(s) && ValidSet(Model(), s);
      InvalidateLines(Model(), la, la);
      var i := FindIn(s, la);
      if i == cnt[s] {
        return false, false;
      }
      var l := LineAt(s, i);
      found, wasDirty := true, l.dirty;
      DropSlot(s, i);
    }

    /** Closes the gap at place `i` of set `s`. */
    method DropSlot(s: nat, i: nat)
      requires Good() && IsEnabled() && s < sets && i < |data[s]|
      modifies this, tag, fl, cnt
      ensures Shaped() && forall k :: 0 <= k < sets ==> SetMatches(k)
      ensures data == old(data)[s := WithoutAt(old(data)[s], i)]
    {
      ghost var ls := data[s];
      assert SetMatches(s);
      SlotBound(s, cnt[s] - 1, sets, ways);
      ShiftUp(s * ways, i, cnt[s]);
      cnt[s] := cnt[s] - 1;
      ghost var r := WithoutAt(ls, i);
      data := data[s := r];
      forall j | 0 <= j < |r| ensures SlotMatches(s, j, r[j]) {
        SlotBound(s, j, sets, ways);
        assert old(SlotMatches(s, if j < i then j else j + 1, ls[if j < i then j else j + 1]));
      }
      OthersMatch(s);
      assert SetMatches(s);
    }
  }

  /** The three cases of an access, as edits of the list. */
  lemma {:induction false} AccessSetIs(ls: seq<Line>, ways: nat, a: Access)
    requires 1 <= ways && |ls| <= ways
    ensures var r := AccessSet(ls, ways, a); var i := Find(ls, a.line);
            if i < |ls| then
              r == SetResult(Front(ls, i, Line(a.line, ls[i].dirty || a.write, ls[i].pf && !a.demand)), true, None, a.demand && ls[i].pf)
            else
              var k := if |ls| == ways then ways - 1 else |ls|;
              r == SetResult(Front(ls, k, Line(a.line, a.write, a.prefetch)), false,
                             if |ls| == ways then Some(ls[ways - 1]) else None, false)
  {
    hide Find;
    var i := Find(ls, a.line);
    if i == |ls| == ways { assert ls[ways..] == []; }
  }
}
