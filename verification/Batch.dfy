/** Packing instances into batches (lib/runtime/batch.c:12-69): a batch shares one simpoint's
    trace and has 64 lanes. */
module Batch {
  import opened Options
  import W = Words

  datatype Instance = Instance(simpoint: nat, config: nat)

  /** `lanes[l]` is the instance in lane l; the lanes above stay empty. */
  datatype Packed = Packed(simpoint: nat, trace: Option<nat>, lanes: seq<Instance>, mask: W.Word, nLanes: nat)

  // ---- order ----

  /** cmp_inst: by simpoint, then by configuration. */
  predicate LessEq(x: Instance, y: Instance) {
    x.simpoint < y.simpoint || (x.simpoint == y.simpoint && x.config <= y.config)
  }

  ghost predicate Sorted(s: seq<Instance>) { forall i, j :: 0 <= i < j < |s| ==> LessEq(s[i], s[j]) }

  // ---- counting ----

  function Count(s: seq<Instance>, sp: nat): nat {
    if s == [] then 0 else Count(s[..|s| - 1], sp) + if s[|s| - 1].simpoint == sp then 1 else 0
  }

  function Ceil(n: nat): nat { (n + W.LANES - 1) / W.LANES }

  /** The sum over the simpoints below `m` of the batches each needs. */
  function Need(s: seq<Instance>, m: nat): nat {
    if m == 0 then 0 else Need(s, m - 1) + Ceil(Count(s, m - 1))
  }

  /** All simpoints of `s` are below `m`. */
  ghost predicate Below(s: seq<Instance>, m: nat) { forall i :: 0 <= i < |s| ==> s[i].simpoint < m }

  lemma {:induction false} CountApp(s: seq<Instance>, t: seq<Instance>, sp: nat)
    ensures Count(s + t, sp) == Count(s, sp) + Count(t, sp)
    decreases |t|
  {
    if t == [] {
      assert s + t == s;
    } else {
      assert (s + t)[..|s + t| - 1] == s + t[..|t| - 1];
      CountApp(s, t[..|t| - 1], sp);
    }
  }

  lemma {:induction false} CountNone(s: seq<Instance>, sp: nat)
    ensures Count(s, sp) == 0 <==> forall i :: 0 <= i < |s| ==> s[i].simpoint != sp
    ensures Count(s, sp) <= |s|
    ensures Count(s, sp) == |s| <==> forall i :: 0 <= i < |s| ==> s[i].simpoint == sp
    decreases |s|
  {
    if s != [] { CountNone(s[..|s| - 1], sp); }
  }

  /** Taking one entry out of a list takes it out of the count. */
  lemma {:induction false} CountWithout(t: seq<Instance>, k: nat, sp: nat)
    requires k < |t|
    ensures var rest := t[..k] + t[k + 1..];
            && multiset(rest) == multiset(t) - multiset{t[k]}
            && Count(t, sp) == Count(rest, sp) + if t[k].simpoint == sp then 1 else 0
  {
    hide Count;
    var before, after := t[..k], t[k + 1..];
    assert t == before + [t[k]] + after;
    CountApp(before + [t[k]], after, sp);
    CountApp(before, [t[k]], sp);
    CountApp(before, after, sp);
    CountSingle(t[k], sp);
  }

  /** Counting sees only the multiset. */
  lemma {:induction false} CountPermuted(s: seq<Instance>, t: seq<Instance>, sp: nat)
    requires multiset(s) == multiset(t)
    ensures Count(s, sp) == Count(t, sp)
    decreases |s|
  {
    hide Count;
    if s == [] {
      SameLength(s, t);
    } else {
      var n := |s| - 1;
      assert s[n] in multiset(t);
      var k :| 0 <= k < |t| && t[k] == s[n];
      CountWithout(s, n, sp);
      CountWithout(t, k, sp);
      CountPermuted(s[..n] + s[n + 1..], t[..k] + t[k + 1..], sp);
    }
  }

  lemma {:induction false} CountSingle(x: Instance, sp: nat)
    ensures Count([x], sp) == if x.simpoint == sp then 1 else 0
  {
    var s := [x];
    assert s[..0] == [];
  }

  lemma {:induction false} NeedPermuted(s: seq<Instance>, t: seq<Instance>, m: nat)
    requires multiset(s) == multiset(t)
    ensures Need(s, m) == Need(t, m)
    decreases m
  {
    if m > 0 {
      CountPermuted(s, t, m - 1);
      NeedPermuted(s, t, m - 1);
    }
  }

  /** A full group of lanes of one simpoint, added where that simpoint's count is whole,
      needs exactly one batch more. */
  lemma {:induction false} NeedChunk(s: seq<Instance>, chunk: seq<Instance>, sp: nat, m: nat)
    requires 1 <= |chunk| <= W.LANES && (forall i :: 0 <= i < |chunk| ==> chunk[i].simpoint == sp)
    requires Count(s, sp) % W.LANES == 0
    ensures Need(s + chunk, m) == Need(s, m) + if sp < m then 1 else 0
    decreases m
  {
    if m > 0 {
      NeedChunk(s, chunk, sp, m - 1);
      CountApp(s, chunk, m - 1);
      CountNone(chunk, m - 1);
      if m - 1 == sp { CeilWhole(Count(s, sp), |chunk|); }
    }
  }

  lemma {:induction false} CeilWhole(n: nat, l: nat)
    requires n % W.LANES == 0 && 1 <= l <= W.LANES
    ensures Ceil(n + l) == Ceil(n) + 1
  {
  }

  // ---- what a packing is ----

  function Flat(bs: seq<Packed>): seq<Instance> {
    if bs == [] then [] else Flat(bs[..|bs| - 1]) + bs[|bs| - 1].lanes
  }

  /** One simpoint, at most 64 lanes, never empty. */
  predicate OneGroup(b: Packed) {
    && 1 <= |b.lanes| <= W.LANES
    && forall l :: 0 <= l < |b.lanes| ==> b.lanes[l].simpoint == b.simpoint
  }

  /** What the rest of the runtime reads off a batch agrees with its lanes. */
  predicate Consistent(b: Packed, nTraces: nat) {
    && OneGroup(b)
    && b.nLanes == |b.lanes|
    && b.mask == W.Low(|b.lanes|)
    && b.trace == if b.simpoint < nTraces then Some(b.simpoint) else None
  }

  // ---- no packing is smaller ----

  function CountBatches(bs: seq<Packed>, sp: nat): nat {
    if bs == [] then 0 else CountBatches(bs[..|bs| - 1], sp) + if bs[|bs| - 1].simpoint == sp then 1 else 0
  }

  function SumBatches(bs: seq<Packed>, m: nat): nat {
    if m == 0 then 0 else SumBatches(bs, m - 1) + CountBatches(bs, m - 1)
  }

  lemma {:induction false} RoomFor(bs: seq<Packed>, sp: nat)
    requires forall i :: 0 <= i < |bs| ==> OneGroup(bs[i])
    ensures Count(Flat(bs), sp) <= W.LANES * CountBatches(bs, sp)
    decreases |bs|
  {
    if bs != [] {
      var front, b := bs[..|bs| - 1], bs[|bs| - 1];
      RoomFor(front, sp);
      CountApp(Flat(front), b.lanes, sp);
      CountNone(b.lanes, sp);
    }
  }

  lemma {:induction false} SumBatchesAtMost(bs: seq<Packed>, m: nat)
    ensures SumBatches(bs, m) <= |bs|
    decreases |bs|
  {
    if bs == [] {
      SumNone(bs, m);
    } else {
      SumBatchesAtMost(bs[..|bs| - 1], m);
      SumOneMore(bs, m);
    }
  }

  lemma {:induction false} SumNone(bs: seq<Packed>, m: nat)
    requires bs == []
    ensures SumBatches(bs, m) == 0
    decreases m
  {
    if m > 0 { SumNone(bs, m - 1); }
  }

  lemma {:induction false} SumOneMore(bs: seq<Packed>, m: nat)
    requires bs != []
    ensures SumBatches(bs, m)
            == SumBatches(bs[..|bs| - 1], m) + if bs[|bs| - 1].simpoint < m then 1 else 0
    decreases m
  {
    if m > 0 { SumOneMore(bs, m - 1); }
  }

  lemma {:induction false} NeedAtMostSum(bs: seq<Packed>, m: nat)
    requires forall i :: 0 <= i < |bs| ==> OneGroup(bs[i])
    ensures Need(Flat(bs), m) <= SumBatches(bs, m)
    decreases m
  {
    if m > 0 {
      NeedAtMostSum(bs, m - 1);
      RoomFor(bs, m - 1);
    }
  }

  /** Whoever packs these instances, with one simpoint and at most 64 lanes a batch, needs at
      least as many batches. */
  lemma {:induction false} NoSmallerPacking(inst: seq<Instance>, bs: seq<Packed>, m: nat)
    requires forall i :: 0 <= i < |bs| ==> OneGroup(bs[i])
    requires multiset(Flat(bs)) == multiset(inst)
    ensures Need(inst, m) <= |bs|
  {
    NeedPermuted(inst, Flat(bs), m);
    NeedAtMostSum(bs, m);
    SumBatchesAtMost(bs, m);
  }

  // ---- the planner ----

  /** The library sort the planner calls, on a copy of the instances. */
  method SortInstances(inst: seq<Instance>) returns (s: seq<Instance>)
    ensures Sorted(s) && multiset(s) == multiset(inst)
  {
    hide Sorted; hide LessEq;
    s := [];
    SortedEmpty();
    for i := 0 to |inst|
      invariant Sorted(s) && multiset(s) == multiset(inst[..i])
    {
      var k := PlaceFor(s, inst[i]);
      InsertKeeps(s, inst[i], k);
      assert inst[..i + 1] == inst[..i] + [inst[i]];
      s := s[..k] + [inst[i]] + s[k..];
    }
    assert inst[..|inst|] == inst;
  }

  lemma {:induction false} SortedEmpty()
    ensures Sorted([])
  {
  }

  /** The place after everything that may come before `x`. */
  method PlaceFor(s: seq<Instance>, x: Instance) returns (k: nat)
    ensures k <= |s| && (forall j :: 0 <= j < k ==> LessEq(s[j], x)) && (k < |s| ==> !LessEq(s[k], x))
  {
    k := 0;
    while k < |s| && LessEq(s[k], x)
      invariant 0 <= k <= |s| && forall j :: 0 <= j < k ==> LessEq(s[j], x)
    {
      k := k + 1;
    }
  }

  lemma {:induction false} InsertKeeps(s: seq<Instance>, x: Instance, k: nat)
    requires Sorted(s) && k <= |s| && (forall j :: 0 <= j < k ==> LessEq(s[j], x)) && (k < |s| ==> !LessEq(s[k], x))
    ensures Sorted(s[..k] + [x] + s[k..])
    ensures multiset(s[..k] + [x] + s[k..]) == multiset(s) + multiset{x}
  {
    assert s == s[..k] + s[k..];
    var r := s[..k] + [x] + s[k..];
    InsertedAt(s, x, k);
    forall i, j | 0 <= i < j < |r|
      ensures LessEq(r[i], r[j])
    {
      InsertedOrder(s, x, k, i, j);
    }
  }

  /** Entry `i` of a list with `x` put in at place `k`. */
  function Inserted(s: seq<Instance>, x: Instance, k: nat, i: nat): Instance
    requires k <= |s| && i <= |s|
  {
    if i < k then s[i] else if i == k then x else s[i - 1]
  }

  lemma {:induction false} InsertedAt(s: seq<Instance>, x: Instance, k: nat)
    requires k <= |s|
    ensures var r := s[..k] + [x] + s[k..]; |r| == |s| + 1 && forall i :: 0 <= i < |r| ==> r[i] == Inserted(s, x, k, i)
  {
  }

  lemma {:induction false} InsertedOrder(s: seq<Instance>, x: Instance, k: nat, i: nat, j: nat)
    requires Sorted(s) && k <= |s| && (forall j :: 0 <= j < k ==> LessEq(s[j], x)) && (k < |s| ==> !LessEq(s[k], x))
    requires i < j <= |s|
    ensures LessEq(Inserted(s, x, k, i), Inserted(s, x, k, j))
  {
    if i == k && j - 1 > k { assert LessEq(s[k], s[j - 1]); }
  }

  function InitialCapacity(n: nat): nat { Ceil(n) + 8 }

  const EMPTY := Packed(0, None, [], W.Zero(), 0)

  /** batch.c:43-57: fill one batch from position `i0`. */
  method FillOne(s: seq<Instance>, i0: nat, nTraces: nat) returns (b: Packed, i: nat)
    requires Sorted(s) && i0 < |s|
    ensures i0 < i <= |s| && b.lanes == s[i0..i] && b.simpoint == s[i0].simpoint && Consistent(b, nTraces)
    ensures |b.lanes| == W.LANES || i == |s| || s[i].simpoint != b.simpoint
  {
    var sp := s[i0].simpoint;
    var mask := W.Zero();
    var l := 0;
    i := i0;
    while i < |s| && s[i].simpoint == sp && l < W.LANES
      invariant i0 <= i <= |s| && l == i - i0 <= W.LANES
      invariant forall k :: i0 <= k < i ==> s[k].simpoint == sp
      invariant mask == W.Low(l)
    {
      mask := W.Or(mask, W.Shl(W.Low(1), l));
      assert mask == W.Low(l + 1);
      l := l + 1;
      i := i + 1;
    }
    b := Packed(sp, if sp < nTraces then Some(sp) else None, s[i0..i], mask, l);
  }

  /** The batches `bs` hold the first `i` sorted instances, as few as can be. */
  ghost predicate Progress(s: seq<Instance>, i: nat, bs: seq<Packed>, nTraces: nat) {
    && i <= |s|
    && Flat(bs) == s[..i]
    && (forall k :: 0 <= k < |bs| ==> Consistent(bs[k], nTraces))
    && (i < |s| ==> Count(s[..i], s[i].simpoint) % W.LANES == 0)
    && forall m :: Below(s, m) ==> |bs| == Need(s[..i], m)
  }

  lemma {:induction false} ProgressStart(s: seq<Instance>, nTraces: nat)
    ensures Progress(s, 0, [], nTraces)
  {
    assert s[..0] == [];
    NeedNothing(s[..0]);
  }

  lemma {:induction false} ProgressStep(s: seq<Instance>, i: nat, next: nat, bs: seq<Packed>, b: Packed, nTraces: nat)
    requires Sorted(s) && Progress(s, i, bs, nTraces) && i < next <= |s|
    requires b.lanes == s[i..next] && b.simpoint == s[i].simpoint && Consistent(b, nTraces)
    requires |b.lanes| == W.LANES || next == |s| || s[next].simpoint != b.simpoint
    ensures Progress(s, next, bs + [b], nTraces)
  {
    forall k | i <= k < next
      ensures s[k].simpoint == b.simpoint
    {
      assert s[k] == b.lanes[k - i];
    }
    FilledMore(s, i, next, b.simpoint);
    FlatSnoc(bs, b);
    assert s[..next] == s[..i] + s[i..next];
  }

  /** batch.c:59-64: twice the room, what was there kept. */
  method Grow(b: array<Packed>) returns (bigger: array<Packed>)
    ensures fresh(bigger) && bigger.Length == 2 * b.Length && bigger[..b.Length] == b[..]
  {
    bigger := new Packed[2 * b.Length](_ => EMPTY);
    for k := 0 to b.Length
      invariant bigger[..k] == b[..k]
    {
      bigger[k] := b[k];
    }
    assert b[..b.Length] == b[..];
  }

  /** The room for `n` batches after doubling whenever the array of `cap` is full. */
  function Room(cap: nat, n: nat): (r: nat)
    requires cap > 0
    ensures r > n && (r == cap <==> n < cap) && r >= cap
    decreases if n < cap then 0 else n - cap + 1
  {
    if n < cap then cap else Room(2 * cap, n)
  }

  /** More batches are needed than the first array has room for, one to spare included. */
  predicate Overfull(inst: seq<Instance>, m: nat) { Need(inst, m) >= InitialCapacity(|inst|) }

  /** The packing of every instance, in sorted order, in as few batches as can be. The array
      grows exactly when the need reaches the first capacity. */
  method Plan(inst: seq<Instance>, nTraces: nat) returns (out: array<Packed>, n: nat)
    ensures n <= out.Length
    ensures inst != [] ==> out.Length == Room(InitialCapacity(|inst|), n)
    ensures inst != [] ==> forall m :: Below(inst, m) ==> (out.Length > InitialCapacity(|inst|) <==> Overfull(inst, m))
    ensures forall k :: 0 <= k < n ==> Consistent(out[k], nTraces)
    ensures multiset(Flat(out[..n])) == multiset(inst) && Sorted(Flat(out[..n]))
    ensures forall m :: Below(inst, m) ==> n == Need(inst, m)
  {
    hide Progress; hide Consistent; hide Need; hide Flat; hide Sorted; hide Room; hide InitialCapacity;
    CapacityPositive(|inst|);
    var s := SortInstances(inst);
    var cap := if |inst| == 0 then 0 else InitialCapacity(|inst|);
    SameLength(s, inst);
    out := new Packed[cap](_ => EMPTY);
    var i := 0;
    n := 0;
    assert out[..0] == [];
    ProgressStart(s, nTraces);
    while i < |s|
      invariant i <= |s| && fresh(out) && n <= out.Length && (|s| > 0 ==> out.Length == Room(InitialCapacity(|s|), n))
      invariant Progress(s, i, out[..n], nTraces)
    {
      ghost var before := out[..n];
      var one, next := FillOne(s, i, nTraces);
      ProgressStep(s, i, next, before, one, nTraces);
      out[n] := one;
      assert out[..n + 1] == before + [one];
      RoomNext(InitialCapacity(|s|), n);
      n := n + 1;
      i := next;
      if n == out.Length {
        ghost var full := out[..n];
        var bigger := Grow(out);
        assert bigger[..n] == full;
        out := bigger;
      }
    }
    PlannedAll(inst, s, out[..n], nTraces);
  }

  lemma {:induction false} CapacityPositive(n: nat)
    ensures InitialCapacity(n) > 0
  {
  }

  /** One batch more: the same room, or twice it when it is used up. */
  lemma {:induction false} RoomNext(cap: nat, n: nat)
    requires cap > 0
    ensures Room(cap, n + 1) == if n + 1 < Room(cap, n) then Room(cap, n) else 2 * Room(cap, n)
    decreases if n < cap then 0 else n - cap + 1
  {
    if n < cap {
      if n + 1 >= cap { assert Room(2 * cap, n + 1) == 2 * cap; }
    } else {
      RoomNext(2 * cap, n);
    }
  }

  lemma {:induction false} SameLength(s: seq<Instance>, t: seq<Instance>)
    requires multiset(s) == multiset(t)
    ensures |s| == |t|
  {
    assert |multiset(s)| == |multiset(t)|;
  }

  lemma {:induction false} FlatSnoc(bs: seq<Packed>, b: Packed)
    ensures Flat(bs + [b]) == Flat(bs) + b.lanes
  {
    assert (bs + [b])[..|bs|] == bs;
  }

  lemma {:induction false} NeedNone(s: seq<Instance>, m: nat)
    requires s == []
    ensures Need(s, m) == 0
    decreases m
  {
    if m > 0 { NeedNone(s, m - 1); }
  }

  lemma {:induction false} NeedNothing(s: seq<Instance>)
    requires s == []
    ensures forall m :: Need(s, m) == 0
  {
    forall m: nat
      ensures Need(s, m) == 0
    {
      NeedNone(s, m);
    }
  }

  /** One filled batch: the need grows by one, and the next simpoint's count is whole again. */
  lemma {:induction false} FilledMore(s: seq<Instance>, i: nat, next: nat, sp: nat)
    requires Sorted(s) && i < next <= |s| && next - i <= W.LANES && s[i].simpoint == sp
    requires forall k :: i <= k < next ==> s[k].simpoint == sp
    requires Count(s[..i], sp) % W.LANES == 0
    requires next - i == W.LANES || next == |s| || s[next].simpoint != sp
    ensures forall m :: Below(s, m) ==> Need(s[..next], m) == Need(s[..i], m) + 1
    ensures next < |s| ==> Count(s[..next], s[next].simpoint) % W.LANES == 0
  {
    var chunk := s[i..next];
    assert s[..next] == s[..i] + chunk;
    forall m | Below(s, m)
      ensures Need(s[..next], m) == Need(s[..i], m) + 1
    {
      NeedChunk(s[..i], chunk, sp, m);
    }
    if next < |s| {
      if s[next].simpoint == sp { FullChunk(s, i, next, sp); } else { NewSimpoint(s, next); }
    }
  }

  /** The lanes were all taken: the count stays whole. */
  lemma {:induction false} FullChunk(s: seq<Instance>, i: nat, next: nat, sp: nat)
    requires i + W.LANES == next <= |s| && forall k :: i <= k < next ==> s[k].simpoint == sp
    requires Count(s[..i], sp) % W.LANES == 0
    ensures Count(s[..next], sp) % W.LANES == 0
  {
    hide Count;
    var chunk := s[i..next];
    assert s[..next] == s[..i] + chunk;
    CountApp(s[..i], chunk, sp);
    forall k | 0 <= k < |chunk|
      ensures chunk[k].simpoint == sp
    {
      assert chunk[k] == s[i + k];
    }
    CountNone(chunk, sp);
  }

  /** In sorted order a simpoint that starts at `next` was not seen before. */
  lemma {:induction false} NewSimpoint(s: seq<Instance>, next: nat)
    requires Sorted(s) && 0 < next < |s| && s[next - 1].simpoint != s[next].simpoint
    ensures Count(s[..next], s[next].simpoint) == 0
  {
    hide Count;
    var q := s[next].simpoint;
    assert LessEq(s[next - 1], s[next]);
    forall k | 0 <= k < next
      ensures s[..next][k].simpoint != q
    {
      if k < next - 1 { assert LessEq(s[k], s[next - 1]); }
    }
    CountNone(s[..next], q);
  }

  lemma {:induction false} PlannedAll(inst: seq<Instance>, s: seq<Instance>, bs: seq<Packed>, nTraces: nat)
    requires multiset(s) == multiset(inst) && Sorted(s) && Progress(s, |s|, bs, nTraces)
    ensures forall k :: 0 <= k < |bs| ==> Consistent(bs[k], nTraces)
    ensures multiset(Flat(bs)) == multiset(inst) && Sorted(Flat(bs))
    ensures forall m :: Below(inst, m) ==> |bs| == Need(inst, m)
  {
    assert s[..|s|] == s;
    forall m | Below(inst, m)
      ensures |bs| == Need(inst, m)
    {
      forall i | 0 <= i < |s|
        ensures s[i].simpoint < m
      {
        assert s[i] in multiset(s);
        assert s[i] in multiset(inst);
      }
      NeedPermuted(s, inst, m);
    }
  }

  /** With one instance for each simpoint the array grows from nine on, although the source
      calls that impossible. */
  lemma {:induction false} DistinctGrowFromNine(inst: seq<Instance>)
    requires forall i :: 0 <= i < |inst| ==> inst[i].simpoint == i
    ensures Below(inst, |inst|) && (Overfull(inst, |inst|) <==> |inst| >= 9)
  {
    NeedDistinct(inst, |inst|);
  }

  lemma {:induction false} NeedDistinct(s: seq<Instance>, m: nat)
    requires m <= |s| && forall i :: 0 <= i < |s| ==> s[i].simpoint == i
    ensures Need(s, m) == m
    decreases m
  {
    hide Count;
    if m > 0 {
      NeedDistinct(s, m - 1);
      OneOfEach(s, m - 1);
    }
  }

  lemma {:induction false} OneOfEach(s: seq<Instance>, k: nat)
    requires k < |s| && forall i :: 0 <= i < |s| ==> s[i].simpoint == i
    ensures Count(s, k) == 1
  {
    hide Count;
    var before, after := s[..k], s[k + 1..];
    assert s == before + [s[k]] + after;
    CountApp(before + [s[k]], after, k);
    CountApp(before, [s[k]], k);
    CountSingle(s[k], k);
    CountNone(before, k);
    CountNone(after, k);
  }
}
