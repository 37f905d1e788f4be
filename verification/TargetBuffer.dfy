/** The set-associative target buffer and the bimodal direction table of the front end
    (preprocess/frontend/predictors.hpp), as values. */
module TargetBuffer {
  import opened Arith
  import opened Options
  import opened FrontendSpec

  // ---- the target buffer ----

  datatype Way = Way(valid: bool, tag: nat, entry: FtbEntry, lru: nat)

  /** `e` holds the ways of set 0, then those of set 1, and so on. */
  datatype Btb = Btb(idxBits: nat, ways: nat, slots: nat, e: seq<Way>, clk: nat)

  const EMPTY_ENTRY := FtbEntry([NO_SLOT, NO_SLOT, NO_SLOT, NO_SLOT], [2, 2, 2, 2], 0, false)
  const EMPTY_WAY := Way(false, 0, EMPTY_ENTRY, 0)

  predicate ValidBtb(b: Btb) {
    && b.ways >= 1 && 1 <= b.slots <= MAX_SLOTS
    && |b.e| == Pow2(b.idxBits) * b.ways
    && forall i :: 0 <= i < |b.e| ==> |b.e[i].entry.hint| == MAX_SLOTS
  }

  function Cold(idxBits: nat, ways: nat, slots: nat): (b: Btb)
    requires ways >= 1 && 1 <= slots <= MAX_SLOTS
    ensures ValidBtb(b) && b.slots == slots
  {
    Btb(idxBits, ways, slots, seq(Pow2(idxBits) * ways, _ => EMPTY_WAY), 0)
  }

  /** First slot of the set of `pc`. */
  function Base(b: Btb, pc: nat): (base: nat)
    requires b.ways >= 1 && |b.e| == Pow2(b.idxBits) * b.ways
    ensures base + b.ways <= |b.e|
  {
    var s := pc / 2 % Pow2(b.idxBits);
    MulMono(s + 1, Pow2(b.idxBits), b.ways);
    s * b.ways
  }

  function TagOf(b: Btb, pc: nat): nat { pc / 2 / Pow2(b.idxBits) }

  predicate Matches(w: Way, t: nat) { w.valid && w.tag == t }

  /** The first way from `w` on that holds the tag; the associativity if there is none. */
  function FindTag(b: Btb, base: nat, t: nat, w: nat): (v: nat)
    requires base + b.ways <= |b.e| && w <= b.ways
    ensures w <= v <= b.ways
    ensures v < b.ways ==> Matches(b.e[base + v], t)
    ensures forall k :: base + w <= k < base + v ==> !Matches(b.e[k], t)
    decreases b.ways - w
  {
    if w == b.ways || Matches(b.e[base + w], t) then w else FindTag(b, base, t, w + 1)
  }

  /** A hit refreshes the way. */
  function Lookup(b: Btb, pc: nat): (Btb, Option<FtbEntry>) {
    if b.ways == 0 || |b.e| != Pow2(b.idxBits) * b.ways then (b, None)
    else
      var base := Base(b, pc);
      var w := FindTag(b, base, TagOf(b, pc), 0);
      if w == b.ways then (b, None)
      else (b.(e := b.e[base + w := b.e[base + w].(lru := b.clk + 1)], clk := b.clk + 1), Some(b.e[base + w].entry))
  }

  /** An invalid way if there is one, else the one used longest ago. */
  function Victim(b: Btb, base: nat, v: nat, w: nat): (r: nat)
    requires base + b.ways <= |b.e| && w <= b.ways && v < b.ways
    ensures r < b.ways
    decreases b.ways - w
  {
    if w == b.ways then v
    else if !b.e[base + w].valid then w
    else Victim(b, base, if b.e[base + w].lru < b.e[base + v].lru then w else v, w + 1)
  }

  /** What one execution of a block writes into slot `i`. The trace reader knows a target
      exactly when it is not zero; an unknown one does not replace that of the same branch. */
  function Recorded(x: BrSlot, o: BrSlot): BrSlot {
    o.(valid := true, target := if o.target == 0 && x.valid && x.pc == o.pc then x.target else o.target)
  }

  /** What one execution of a block writes into its entry. */
  function Apply(x: FtbEntry, o: BlkObs, nslots: nat): (r: FtbEntry)
    requires nslots <= MAX_SLOTS && |x.hint| == MAX_SLOTS
    ensures |r.hint| == MAX_SLOTS
    ensures forall i :: 0 <= i < nslots && i < o.nBr ==> r.br[i] == Recorded(x.br[i], o.br[i])
  {
    var seen := if o.nBr < nslots then o.nBr else nslots;
    var br: Slots := seq(MAX_SLOTS, i requires 0 <= i < MAX_SLOTS =>
                         if i < seen then Recorded(x.br[i], o.br[i])
                         else if o.complete && i < nslots then NO_SLOT else x.br[i]);
    var hints := seq(MAX_SLOTS, i requires 0 <= i < MAX_SLOTS =>
                     if i < seen && (!x.br[i].valid || x.br[i].pc != o.br[i].pc)
                     then (if o.takenIdx == Some(i) then 2 else 1) else x.hint[i]);
    var last := if o.takenIdx.Some? then o.takenIdx.value + 1 else seen;
    FtbEntry(br,
             seq(MAX_SLOTS, i requires 0 <= i < MAX_SLOTS =>
                 if i >= last || i >= nslots then hints[i]
                 else if Uncond(br[i].brType) then 3
                 else if o.takenIdx == Some(i) then (if hints[i] < 3 then hints[i] + 1 else hints[i])
                 else if hints[i] > 0 then hints[i] - 1 else 0),
             if o.fallthruValid then o.fallthru else x.fallthru,
             o.fallthruValid || x.fallthruValid)
  }

  function Update(b: Btb, pc: nat, o: BlkObs): Btb
    requires ValidBtb(b)
  {
    var base, t := Base(b, pc), TagOf(b, pc);
    var f := FindTag(b, base, t, 0);
    var v := if f < b.ways then f else Victim(b, base, 0, 0);
    var prev := if f < b.ways then b.e[base + v].entry else EMPTY_ENTRY;
    b.(e := b.e[base + v := Way(true, t, Apply(prev, o, b.slots), b.clk + 1)], clk := b.clk + 1)
  }

  lemma {:induction false} LookupKeeps(b: Btb, pc: nat)
    requires ValidBtb(b)
    ensures ValidBtb(Lookup(b, pc).0) && Lookup(b, pc).0.slots == b.slots
  {
  }

  lemma {:induction false} UpdateKeeps(b: Btb, pc: nat, o: BlkObs)
    requires ValidBtb(b)
    ensures ValidBtb(Update(b, pc, o)) && Update(b, pc, o).slots == b.slots
  {
  }

  /** Whatever the buffer held, a block just written is found again, with what was written. */
  lemma {:induction false} FoundAfterUpdate(b: Btb, pc: nat, o: BlkObs)
    requires ValidBtb(b)
    ensures var x := Lookup(b, pc).1;
      Lookup(Update(b, pc, o), pc).1 == Some(Apply(if x.Some? then x.value else EMPTY_ENTRY, o, b.slots))
  {
    hide Apply; hide Pow2; hide Base;
    UpdateKeeps(b, pc, o);
    var base, t := Base(b, pc), TagOf(b, pc);
    var f := FindTag(b, base, t, 0);
    var v := if f < b.ways then f else Victim(b, base, 0, 0);
    SameBase(b, Update(b, pc, o), pc);
    FirstMatch(Update(b, pc, o), base, t, v);
  }

  ghost predicate NothingHeld(b: Btb) { forall i :: 0 <= i < |b.e| ==> !b.e[i].valid }

  lemma {:induction false} NothingFound(b: Btb, pc: nat)
    requires NothingHeld(b)
    ensures Lookup(b, pc) == (b, None)
  {
  }

  /** A buffer with one block in it finds no other. */
  lemma {:induction false} OtherNotFound(b: Btb, pc: nat, o: BlkObs, q: nat)
    requires ValidBtb(b) && NothingHeld(b) && q / 2 != pc / 2
    ensures Lookup(Update(b, pc, o), q).1 == None
  {
    hide Apply; hide Base; hide TagOf;
    var c := Update(b, pc, o);
    UpdateKeeps(b, pc, o);
    var base, t := Base(b, pc), TagOf(b, pc);
    var v := Victim(b, base, 0, 0);
    SameBase(b, c, pc);
    SameBase(b, c, q);
    var w := FindTag(c, Base(c, q), TagOf(c, q), 0);
    if w < c.ways {
      assert c.e[Base(c, q) + w].valid;
      assert Base(b, q) + w == base + v && TagOf(b, q) == t;
      PlaceIs(b, pc, q, v, w);
    }
  }

  /** The set and the tag together are the address. */
  lemma {:induction false} PlaceIs(b: Btb, p: nat, q: nat, v: nat, w: nat)
    requires ValidBtb(b) && v < b.ways && w < b.ways
    requires Base(b, p) + v == Base(b, q) + w && TagOf(b, p) == TagOf(b, q)
    ensures p / 2 == q / 2
  {
    hide Pow2;
    var n := Pow2(b.idxBits);
    var x, y := p / 2, q / 2;
    QuotientIs(Base(b, p) + v, b.ways, x % n, v);
    QuotientIs(Base(b, q) + w, b.ways, y % n, w);
    assert x == x / n * n + x % n && y == y / n * n + y % n;
  }

  /** A branch whose target was once known is never sent to an unknown one. */
  lemma {:induction false} TargetRemembered(b: Btb, pc: nat, o: BlkObs, i: nat)
    requires ValidBtb(b) && i < b.slots && i < o.nBr
    requires var x := Lookup(b, pc).1; x.Some? && x.value.br[i].valid && x.value.br[i].pc == o.br[i].pc
    ensures var x, y := Lookup(b, pc).1, Lookup(Update(b, pc, o), pc).1;
      y.Some? && y.value.br[i].valid && y.value.br[i].pc == o.br[i].pc
      && y.value.br[i].target == if o.br[i].target != 0 then o.br[i].target else x.value.br[i].target
  {
    hide Lookup; hide Update; hide Apply;
    FoundAfterUpdate(b, pc, o);
  }

  lemma {:induction false} SameBase(b: Btb, b': Btb, pc: nat)
    requires b.ways == b'.ways >= 1 && b.idxBits == b'.idxBits && |b.e| == |b'.e| == Pow2(b.idxBits) * b.ways
    ensures Base(b', pc) == Base(b, pc) && TagOf(b', pc) == TagOf(b, pc)
  {
  }

  lemma {:induction false} FirstMatch(b: Btb, base: nat, t: nat, v: nat)
    requires base + b.ways <= |b.e| && v < b.ways && Matches(b.e[base + v], t)
    requires forall k :: base <= k < base + v ==> !Matches(b.e[k], t)
    ensures FindTag(b, base, t, 0) == v
  {
    var f := FindTag(b, base, t, 0);
  }

  // ---- which way is replaced ----

  /** The place given up for a new block: the first of the set that holds nothing, or else the
      one whose mark is lowest, the first of them on a tie. */
  ghost predicate GivenUp(b: Btb, base: nat, i: nat)
    requires base + b.ways <= |b.e|
  {
    && base <= i < base + b.ways
    && if exists k :: base <= k < base + b.ways && !b.e[k].valid
       then !b.e[i].valid && forall k :: base <= k < i ==> b.e[k].valid
       else
         && (forall k :: base <= k < base + b.ways ==> b.e[i].lru <= b.e[k].lru)
         && forall k :: base <= k < i ==> b.e[i].lru < b.e[k].lru
  }

  lemma {:induction false} VictimFrom(b: Btb, base: nat, v: nat, w: nat)
    requires base + b.ways <= |b.e| && w <= b.ways && v < b.ways && (v < w || v == w == 0)
    requires forall k :: base <= k < base + w ==> b.e[k].valid && b.e[base + v].lru <= b.e[k].lru
    requires forall k :: base <= k < base + v ==> b.e[base + v].lru < b.e[k].lru
    ensures GivenUp(b, base, base + Victim(b, base, v, w))
    decreases b.ways - w
  {
    if w < b.ways && b.e[base + w].valid {
      VictimFrom(b, base, if b.e[base + w].lru < b.e[base + v].lru then w else v, w + 1);
    }
  }

  /** Every mark is the time of the last use. */
  predicate Clocked(b: Btb) { forall i :: 0 <= i < |b.e| ==> b.e[i].lru <= b.clk }

  /** Place of a block in the buffer, if it is held. */
  function PlaceOf(b: Btb, pc: nat): Option<nat>
    requires ValidBtb(b)
  {
    var w := FindTag(b, Base(b, pc), TagOf(b, pc), 0);
    if w < b.ways then Some(Base(b, pc) + w) else None
  }

  /** A block that is looked up and found becomes the one used last. */
  lemma {:induction false} FoundIsNewest(b: Btb, pc: nat)
    requires ValidBtb(b) && Clocked(b)
    ensures var c := Lookup(b, pc).0;
            && Clocked(c)
            && (PlaceOf(b, pc).None? ==> c == b)
            && (PlaceOf(b, pc).Some? ==>
                  var i := PlaceOf(b, pc).value;
                  forall k :: 0 <= k < |c.e| && k != i ==> c.e[k] == b.e[k] && c.e[k].lru < c.e[i].lru)
  {
    hide Pow2; hide Base; hide TagOf;
  }

  lemma {:induction false} MarkedNewest(b: Btb, c: Btb, i: nat)
    requires Clocked(b) && i < |b.e| && |c.e| == |b.e| && c.e == b.e[i := c.e[i]]
    requires c.clk == c.e[i].lru == b.clk + 1
    ensures Clocked(c)
    ensures forall k :: 0 <= k < |c.e| && k != i ==> c.e[k] == b.e[k] && c.e[k].lru < c.e[i].lru
  {
  }

  /** Where a block is written. */
  function WritePlace(b: Btb, pc: nat): (i: nat)
    requires ValidBtb(b)
    ensures i < |b.e|
  {
    var f := FindTag(b, Base(b, pc), TagOf(b, pc), 0);
    Base(b, pc) + (if f < b.ways then f else Victim(b, Base(b, pc), 0, 0))
  }

  lemma {:induction false} PlaceWritten(b: Btb, pc: nat, o: BlkObs)
    requires ValidBtb(b)
    ensures ValidBtb(Update(b, pc, o)) && PlaceOf(Update(b, pc, o), pc) == Some(WritePlace(b, pc))
    ensures PlaceOf(b, pc).Some? ==> WritePlace(b, pc) == PlaceOf(b, pc).value
    ensures PlaceOf(b, pc).None? ==> GivenUp(b, Base(b, pc), WritePlace(b, pc))
  {
    hide Apply; hide Pow2; hide Base; hide GivenUp; hide Victim; hide TagOf;
    UpdateKeeps(b, pc, o);
    VictimFrom(b, Base(b, pc), 0, 0);
    SameBase(b, Update(b, pc, o), pc);
    FirstMatch(Update(b, pc, o), Base(b, pc), TagOf(b, pc), WritePlace(b, pc) - Base(b, pc));
  }

  /** A block that is written becomes the one used last, in the place it had or in the one that
      is given up for it. */
  lemma {:induction false} WrittenIsNewest(b: Btb, pc: nat, o: BlkObs)
    requires ValidBtb(b) && Clocked(b)
    ensures var c := Update(b, pc, o);
            && Clocked(c) && ValidBtb(c) && PlaceOf(c, pc).Some?
            && var i := PlaceOf(c, pc).value;
               && (forall k :: 0 <= k < |c.e| && k != i ==> c.e[k] == b.e[k] && c.e[k].lru < c.e[i].lru)
               && (PlaceOf(b, pc).Some? ==> i == PlaceOf(b, pc).value)
               && (PlaceOf(b, pc).None? ==> GivenUp(b, Base(b, pc), i))
  {
    hide Apply; hide Base; hide GivenUp; hide Victim; hide TagOf; hide PlaceOf; hide Clocked; hide FindTag; hide ValidBtb;
    PlaceWritten(b, pc, o);
    MarkedNewest(b, Update(b, pc, o), WritePlace(b, pc));
  }

  /** Main theorem on replacement.  Writing a block leaves every other block findable with the
      entry it had, but for one case: the new block was not held, its set was full, and the
      other one was the block of that set used longest ago. */
  lemma {:induction false} OnlyOldestLost(b: Btb, pc: nat, o: BlkObs, q: nat)
    requires ValidBtb(b) && q / 2 != pc / 2 && PlaceOf(b, q).Some?
    ensures var c := Update(b, pc, o); var i := PlaceOf(b, q).value;
            && ValidBtb(c)
            && (Lookup(c, q).1 == Lookup(b, q).1
                || (PlaceOf(b, pc).None? && Base(b, q) == Base(b, pc)
                    && forall k :: Base(b, q) <= k < Base(b, q) + b.ways ==> b.e[k].valid && b.e[i].lru <= b.e[k].lru))
  {
    hide Apply; hide Pow2; hide Base; hide TagOf; hide Victim; hide Lookup;
    var c := Update(b, pc, o);
    UpdateKeeps(b, pc, o);
    var base, t := Base(b, pc), TagOf(b, pc);
    var f := FindTag(b, base, t, 0);
    var v := if f < b.ways then f else Victim(b, base, 0, 0);
    var w := FindTag(b, Base(b, q), TagOf(b, q), 0);
    SameBase(b, c, q);
    if Base(b, q) + w != base + v {
      KeptElsewhere(b, c, pc, q, v, w);
    } else {
      if f < b.ways { PlaceIs(b, pc, q, v, w); }
      SetIs(b, pc, q, v, w);
      VictimFrom(b, base, 0, 0);
    }
  }

  /** A block in another place than the one written is found as before. */
  lemma {:induction false} KeptElsewhere(b: Btb, c: Btb, pc: nat, q: nat, v: nat, w: nat)
    requires ValidBtb(b) && ValidBtb(c) && c == b.(e := c.e, clk := c.clk) && q / 2 != pc / 2
    requires v < b.ways && w == FindTag(b, Base(b, q), TagOf(b, q), 0) < b.ways && Base(b, q) + w != Base(b, pc) + v
    requires |c.e| == |b.e| && c.e[Base(b, pc) + v].tag == TagOf(b, pc)
    requires forall k :: 0 <= k < |b.e| && k != Base(b, pc) + v ==> c.e[k] == b.e[k]
    ensures Lookup(c, q).1 == Lookup(b, q).1
  {
    hide Pow2; hide Base; hide TagOf;
    SameBase(b, c, q);
    forall k | Base(b, q) <= k < Base(b, q) + w ensures !Matches(c.e[k], TagOf(b, q)) {
      if k == Base(b, pc) + v && TagOf(b, q) == TagOf(b, pc) { PlaceIs(b, pc, q, v, k - Base(b, q)); }
    }
    FirstMatch(c, Base(b, q), TagOf(b, q), w);
  }

  /** A place belongs to one set. */
  lemma {:induction false} SetIs(b: Btb, p: nat, q: nat, v: nat, w: nat)
    requires ValidBtb(b) && v < b.ways && w < b.ways && Base(b, p) + v == Base(b, q) + w
    ensures Base(b, p) == Base(b, q) && v == w
  {
    hide Pow2;
    QuotientIs(Base(b, p) + v, b.ways, p / 2 % Pow2(b.idxBits), v);
    QuotientIs(Base(b, q) + w, b.ways, q / 2 % Pow2(b.idxBits), w);
  }

  // ---- what is written ----

  /** The hint of slot `i` after one execution.  A branch new to the slot starts weakly on the
      side it went to; each executed branch then moves one step to the side it went to, and an
      executed jump, call or return is always strongly taken.  Slots behind the taken one are
      not executed. */
  lemma {:induction false} HintAfter(x: FtbEntry, o: BlkObs, nslots: nat, i: nat)
    requires nslots <= MAX_SLOTS && |x.hint| == MAX_SLOTS && i < nslots && i < o.nBr
    ensures var h := Apply(x, o, nslots).hint[i];
            var seenBefore := x.br[i].valid && x.br[i].pc == o.br[i].pc;
            var was := if seenBefore then x.hint[i] else if o.takenIdx == Some(i) then 2 else 1;
            h == (if o.takenIdx.Some? && i > o.takenIdx.value then was
                  else if o.br[i].brType != 0 && o.br[i].brType != 7 then 3
                  else if o.takenIdx == Some(i) then (if was >= 3 then was else was + 1)
                  else if was == 0 then 0 else was - 1)
  {
    var r := Apply(x, o, nslots);
    assert r.br[i] == Recorded(x.br[i], o.br[i]);
    assert Uncond(r.br[i].brType) == (o.br[i].brType != 0 && o.br[i].brType != 7);
  }

  /** The branches and the fall-through after one execution: every recorded branch replaces its
      slot, an execution that saw the whole block clears the slots behind, and a fall-through
      is replaced by a known one only. */
  lemma {:induction false} EntryAfter(x: FtbEntry, o: BlkObs, nslots: nat, i: nat)
    requires nslots <= MAX_SLOTS && |x.hint| == MAX_SLOTS && i < MAX_SLOTS
    ensures var r := Apply(x, o, nslots);
            && (i < nslots && i < o.nBr ==>
                  && r.br[i].valid && r.br[i].pc == o.br[i].pc && r.br[i].brType == o.br[i].brType
                  && r.br[i].target == (if o.br[i].target == 0 && x.br[i].valid && x.br[i].pc == o.br[i].pc
                                        then x.br[i].target else o.br[i].target))
            && (i >= nslots || (i >= o.nBr && !o.complete) ==> r.br[i] == x.br[i])
            && (o.nBr <= i < nslots && o.complete ==> !r.br[i].valid)
            && r.fallthru == (if o.fallthruValid then o.fallthru else x.fallthru)
            && r.fallthruValid == (o.fallthruValid || x.fallthruValid)
  {
  }

  // ---- the direction table of a TAGE without tagged components ----

  /** Saturating counters that predict taken from `thr` on; `tick` counts the updates. */
  datatype Bimodal = Bimodal(ctr: seq<nat>, max: nat, thr: nat, tick: int)

  predicate ValidBimodal(l: Bimodal) { |l.ctr| > 0 && l.thr <= l.max }

  function Direction(l: Bimodal, pc: nat): bool { |l.ctr| > 0 && l.ctr[pc / 2 % |l.ctr|] >= l.thr }

  /** The counter of a branch. */
  function Counter(l: Bimodal, pc: nat): nat { if |l.ctr| > 0 then l.ctr[pc / 2 % |l.ctr|] else 0 }

  function Train(l: Bimodal, pc: nat, taken: bool): Bimodal {
    if |l.ctr| == 0 then l.(tick := l.tick + 1)
    else
      var i := pc / 2 % |l.ctr|;
      var c := l.ctr[i];
      l.(ctr := l.ctr[i := if taken then (if c < l.max then c + 1 else c) else if c > 0 then c - 1 else 0],
         tick := l.tick + 1)
  }

  /** Every counter starts weakly taken. */
  function ColdBimodal(indexBits: nat, ctrBits: nat): (l: Bimodal)
    requires ctrBits >= 1
    ensures ValidBimodal(l) && forall pc :: Direction(l, pc)
  {
    var half := Pow2(ctrBits - 1);
    Bimodal(seq(Pow2(indexBits), _ => half), 2 * half - 1, half, 0)
  }

  /** No counter of `m` is above that of `l`. */
  ghost predicate AtMost(m: Bimodal, l: Bimodal) {
    |m.ctr| == |l.ctr| && forall i :: 0 <= i < |l.ctr| ==> m.ctr[i] <= l.ctr[i]
  }

  lemma {:induction false} CounterAtMost(m: Bimodal, l: Bimodal, pc: nat)
    requires AtMost(m, l)
    ensures Counter(m, pc) <= Counter(l, pc)
  {
  }

  /** Training "not taken" lowers the counter of the branch and no other. */
  lemma {:induction false} TrainedDown(l: Bimodal, pc: nat)
    ensures AtMost(Train(l, pc, false), l)
    ensures Counter(Train(l, pc, false), pc) == if Counter(l, pc) > 0 then Counter(l, pc) - 1 else 0
  {
  }

  /** Training "taken" raises the counter of the branch, up to the largest, and that of no
      branch with another counter. */
  lemma {:induction false} TrainedUp(l: Bimodal, pc: nat, q: nat)
    requires |l.ctr| > 0
    ensures Counter(Train(l, pc, true), pc) == if Counter(l, pc) < l.max then Counter(l, pc) + 1 else Counter(l, pc)
    ensures q / 2 % |l.ctr| != pc / 2 % |l.ctr| ==> Counter(Train(l, pc, true), q) == Counter(l, q)
  {
  }
}
