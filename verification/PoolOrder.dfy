/** Who executes what in the work-stealing pool (lib/runtime/pool.c:28-53, 84-102, 161): how
    batches are dealt, which end of a deque is taken, and whom a thief robs. */
module PoolOrder {
  import opened Arith
  import opened PoolProofs
  import opened PoolSpec

  /** The worker a batch is dealt to. */
  function Owner(i: nat, n: nat): nat
    requires n > 0
  {
    i % n
  }

  /** A deque of worker `v`: batches dealt to it, in the order they were pushed. */
  ghost predicate DealtTo(d: seq<nat>, v: nat, n: nat, below: nat)
    requires n > 0
  {
    && (forall i :: 0 <= i < |d| ==> Owner(d[i], n) == v && d[i] < below)
    && forall i, j :: 0 <= i < j < |d| ==> d[i] < d[j]
  }

  /** A batch of `d`, and how it compares with the others there. */
  ghost predicate Newest(d: seq<nat>, x: nat) { x in d && forall y :: y in d ==> y <= x }
  ghost predicate Oldest(d: seq<nat>, x: nat) { x in d && forall y :: y in d ==> x <= y }

  /** No batch from here on has been pushed yet. */
  function Horizon(s: Pool): nat { if s.main.Push? && s.main.i < s.nb then s.main.i else s.nb }

  ghost predicate WorkerDealt(s: Pool, w: nat)
    requires Shaped(s) && w < N(s)
  {
    match s.pcs[w]
    case Steal(k) => 1 <= k < N(s)
    case Exec(idx, stolen) => stolen <==> Owner(idx, N(s)) != w
    case _ => true
  }

  ghost predicate Dealt(s: Pool) {
    && Shaped(s)
    && (forall v :: 0 <= v < N(s) ==> DealtTo(s.dq[v], v, N(s), Horizon(s)))
    && forall w :: 0 <= w < N(s) ==> WorkerDealt(s, w)
  }

  lemma {:induction false} VictimIs(s: Pool, w: nat, k: nat)
    requires w < N(s) && k < N(s)
    ensures Victim(s, w, k) == if w + k < N(s) then w + k else w + k - N(s)
  {
    var n := N(s);
    if w + k < n { QuotientIs(w + k, n, 0, w + k); } else { QuotientIs(w + k, n, 1, w + k - n); }
  }

  lemma {:induction false} BeginDealt(s: Pool, nb: nat)
    requires Dealt(s) && s.main == Idle && forall v :: 0 <= v < N(s) ==> s.dq[v] == []
    ensures Dealt(Do(s, Begin(nb)))
  {
    var s' := Do(s, Begin(nb));
    forall w | 0 <= w < N(s) ensures WorkerDealt(s', w) { assert WorkerDealt(s, w); }
  }

  lemma {:induction false} MainDealt(s: Pool)
    requires Dealt(s) && CanMove(s, MainStep)
    ensures Dealt(MainMove(s))
  {
    var s' := MainMove(s);
    forall w | 0 <= w < N(s) ensures WorkerDealt(s', w) { assert WorkerDealt(s, w); }
    forall v | 0 <= v < N(s) ensures DealtTo(s'.dq[v], v, N(s), Horizon(s')) {
      assert DealtTo(s.dq[v], v, N(s), Horizon(s));
    }
  }

  /** Taking a batch off either end keeps the order; the ends are the newest and the oldest. */
  lemma {:induction false} DealtEnds(d: seq<nat>, v: nat, n: nat, below: nat)
    requires n > 0 && DealtTo(d, v, n, below) && d != []
    ensures DealtTo(d[1..], v, n, below) && DealtTo(d[..|d| - 1], v, n, below)
    ensures Owner(d[0], n) == v && Owner(d[|d| - 1], n) == v
    ensures Newest(d, d[|d| - 1]) && Oldest(d, d[0])
    ensures multiset(d[..|d| - 1]) == multiset(d) - multiset{d[|d| - 1]}
    ensures multiset(d[1..]) == multiset(d) - multiset{d[0]}
  {
    DealtPart(d, v, n, below, 1, |d|);
    DealtPart(d, v, n, below, 0, |d| - 1);
    assert d[1..|d|] == d[1..] && d[0..|d| - 1] == d[..|d| - 1];
    EndsOrdered(d, v, n, below);
    hide DealtTo; hide Owner; hide Newest; hide Oldest;
    EndsTaken(d);
  }

  lemma {:induction false} DealtPart(d: seq<nat>, v: nat, n: nat, below: nat, lo: nat, hi: nat)
    requires n > 0 && DealtTo(d, v, n, below) && lo <= hi <= |d|
    ensures DealtTo(d[lo..hi], v, n, below)
  {
    hide Owner;
  }

  lemma {:induction false} EndsOrdered(d: seq<nat>, v: nat, n: nat, below: nat)
    requires n > 0 && DealtTo(d, v, n, below) && d != []
    ensures Newest(d, d[|d| - 1]) && Oldest(d, d[0])
    ensures Owner(d[0], n) == v && Owner(d[|d| - 1], n) == v
  {
    hide Owner;
  }

  lemma {:induction false} EndsTaken(d: seq<nat>)
    requires d != []
    ensures multiset(d[..|d| - 1]) == multiset(d) - multiset{d[|d| - 1]}
    ensures multiset(d[1..]) == multiset(d) - multiset{d[0]}
  {
    assert d == d[..|d| - 1] + [d[|d| - 1]];
    assert d == [d[0]] + d[1..];
  }

  /** Which deque a worker looks at. */
  function Target(s: Pool, w: nat): (v: nat)
    requires Shaped(s) && w < N(s)
    ensures v < N(s)
  {
    if s.pcs[w].Steal? then Victim(s, w, s.pcs[w].k) else w
  }

  /** A look into a deque: the batch at the end that is the worker's, if there is one. */
  lemma {:induction false} Looks(s: Pool, w: nat)
    requires Shaped(s) && w < N(s) && (s.pcs[w] == Pop || s.pcs[w].Steal?)
    ensures var v := Target(s, w); var d := s.dq[v]; var own := s.pcs[w] == Pop;
            WorkerMove(s, w)
            == if d == [] then s.(pcs := s.pcs[w := NextTry(s, if own then 1 else s.pcs[w].k + 1)])
               else s.(dq := s.dq[v := if own then d[..|d| - 1] else d[1..]],
                       pcs := s.pcs[w := Exec(if own then d[|d| - 1] else d[0], !own)])
  {
    hide Victim;
  }

  /** A step that changes one worker and at most one deque, to a part of itself. */
  lemma {:induction false} OneDealt(s: Pool, s': Pool, w: nat, v: nat, d: seq<nat>)
    requires Dealt(s) && w < N(s) && v < N(s) && |s'.pcs| == N(s) && |s'.mygen| == N(s)
    requires s'.pcs == s.pcs[w := s'.pcs[w]] && s'.dq == s.dq[v := d] && Horizon(s') == Horizon(s)
    requires DealtTo(d, v, N(s), Horizon(s)) && WorkerDealt(s', w)
    ensures Dealt(s')
  {
    hide DealtTo; hide Owner; hide Horizon;
    forall u | 0 <= u < N(s) ensures WorkerDealt(s', u) { assert WorkerDealt(s, u); }
  }

  lemma {:induction false} WorkerMoveDealt(s: Pool, w: nat)
    requires Dealt(s) && CanMove(s, Worker(w))
    ensures Dealt(WorkerMove(s, w))
  {
    hide DealtTo; hide Newest; hide Oldest; hide Victim; hide Owner; hide Dealt;
    DealtAt(s, w, w);
    var s', v := WorkerMove(s, w), Target(s, w);
    DealtAt(s, w, v);
    if s.pcs[w] == Pop || s.pcs[w].Steal? {
      if s.pcs[w].Steal? { VictimIs(s, w, s.pcs[w].k); }
      if s.dq[v] != [] { DealtEnds(s.dq[v], v, N(s), Horizon(s)); }
      Looks(s, w);
      hide WorkerMove;
    }
    OneDealt(s, s', w, v, s'.dq[v]);
  }

  lemma {:induction false} DealtAt(s: Pool, w: nat, v: nat)
    requires Dealt(s) && w < N(s) && v < N(s)
    ensures Shaped(s) && WorkerDealt(s, w) && DealtTo(s.dq[v], v, N(s), Horizon(s))
  {
  }

  lemma {:induction false} StepDealt(s: Pool, m: Move)
    requires Dealt(s) && Inv(s) && CanMove(s, m)
    ensures Dealt(Do(s, m))
  {
    hide Copies; hide MainMove; hide WorkerMove; hide DealtTo;
    match m
    case Begin(nb) => BeginDealt(s, nb);
    case MainStep => MainDealt(s);
    case Worker(w) => WorkerMoveDealt(s, w);
    case _ =>
      var s' := Do(s, m);
      forall w | 0 <= w < N(s) ensures WorkerDealt(s', w) { assert WorkerDealt(s, w); }
  }

  lemma {:induction false} RunDealt(n: nat, moves: seq<Move>)
    requires n > 0
    ensures Dealt(Run(n, moves))
    decreases |moves|
  {
    hide Do; hide Inv; hide CanMove;
    if moves == [] {
      var s := Init(n);
      forall w | 0 <= w < n ensures WorkerDealt(s, w) { }
    } else {
      var p := moves[..|moves| - 1];
      RunDealt(n, p);
      RunKeeps(n, p);
      if CanMove(Run(n, p), moves[|moves| - 1]) { StepDealt(Run(n, p), moves[|moves| - 1]); }
    }
  }

  /** Main theorem on the order.  Whatever the interleaving, a batch being executed counts as
      stolen exactly if it was dealt to another worker, batch i being dealt to worker i mod n. */
  lemma {:induction false} StolenIffNotDealt(n: nat, moves: seq<Move>, w: nat)
    requires n > 0 && w < n && Run(n, moves).pcs[w].Exec?
    ensures var x := Run(n, moves).pcs[w]; x.stolen <==> x.idx % n != w
  {
    hide Run;
    RunDealt(n, moves);
    assert WorkerDealt(Run(n, moves), w);
  }

  /** What a worker takes when it looks into the deque of worker `v`: from its own the newest
      batch, from another the oldest; if there is none it tries the next worker, and leaves
      when it has tried them all.  Nothing else is touched. */
  ghost predicate TakesEnd(s: Pool, w: nat, k: nat, v: nat, s': Pool)
    requires Shaped(s) && w < N(s) && v < N(s)
  {
    && |s'.pcs| == N(s) && |s'.dq| == N(s)
    && (if s.dq[v] == [] then
          s'.dq == s.dq && s'.pcs == s.pcs[w := if k + 1 < N(s) then Steal(k + 1) else Quit]
        else
          && s'.pcs[w].Exec? && s'.pcs == s.pcs[w := s'.pcs[w]] && s'.dq == s.dq[v := s'.dq[v]]
          && (if k == 0 then Newest(s.dq[v], s'.pcs[w].idx) else Oldest(s.dq[v], s'.pcs[w].idx))
          && multiset(s'.dq[v]) == multiset(s.dq[v]) - multiset{s'.pcs[w].idx})
  }

  lemma {:induction false} LooksAtEnd(s: Pool, w: nat)
    requires Dealt(s) && w < N(s) && (s.pcs[w] == Pop || s.pcs[w].Steal?)
    ensures TakesEnd(s, w, if s.pcs[w] == Pop then 0 else s.pcs[w].k, Target(s, w), WorkerMove(s, w))
  {
    hide DealtTo; hide Newest; hide Oldest; hide Victim; hide Owner; hide WorkerMove; hide Dealt; hide TakesEnd;
    DealtAt(s, w, w);
    var v := Target(s, w);
    DealtAt(s, w, v);
    Looks(s, w);
    var d, own := s.dq[v], s.pcs[w] == Pop;
    var k := if own then 0 else s.pcs[w].k;
    if d == [] {
      FindsNone(s, w, k, v);
    } else {
      DealtEnds(d, v, N(s), Horizon(s));
      FindsOne(s, w, k, v, if own then d[..|d| - 1] else d[1..], if own then d[|d| - 1] else d[0], !own);
    }
  }

  lemma {:induction false} FindsNone(s: Pool, w: nat, k: nat, v: nat)
    requires Shaped(s) && w < N(s) && v < N(s) && s.dq[v] == []
    ensures TakesEnd(s, w, k, v, s.(pcs := s.pcs[w := NextTry(s, k + 1)]))
  {
  }

  lemma {:induction false} FindsOne(s: Pool, w: nat, k: nat, v: nat, rest: seq<nat>, x: nat, stolen: bool)
    requires Shaped(s) && w < N(s) && v < N(s) && s.dq[v] != []
    requires if k == 0 then Newest(s.dq[v], x) else Oldest(s.dq[v], x)
    requires multiset(rest) == multiset(s.dq[v]) - multiset{x}
    ensures TakesEnd(s, w, k, v, s.(dq := s.dq[v := rest], pcs := s.pcs[w := Exec(x, stolen)]))
  {
    hide Newest; hide Oldest;
  }

  /** In every reachable state a worker about to pop looks into its own deque, and a thief at
      its `k`-th try into that of the `k`-th worker after it, counted round. */
  lemma {:induction false} TakesFromItsEnd(n: nat, moves: seq<Move>, w: nat)
    requires n > 0 && w < n && (Run(n, moves).pcs[w] == Pop || Run(n, moves).pcs[w].Steal?)
    ensures var s := Run(n, moves); var k := if s.pcs[w] == Pop then 0 else s.pcs[w].k;
            k < n && TakesEnd(s, w, k, if w + k < n then w + k else w + k - n, Do(s, Worker(w)))
  {
    hide Run; hide TakesEnd; hide WorkerMove; hide Dealt; hide Victim;
    RunDealt(n, moves);
    var s := Run(n, moves);
    DealtAt(s, w, w);
    VictimIs(s, w, if s.pcs[w] == Pop then 0 else s.pcs[w].k);
    LooksAtEnd(s, w);
  }
}
