/** What a caller of `bstm_pool_run` may rely on. */
module PoolTheorems {
  import opened PoolProofs
  import opened PoolSpec

  /** Exactly once.  Whenever the caller is outside a run, whatever the interleaving and
      however many runs went before, each batch of the last run has been executed and
      finished exactly once, every deque is empty, and every worker has left the loop. */
  lemma {:induction false} ReturnedRunIsComplete(n: nat, moves: seq<Move>)
    requires n > 0 && Run(n, moves).main == Idle
    ensures var s := Run(n, moves);
            && (forall x: nat :: multiset(s.fin)[x] == if x < s.nb then 1 else 0)
            && (forall v :: 0 <= v < n ==> s.dq[v] == [])
            && (forall w :: 0 <= w < n ==> Out(s, w))
  {
    hide Run; hide Queued; hide Running;
    RunKeeps(n, moves);
    var s := Run(n, moves);
    forall w | 0 <= w < n ensures Out(s, w) && !s.pcs[w].Exec? { }
    forall x: nat ensures multiset(s.fin)[x] == if x < s.nb then 1 else 0 {
      NoneQueued(s.dq, x);
      NoneRunning(s.pcs, x);
      assert Copies(s, x) == if x < s.nb then 1 else 0;
    }
  }

  /** At no time is a batch queued, executing or finished more than once. */
  lemma {:induction false} NeverTwice(n: nat, moves: seq<Move>, x: nat)
    requires n > 0 && Run(n, moves).main != Closed
    ensures Copies(Run(n, moves), x) <= 1
  {
    hide Run; hide Copies;
    RunKeeps(n, moves);
  }

  // ---- no deadlock ----

  /** While a run is open some thread can move without a spurious wake-up: no signal is
      ever lost. */
  lemma {:induction false} NoDeadlock(n: nat, moves: seq<Move>)
    requires n > 0 && Run(n, moves).main != Idle && Run(n, moves).main != Closed
    ensures var s := Run(n, moves);
            CanMove(s, MainStep) || exists w :: 0 <= w < n && CanMove(s, Worker(w))
  {
    hide Run; hide Copies;
    RunKeeps(n, moves);
    var s := Run(n, moves);
    if s.main == Waiting {
      BusyAll(s, n);
      var w :| 0 <= w < n && !Out(s, w);
      assert WorkerOk(s, w);
      assert CanMove(s, Worker(w));
    }
  }

  // ---- every run returns ----

  /** How much a worker still has to do before it leaves an open generation, at most. */
  function Rank(s: Pool, w: nat): nat
    requires Shaped(s) && w < N(s)
  {
    var n := N(s);
    match s.pcs[w]
    case Exited => 0
    case Asleep => 0
    case Gate => if s.mygen[w] == s.generation then 1 else n + 6
    case Quit => 3
    case Steal(k) => if k <= n then 3 + (n - k) else 3
    case Pop => n + 3
    case Exec(_, _) => n + 4
  }

  function Ranks(s: Pool, upto: nat): nat
    requires Shaped(s) && upto <= N(s)
  {
    if upto == 0 then 0 else Ranks(s, upto - 1) + Rank(s, upto - 1)
  }

  function QueueLen(dq: seq<seq<nat>>): nat {
    if dq == [] then 0 else QueueLen(dq[..|dq| - 1]) + |dq[|dq| - 1]|
  }

  function MainRank(s: Pool): nat
    requires Shaped(s)
  {
    var open := N(s) * (N(s) + 6) + 1;
    match s.main
    case Push(i) => open + 1 + (if i <= s.nb then (s.nb - i) * (N(s) + 4) else 0)
    case Start => open
    case Woken => 1
    case _ => 0
  }

  /** An upper bound on the steps left in the current run. */
  function Measure(s: Pool): nat
    requires Shaped(s)
  {
    MainRank(s) + QueueLen(s.dq) * (N(s) + 3) + Ranks(s, N(s))
  }

  lemma {:induction false} QueueLenUpdate(dq: seq<seq<nat>>, v: nat, d: seq<nat>)
    requires v < |dq|
    ensures QueueLen(dq[v := d]) + |dq[v]| == QueueLen(dq) + |d|
    decreases |dq|
  {
    var e := dq[v := d];
    if v == |dq| - 1 {
      assert e[..|e| - 1] == dq[..|dq| - 1];
    } else {
      assert e[..|e| - 1] == dq[..|dq| - 1][v := d];
      assert dq[..|dq| - 1][v] == dq[v] && e[|e| - 1] == dq[|dq| - 1];
      QueueLenUpdate(dq[..|dq| - 1], v, d);
    }
  }

  lemma {:induction false} RanksUpdate(s: Pool, s': Pool, w: nat, upto: nat)
    requires Shaped(s) && Shaped(s') && N(s') == N(s) && upto <= N(s) && w < N(s)
    requires forall k :: 0 <= k < N(s) && k != w ==> Rank(s', k) == Rank(s, k)
    ensures Ranks(s', upto) + (if w < upto then Rank(s, w) else 0) == Ranks(s, upto) + (if w < upto then Rank(s', w) else 0)
    decreases upto
  {
    hide Rank;
    if upto > 0 { RanksUpdate(s, s', w, upto - 1); }
  }

  lemma {:induction false} RanksBelow(s: Pool, upto: nat, m: nat)
    requires Shaped(s) && upto <= N(s)
    requires forall w :: 0 <= w < N(s) ==> Rank(s, w) <= m
    ensures Ranks(s, upto) <= upto * m
    decreases upto
  {
    hide Rank;
    if upto > 0 {
      RanksBelow(s, upto - 1, m);
      assert upto * m == (upto - 1) * m + m;
    }
  }

  lemma {:induction false} RanksSame(s: Pool, s': Pool, upto: nat)
    requires Shaped(s) && Shaped(s') && N(s') == N(s) && upto <= N(s)
    requires s'.pcs == s.pcs && s'.mygen == s.mygen && s'.generation == s.generation
    ensures Ranks(s', upto) == Ranks(s, upto)
    decreases upto
  {
    if upto > 0 { RanksSame(s, s', upto - 1); }
  }

  lemma {:induction false} MainDescends(s: Pool)
    requires Inv(s) && CanMove(s, MainStep)
    ensures Measure(MainMove(s)) < Measure(s)
  {
    hide Copies; hide Busy; hide QueueLen; hide Ranks; hide WorkerOk;
    var s' := MainMove(s);
    var n := N(s);
    match s.main
    case Push(i) =>
      RanksSame(s, s', n);
      if i < s.nb {
        QueueLenUpdate(s.dq, i % n, s.dq[i % n] + [i]);
        assert (s.nb - i) * (n + 4) == (s.nb - (i + 1)) * (n + 4) + (n + 4);
        assert QueueLen(s'.dq) * (n + 3) == QueueLen(s.dq) * (n + 3) + (n + 3);
      }
    case Start =>
      RanksBelow(s', n, n + 6);
      assert s'.dq == s.dq;
    case Woken =>
      RanksSame(s, s', n);
  }

  /** The worker's own share of the measure. */
  lemma {:induction false} RankFalls(s: Pool, w: nat)
    requires Inv(s) && CanMove(s, Worker(w)) && s.main != Closed
    ensures var s' := WorkerMove(s, w);
            && (s'.dq == s.dq ==> Rank(s', w) + MainRank(s') < Rank(s, w) + MainRank(s))
            && Rank(s', w) + MainRank(s') < Rank(s, w) + MainRank(s) + N(s) + 3
            && Shaped(s') && N(s') == N(s)
  {
    hide Copies; hide Busy;
    assert WorkerOk(s, w);
  }

  lemma {:induction false} OthersRank(s: Pool, w: nat)
    requires Shaped(s) && CanMove(s, Worker(w))
    ensures forall k :: 0 <= k < N(s) && k != w ==> Rank(WorkerMove(s, w), k) == Rank(s, k)
  {
  }

  /** A step that changes the queues takes exactly one batch out. */
  lemma {:induction false} OneTaken(s: Pool, w: nat)
    requires Shaped(s) && CanMove(s, Worker(w)) && WorkerMove(s, w).dq != s.dq
    ensures QueueLen(s.dq) == QueueLen(WorkerMove(s, w).dq) + 1
  {
    hide QueueLen;
    var v := if s.pcs[w] == Pop then w else Victim(s, w, s.pcs[w].k);
    QueueLenUpdate(s.dq, v, WorkerMove(s, w).dq[v]);
  }

  lemma {:induction false} WorkerDescends(s: Pool, w: nat)
    requires Inv(s) && CanMove(s, Worker(w)) && s.main != Closed
    ensures Measure(WorkerMove(s, w)) < Measure(s)
  {
    hide LiveInv; hide QueueLen; hide Ranks; hide MainRank; hide Rank; hide WorkerMove;
    var s' := WorkerMove(s, w);
    var n := N(s);
    RankFalls(s, w);
    OthersRank(s, w);
    RanksUpdate(s, s', w, n);
    var q, q' := QueueLen(s.dq), QueueLen(s'.dq);
    if s'.dq != s.dq {
      OneTaken(s, w);
      assert (q' + 1) * (n + 3) == q' * (n + 3) + (n + 3);
    }
  }

  /** Every step of the caller or of a worker brings the run closer to its end, so with
      `NoDeadlock` a run returns unless threads stop being scheduled or wake up
      spuriously without end. */
  lemma {:induction false} EveryStepDescends(n: nat, moves: seq<Move>, m: Move)
    requires n > 0 && Run(n, moves).main != Closed
    requires (m == MainStep || m.Worker?) && CanMove(Run(n, moves), m)
    ensures Measure(Do(Run(n, moves), m)) < Measure(Run(n, moves))
  {
    hide Run; hide Measure; hide MainMove; hide WorkerMove;
    RunKeeps(n, moves);
    if m == MainStep { MainDescends(Run(n, moves)); } else { WorkerDescends(Run(n, moves), m.w); }
  }
}
