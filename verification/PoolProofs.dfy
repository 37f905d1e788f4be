/** Every interleaving runs every batch exactly once, and the caller never waits forever. */
module PoolProofs {
  import opened PoolSpec

  // ---- where the batches are ----

  /** Copies of batch `x` waiting in the deques. */
  function Queued(dq: seq<seq<nat>>, x: nat): nat {
    if dq == [] then 0 else Queued(dq[..|dq| - 1], x) + multiset(dq[|dq| - 1])[x]
  }

  function InHand(pc: Pc, x: nat): nat { if pc.Exec? && pc.idx == x then 1 else 0 }

  /** Workers executing batch `x`. */
  function Running(pcs: seq<Pc>, x: nat): nat {
    if pcs == [] then 0 else Running(pcs[..|pcs| - 1], x) + InHand(pcs[|pcs| - 1], x)
  }

  /** Copies of batch `x` queued, executing or finished. */
  function Copies(s: Pool, x: nat): nat {
    Queued(s.dq, x) + Running(s.pcs, x) + multiset(s.fin)[x]
  }

  lemma {:induction false} QueuedUpdate(dq: seq<seq<nat>>, v: nat, d: seq<nat>, x: nat)
    requires v < |dq|
    ensures Queued(dq[v := d], x) + multiset(dq[v])[x] == Queued(dq, x) + multiset(d)[x]
    decreases |dq|
  {
    var e := dq[v := d];
    if v == |dq| - 1 {
      assert e[..|e| - 1] == dq[..|dq| - 1];
    } else {
      assert e[..|e| - 1] == dq[..|dq| - 1][v := d];
      assert dq[..|dq| - 1][v] == dq[v] && e[|e| - 1] == dq[|dq| - 1];
      QueuedUpdate(dq[..|dq| - 1], v, d, x);
    }
  }

  lemma {:induction false} RunningUpdate(pcs: seq<Pc>, w: nat, pc: Pc, x: nat)
    requires w < |pcs|
    ensures Running(pcs[w := pc], x) + InHand(pcs[w], x) == Running(pcs, x) + InHand(pc, x)
    decreases |pcs|
  {
    var e := pcs[w := pc];
    if w == |pcs| - 1 {
      assert e[..|e| - 1] == pcs[..|pcs| - 1];
    } else {
      assert e[..|e| - 1] == pcs[..|pcs| - 1][w := pc];
      assert pcs[..|pcs| - 1][w] == pcs[w] && e[|e| - 1] == pcs[|pcs| - 1];
      RunningUpdate(pcs[..|pcs| - 1], w, pc, x);
    }
  }

  lemma {:induction false} NoneRunning(pcs: seq<Pc>, x: nat)
    requires forall w :: 0 <= w < |pcs| ==> !pcs[w].Exec?
    ensures Running(pcs, x) == 0
    decreases |pcs|
  {
    if pcs != [] { NoneRunning(pcs[..|pcs| - 1], x); }
  }

  lemma {:induction false} NoneQueued(dq: seq<seq<nat>>, x: nat)
    requires forall v :: 0 <= v < |dq| ==> dq[v] == []
    ensures Queued(dq, x) == 0
    decreases |dq|
  {
    if dq != [] { NoneQueued(dq[..|dq| - 1], x); }
  }

  // ---- the invariant ----

  /** The worker is outside the work loop of the current generation. */
  predicate Out(s: Pool, w: nat)
    requires w < N(s) && |s.mygen| == N(s)
  {
    (s.pcs[w] == Gate || s.pcs[w] == Asleep) && s.mygen[w] == s.generation
  }

  /** How many workers the current generation still waits for. */
  function Busy(s: Pool, upto: nat): nat
    requires upto <= N(s) && |s.mygen| == N(s)
  {
    if upto == 0 then 0 else Busy(s, upto - 1) + (if Out(s, upto - 1) then 0 else 1)
  }

  /** The first `k` deques from `w` on are empty. */
  ghost predicate EmptyFrom(s: Pool, w: nat, k: nat)
    requires Shaped(s)
  {
    forall j :: 0 <= j < k ==> s.dq[Victim(s, w, j)] == []
  }

  ghost predicate WorkerOk(s: Pool, w: nat)
    requires Shaped(s) && w < N(s)
  {
    match s.pcs[w]
    case Gate => true
    case Asleep => s.mygen[w] == s.generation
    case Pop => s.mygen[w] == s.generation
    case Steal(k) => s.mygen[w] == s.generation && 1 <= k < N(s) && EmptyFrom(s, w, k)
    case Exec(_, _) => s.mygen[w] == s.generation
    case Quit => s.mygen[w] == s.generation && EmptyFrom(s, w, N(s))
    case Exited => true
  }

  /** A worker that has left the loop in an open generation left every deque empty. */
  ghost predicate LeftEmpty(s: Pool)
    requires Shaped(s)
  {
    forall w :: 0 <= w < N(s) && Out(s, w) ==> EmptyFrom(s, w, N(s))
  }

  predicate Open(s: Pool) { s.main == Waiting || s.main == Woken }

  predicate Pushing(s: Pool) { s.main.Push? || s.main == Start }

  function Pushed(s: Pool): nat {
    match s.main
    case Push(i) => i
    case Idle => s.nb
    case _ => s.nb
  }

  ghost predicate Inv(s: Pool) {
    && Shaped(s)
    && (s.main == Closed || !s.shutdown)
    && (s.main != Closed ==> LiveInv(s))
  }

  ghost predicate LiveInv(s: Pool)
    requires Shaped(s)
  {
    && (forall w :: 0 <= w < N(s) ==> WorkerOk(s, w) && s.pcs[w] != Exited)
    && Pushed(s) <= s.nb
    && (forall x: nat :: Copies(s, x) == if x < Pushed(s) then 1 else 0)
    && (Open(s) ==> s.nActive == Busy(s, N(s)) && LeftEmpty(s) && (s.main == Waiting ==> s.nActive > 0))
    && (!Open(s) ==> forall w :: 0 <= w < N(s) ==> Out(s, w))
    && (s.main == Idle ==> forall v :: 0 <= v < N(s) ==> s.dq[v] == [])
  }

  // ---- counting busy workers ----

  lemma {:induction false} BusyUpdate(s: Pool, s': Pool, w: nat, upto: nat)
    requires Shaped(s) && Shaped(s') && N(s') == N(s) && upto <= N(s) && w < N(s)
    requires forall k :: 0 <= k < N(s) && k != w ==> (Out(s', k) <==> Out(s, k))
    ensures Busy(s', upto) + (if w < upto && !Out(s, w) then 1 else 0)
            == Busy(s, upto) + (if w < upto && !Out(s', w) then 1 else 0)
    decreases upto
  {
    if upto > 0 { BusyUpdate(s, s', w, upto - 1); }
  }

  lemma {:induction false} BusyAll(s: Pool, upto: nat)
    requires Shaped(s) && upto <= N(s)
    ensures (forall w :: 0 <= w < N(s) ==> !Out(s, w)) ==> Busy(s, upto) == upto
    ensures Busy(s, upto) == 0 <==> forall w :: 0 <= w < upto ==> Out(s, w)
    decreases upto
  {
    if upto > 0 { BusyAll(s, upto - 1); }
  }

  lemma {:induction false} AllEmpty(s: Pool)
    requires Shaped(s) && EmptyFrom(s, 0, N(s))
    ensures forall v :: 0 <= v < N(s) ==> s.dq[v] == []
  {
    forall v | 0 <= v < N(s) ensures s.dq[v] == [] {
      assert Victim(s, 0, v) == v;
    }
  }

  // ---- the caller's steps ----

  lemma {:induction false} BeginKeeps(s: Pool, nb: nat)
    requires Inv(s) && s.main == Idle
    ensures Inv(Do(s, Begin(nb)))
  {
    if nb > 0 {
      var s' := Do(s, Begin(nb));
      forall w | 0 <= w < N(s) ensures WorkerOk(s', w) && Out(s', w) && !s.pcs[w].Exec? {
        assert WorkerOk(s, w) && Out(s, w);
      }
      forall x: nat ensures Copies(s', x) == 0 {
        NoneQueued(s.dq, x);
        NoneRunning(s.pcs, x);
      }
    }
  }

  lemma {:induction false} PushKeeps(s: Pool)
    requires Inv(s) && Pushing(s)
    ensures Inv(MainMove(s))
  {
    if s.main.Push? { QueueKeeps(s, s.main.i); } else { StartKeeps(s); }
  }

  lemma {:induction false} QueueKeeps(s: Pool, i: nat)
    requires Inv(s) && Pushing(s) && s.main == Push(i)
    ensures Inv(MainMove(s))
  {
    hide Busy; hide Copies;
    var s' := MainMove(s);
    forall w | 0 <= w < N(s) ensures WorkerOk(s, w) && Out(s, w) { }
    PushedCopies(s, i);
    forall w | 0 <= w < N(s) ensures WorkerOk(s', w) && Out(s', w) && s'.pcs[w] != Exited {
      assert WorkerOk(s, w) && Out(s, w);
    }
  }

  /** The batches below `i + 1` are there once, and no other. */
  lemma {:induction false} PushedCopies(s: Pool, i: nat)
    requires Inv(s) && s.main == Push(i)
    ensures var s' := MainMove(s);
            if i < s.nb then forall x: nat :: Copies(s', x) == (if x < i + 1 then 1 else 0)
            else forall x: nat :: Copies(s', x) == Copies(s, x)
  {
    var s' := MainMove(s);
    if i < s.nb {
      var d := s.dq[i % N(s)];
      forall x: nat ensures Copies(s', x) == if x < i + 1 then 1 else 0 {
        QueuedUpdate(s.dq, i % N(s), d + [i], x);
        assert Copies(s, x) == if x < i then 1 else 0;
      }
    }
  }

  lemma {:induction false} StartKeeps(s: Pool)
    requires Inv(s) && s.main == Start
    ensures Inv(MainMove(s))
  {
    hide Busy;
    var s' := MainMove(s);
    forall w | 0 <= w < N(s) ensures WorkerOk(s, w) && Out(s, w) { }
    forall w | 0 <= w < N(s) ensures WorkerOk(s', w) && !Out(s', w) && !s.pcs[w].Exec? && !s'.pcs[w].Exec? { }
    forall x: nat ensures Copies(s', x) == Copies(s, x) {
      NoneRunning(s.pcs, x);
      NoneRunning(s'.pcs, x);
    }
    BusyAll(s', N(s));
  }

  lemma {:induction false} WokenKeeps(s: Pool)
    requires Inv(s) && s.main == Woken
    ensures Inv(MainMove(s))
  {
    hide Busy;
    var s' := MainMove(s);
    BusyAll(s, N(s));
    forall x: nat ensures Copies(s', x) == Copies(s, x) { }
    if s.nActive == 0 {
      assert Out(s, 0);
      AllEmpty(s);
    }
    forall w | 0 <= w < N(s) ensures WorkerOk(s', w) && Out(s', w) == Out(s, w) {
      assert WorkerOk(s, w);
      EmptySame(s, s', w);
    }
    BusySame(s, s', N(s));
    if Open(s') { LeftSame(s, s'); }
  }

  lemma {:induction false} BusySame(s: Pool, s': Pool, upto: nat)
    requires Shaped(s) && Shaped(s') && N(s') == N(s) && upto <= N(s)
    requires forall k :: 0 <= k < N(s) ==> (Out(s', k) <==> Out(s, k))
    ensures Busy(s', upto) == Busy(s, upto)
    decreases upto
  {
    if upto > 0 { BusySame(s, s', upto - 1); }
  }

  lemma {:induction false} LeftSame(s: Pool, s': Pool)
    requires Shaped(s) && Shaped(s') && s'.dq == s.dq && N(s') == N(s) && LeftEmpty(s)
    requires forall k :: 0 <= k < N(s) ==> (Out(s', k) ==> Out(s, k))
    ensures LeftEmpty(s')
  {
    forall w | 0 <= w < N(s') && Out(s', w) ensures EmptyFrom(s', w, N(s')) {
      assert EmptyFrom(s, w, N(s));
      EmptySame(s, s', w);
    }
  }

  // ---- the workers' steps ----

  /** Taking from a deque that holds something leaves the empty ones empty. */
  lemma {:induction false} EmptyKept(s: Pool, s': Pool, w: nat, k: nat, v: nat)
    requires Shaped(s) && Shaped(s') && N(s') == N(s) && v < N(s) && EmptyFrom(s, w, k)
    requires s.dq[v] != [] && s'.dq == s.dq[v := s'.dq[v]]
    ensures EmptyFrom(s', w, k)
  {
    forall j | 0 <= j < k ensures s'.dq[Victim(s', w, j)] == [] {
      assert Victim(s', w, j) == Victim(s, w, j) && s.dq[Victim(s, w, j)] == [];
    }
  }

  /** The parts of the invariant that a step of worker `w` alone can affect. */
  lemma {:induction false} WorkerFrame(s: Pool, s': Pool, w: nat, v: nat)
    requires Inv(s) && s.main != Closed && Shaped(s') && N(s') == N(s) && w < N(s)
    requires s'.pcs == s.pcs[w := s'.pcs[w]] && s'.mygen == s.mygen[w := s'.mygen[w]]
    requires s'.generation == s.generation && s'.shutdown == s.shutdown && s'.nb == s.nb
    requires s'.main == s.main || (s.main == Waiting && s'.main == Woken)
    requires s'.dq == s.dq || (v < N(s) && s.dq[v] != [] && |s'.dq| == N(s) && s'.dq == s.dq[v := s'.dq[v]])
    requires WorkerOk(s', w) && s'.pcs[w] != Exited
    requires forall x: nat :: Copies(s', x) == if x < Pushed(s') then 1 else 0
    requires Open(s) ==> s'.nActive + (if Out(s, w) then 0 else 1) == s.nActive + (if Out(s', w) then 0 else 1)
    requires Open(s) ==> (s'.main == Waiting ==> s'.nActive > 0) && (Out(s', w) ==> EmptyFrom(s', w, N(s)))
    requires !Open(s) ==> Out(s', w) && s'.dq == s.dq
    ensures Inv(s')
  {
    hide Copies; hide Busy; hide EmptyFrom;
    forall k | 0 <= k < N(s) && k != w ensures WorkerOk(s', k) && (Out(s', k) <==> Out(s, k)) {
      assert WorkerOk(s, k);
      if s'.dq == s.dq { EmptySame(s, s', k); } else {
        if s.pcs[k].Steal? { EmptyKept(s, s', k, s.pcs[k].k, v); }
        if s.pcs[k] == Quit { EmptyKept(s, s', k, N(s), v); }
      }
    }
    BusyUpdate(s, s', w, N(s));
    if Open(s) {
      forall k | 0 <= k < N(s) && Out(s', k) ensures EmptyFrom(s', k, N(s')) {
        if k != w {
          assert EmptyFrom(s, k, N(s));
          if s'.dq == s.dq { EmptySame(s, s', k); } else {
                EmptyKept(s, s', k, N(s), v);
          }
        }
      }
    }
  }

  lemma {:induction false} EmptySame(s: Pool, s': Pool, w: nat)
    requires Shaped(s) && Shaped(s') && N(s') == N(s) && s'.dq == s.dq
    ensures forall k: nat :: EmptyFrom(s, w, k) ==> EmptyFrom(s', w, k)
  {
    forall k: nat | EmptyFrom(s, w, k) ensures EmptyFrom(s', w, k) {
      forall j | 0 <= j < k ensures s'.dq[Victim(s', w, j)] == [] {
        assert Victim(s', w, j) == Victim(s, w, j);
      }
    }
  }

  lemma {:induction false} WorkerCopies(s: Pool, w: nat)
    requires Inv(s) && s.main != Closed && CanMove(s, Worker(w))
    ensures var s' := WorkerMove(s, w); forall x: nat :: Copies(s', x) == if x < Pushed(s') then 1 else 0
  {
    hide Copies; hide WorkerOk;
    var s' := WorkerMove(s, w);
    forall x: nat ensures Copies(s', x) == if x < Pushed(s') then 1 else 0 {
      CopiesKept(s, w, x);
      assert Copies(s, x) == if x < Pushed(s) then 1 else 0;
    }
  }

  lemma {:induction false} WorkerIs(s: Pool, w: nat)
    requires Inv(s) && s.main != Closed && w < N(s)
    ensures WorkerOk(s, w) && (!Open(s) ==> Out(s, w))
  {
  }

  lemma {:induction false} GateKeeps(s: Pool, w: nat)
    requires Inv(s) && s.main != Closed && w < N(s) && s.pcs[w] == Gate
    ensures Inv(WorkerMove(s, w))
  {
    hide Copies; hide Busy;
    var s' := WorkerMove(s, w);
    WorkerIs(s, w);
    WorkerCopies(s, w);
    if Open(s) && Out(s, w) { assert EmptyFrom(s, w, N(s)); }
    EmptySame(s, s', w);
    WorkerFrame(s, s', w, 0);
  }

  lemma {:induction false} TakeKeeps(s: Pool, w: nat)
    requires Inv(s) && s.main != Closed && w < N(s) && (s.pcs[w] == Pop || s.pcs[w].Steal?)
    ensures Inv(WorkerMove(s, w))
  {
    hide Copies; hide Busy; hide WorkerMove; hide EmptyFrom; hide LiveInv;
    var k := if s.pcs[w] == Pop then 0 else s.pcs[w].k;
    VictimSelf(s, w);
    if s.dq[Victim(s, w, k)] == [] { EmptyKeeps(s, w, k); } else { TakenKeeps(s, w, k); }
  }

  lemma {:induction false} VictimSelf(s: Pool, w: nat)
    requires w < N(s)
    ensures Victim(s, w, 0) == w
  {
  }

  /** Looking into an empty deque. */
  lemma {:induction false} EmptyKeeps(s: Pool, w: nat, k: nat)
    requires Inv(s) && s.main != Closed && w < N(s) && (s.pcs[w] == Pop || s.pcs[w].Steal?)
    requires k == (if s.pcs[w] == Pop then 0 else s.pcs[w].k) && s.dq[Victim(s, w, k)] == []
    requires Victim(s, w, 0) == w
    ensures Inv(WorkerMove(s, w))
  {
    hide Copies; hide Busy;
    var s' := WorkerMove(s, w);
    WorkerIs(s, w);
    WorkerCopies(s, w);
    OneMoreEmpty(s, s', w, k);
    WorkerFrame(s, s', w, Victim(s, w, k));
  }

  /** Taking a batch. */
  lemma {:induction false} TakenKeeps(s: Pool, w: nat, k: nat)
    requires Inv(s) && s.main != Closed && w < N(s) && (s.pcs[w] == Pop || s.pcs[w].Steal?)
    requires k == (if s.pcs[w] == Pop then 0 else s.pcs[w].k) && s.dq[Victim(s, w, k)] != []
    requires Victim(s, w, 0) == w
    ensures Inv(WorkerMove(s, w))
  {
    hide Copies; hide Busy;
    var s' := WorkerMove(s, w);
    WorkerIs(s, w);
    WorkerCopies(s, w);
    WorkerFrame(s, s', w, Victim(s, w, k));
  }

  lemma {:induction false} FinishKeeps(s: Pool, w: nat)
    requires Inv(s) && s.main != Closed && w < N(s) && (s.pcs[w].Exec? || s.pcs[w] == Quit)
    ensures Inv(WorkerMove(s, w))
  {
    hide Copies; hide Busy;
    var s' := WorkerMove(s, w);
    WorkerIs(s, w);
    WorkerCopies(s, w);
    BusyAll(s, N(s));
    EmptySame(s, s', w);
    WorkerFrame(s, s', w, 0);
  }

  lemma {:induction false} TakenEnds(d: seq<nat>, x: nat)
    requires d != []
    ensures multiset(d)[x] == multiset(d[1..])[x] + (if d[0] == x then 1 else 0)
    ensures multiset(d)[x] == multiset(d[..|d| - 1])[x] + (if d[|d| - 1] == x then 1 else 0)
  {
    assert d == [d[0]] + d[1..];
    assert d == d[..|d| - 1] + [d[|d| - 1]];
  }

  /** A worker's step moves batches between deque, hand and log, and loses none. */
  lemma {:induction false} CopiesKept(s: Pool, w: nat, x: nat)
    requires Shaped(s) && CanMove(s, Worker(w))
    ensures Copies(WorkerMove(s, w), x) == Copies(s, x)
  {
    hide Queued; hide Running;
    var s' := WorkerMove(s, w);
    RunningUpdate(s.pcs, w, s'.pcs[w], x);
    if s.pcs[w].Pop? || s.pcs[w].Steal? {
      var v := if s.pcs[w].Pop? then w else Victim(s, w, s.pcs[w].k);
      if s.dq[v] != [] {
        QueuedUpdate(s.dq, v, s'.dq[v], x);
        TakenEnds(s.dq[v], x);
      }
    }
  }

  lemma {:induction false} OneMoreEmpty(s: Pool, s': Pool, w: nat, k: nat)
    requires Shaped(s) && Shaped(s') && N(s') == N(s) && s'.dq == s.dq && w < N(s)
    requires EmptyFrom(s, w, k) && s.dq[Victim(s, w, k)] == []
    ensures EmptyFrom(s', w, k + 1)
  {
    forall j | 0 <= j < k + 1 ensures s'.dq[Victim(s', w, j)] == [] {
      assert Victim(s', w, j) == Victim(s, w, j);
    }
  }

  lemma {:induction false} SameCopies(s: Pool, s': Pool, x: nat)
    requires s'.dq == s.dq && s'.pcs == s.pcs && s'.fin == s.fin
    ensures Copies(s', x) == Copies(s, x)
  {
  }

  lemma {:induction false} SpuriousCopies(s: Pool, w: nat, x: nat)
    requires Shaped(s) && w < N(s) && s.pcs[w] == Asleep
    ensures Copies(Do(s, SpuriousWorker(w)), x) == Copies(s, x)
  {
    RunningUpdate(s.pcs, w, Gate, x);
  }

  lemma {:induction false} SpuriousKeeps(s: Pool, m: Move)
    requires Inv(s) && CanMove(s, m) && (m.SpuriousMain? || m.SpuriousWorker?)
    ensures Inv(Do(s, m))
  {
    hide Copies; hide Busy;
    var s' := Do(s, m);
    if s.main != Closed {
      match m
      case SpuriousMain =>
        forall x: nat ensures Copies(s', x) == Copies(s, x) { SameCopies(s, s', x); }
        forall w | 0 <= w < N(s) ensures WorkerOk(s', w) && (Out(s', w) <==> Out(s, w)) {
          assert WorkerOk(s, w);
          EmptySame(s, s', w);
        }
        BusySame(s, s', N(s));
        LeftSame(s, s');
      case SpuriousWorker(w) =>
        assert WorkerOk(s, w);
        forall x: nat ensures Copies(s', x) == Copies(s, x) { SpuriousCopies(s, w, x); }
        EmptySame(s, s', w);
        WorkerFrame(s, s', w, 0);
    }
  }

  lemma {:induction false} DoKeeps(s: Pool, m: Move)
    requires Inv(s) && CanMove(s, m)
    ensures Inv(Do(s, m))
  {
    match m
    case Begin(nb) => BeginKeeps(s, nb);
    case MainStep => if Pushing(s) { PushKeeps(s); } else { WokenKeeps(s); }
    case Worker(w) =>
      if s.main != Closed {
        match s.pcs[w]
        case Gate => GateKeeps(s, w);
        case Pop => TakeKeeps(s, w);
        case Steal(k) => TakeKeeps(s, w);
        case Exec(_, _) => FinishKeeps(s, w);
        case Quit => FinishKeeps(s, w);
      }
    case SpuriousMain => SpuriousKeeps(s, m);
    case SpuriousWorker(w) => SpuriousKeeps(s, m);
    case Destroy =>
  }

  lemma {:induction false} RunKeeps(n: nat, moves: seq<Move>)
    requires n > 0
    ensures Inv(Run(n, moves))
    decreases |moves|
  {
    hide Do; hide Inv;
    if moves == [] {
      InitOk(n, Init(n));
    } else {
      RunKeeps(n, moves[..|moves| - 1]);
      var s := Run(n, moves[..|moves| - 1]);
      if CanMove(s, moves[|moves| - 1]) { DoKeeps(s, moves[|moves| - 1]); }
    }
  }

  lemma {:induction false} InitOk(n: nat, s: Pool)
    requires n > 0 && s == Init(n)
    ensures Inv(s)
  {
    forall x: nat ensures Copies(s, x) == 0 {
      NoneRunning(s.pcs, x);
      NoneQueued(s.dq, x);
    }
    forall w | 0 <= w < n ensures WorkerOk(s, w) && Out(s, w) { }
  }
}
