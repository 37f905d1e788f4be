/** The work-stealing pool (lib/runtime/pool.c) as interleaved atomic steps of one caller
    and n workers.  A critical section under the gate or under a deque's lock is one
    step; a condition wait releases the gate, and may also end without a signal. */
module PoolSpec {

  /** Where a worker is in `worker_main`. */
  datatype Pc =
    | Gate                  // about to take the gate and look at the generation
    | Asleep                // waiting on start_cv
    | Pop                   // about to pop its own deque
    | Steal(k: nat)         // about to try the deque of worker id + k
    | Exec(idx: nat, stolen: bool)
    | Quit                  // found nothing; about to take the gate and count itself out
    | Exited

  /** Where the caller is in `bstm_pool_run`. */
  datatype Main =
    | Idle                  // outside, or returned
    | Push(i: nat)          // about to push batch i
    | Start                 // about to take the gate and open a generation
    | Waiting               // waiting on done_cv
    | Woken                 // about to retake the gate and test n_active
    | Closed                // the pool is being destroyed

  datatype Pool = Pool(
    dq: seq<seq<nat>>,      // per worker: batch indices, top first
    pcs: seq<Pc>,
    mygen: seq<nat>,
    main: Main,
    generation: nat, nActive: nat, shutdown: bool,
    nb: nat,                // number of batches of the current run
    fin: seq<nat>)          // batches finished in the current run, in order

  /** Who moves next. */
  datatype Move =
    | Begin(nb: nat)        // bstm_pool_run is called
    | MainStep
    | Worker(w: nat)
    | SpuriousMain          // a wait ends without a signal
    | SpuriousWorker(w: nat)
    | Destroy

  function N(s: Pool): nat { |s.pcs| }

  function Init(n: nat): Pool
    requires n > 0
  {
    Pool(seq(n, _ => []), seq(n, _ => Gate), seq(n, _ => 0), Idle, 0, 0, false, 0, [])
  }

  ghost predicate Shaped(s: Pool) {
    N(s) > 0 && |s.dq| == N(s) && |s.mygen| == N(s)
  }

  predicate CanMove(s: Pool, m: Move)
    requires |s.mygen| == N(s)
  {
    match m
    case Begin(nb) => s.main == Idle
    case MainStep => s.main.Push? || s.main == Start || s.main == Woken
    case Worker(w) => w < N(s) && s.pcs[w] != Asleep && s.pcs[w] != Exited
    case SpuriousMain => s.main == Waiting
    case SpuriousWorker(w) => w < N(s) && s.pcs[w] == Asleep
    case Destroy => s.main == Idle
  }

  /** A broadcast on start_cv. */
  function Broadcast(pcs: seq<Pc>): (r: seq<Pc>)
    ensures |r| == |pcs|
    ensures forall w :: 0 <= w < |pcs| ==> r[w] == if pcs[w] == Asleep then Gate else pcs[w]
  {
    seq(|pcs|, w requires 0 <= w < |pcs| => if pcs[w] == Asleep then Gate else pcs[w])
  }

  function MainMove(s: Pool): Pool
    requires Shaped(s) && CanMove(s, MainStep)
  {
    match s.main
    case Push(i) =>
      if i < s.nb then s.(dq := s.dq[i % N(s) := s.dq[i % N(s)] + [i]], main := Push(i + 1))
      else s.(main := Start)
    case Start =>
      // opens the generation and, as there is at least one worker, waits at once
      s.(nActive := N(s), generation := s.generation + 1, pcs := Broadcast(s.pcs), main := Waiting)
    case Woken => if s.nActive > 0 then s.(main := Waiting) else s.(main := Idle)
  }

  function Victim(s: Pool, w: nat, k: nat): (v: nat)
    requires N(s) > 0
    ensures v < N(s)
  {
    (w + k) % N(s)
  }

  /** After a failed attempt: the next victim, or the end of the round. */
  function NextTry(s: Pool, k: nat): Pc {
    if k < N(s) then Steal(k) else Quit
  }

  function WorkerMove(s: Pool, w: nat): Pool
    requires Shaped(s) && CanMove(s, Worker(w))
  {
    match s.pcs[w]
    case Gate =>
      if s.shutdown then s.(pcs := s.pcs[w := Exited])
      else if s.generation == s.mygen[w] then s.(pcs := s.pcs[w := Asleep])
      else s.(mygen := s.mygen[w := s.generation], pcs := s.pcs[w := Pop])
    case Pop =>
      var d := s.dq[w];
      if d != [] then
        s.(dq := s.dq[w := d[..|d| - 1]], pcs := s.pcs[w := Exec(d[|d| - 1], false)])
      else s.(pcs := s.pcs[w := NextTry(s, 1)])
    case Steal(k) =>
      var v := Victim(s, w, k);
      var d := s.dq[v];
      if d != [] then s.(dq := s.dq[v := d[1..]], pcs := s.pcs[w := Exec(d[0], true)])
      else s.(pcs := s.pcs[w := NextTry(s, k + 1)])
    case Exec(idx, stolen) =>
      s.(fin := s.fin + [idx], pcs := s.pcs[w := Pop])
    case Quit =>
      var left := if s.nActive > 0 then s.nActive - 1 else 0;
      s.(nActive := left, pcs := s.pcs[w := Gate],
         main := if left == 0 && s.main == Waiting then Woken else s.main)
  }

  function Do(s: Pool, m: Move): Pool
    requires Shaped(s) && CanMove(s, m)
  {
    match m
    case Begin(nb) => if nb == 0 then s else s.(main := Push(0), nb := nb, fin := [])
    case MainStep => MainMove(s)
    case Worker(w) => WorkerMove(s, w)
    case SpuriousMain => s.(main := Woken)
    case SpuriousWorker(w) => s.(pcs := s.pcs[w := Gate])
    case Destroy => s.(main := Closed, shutdown := true, pcs := Broadcast(s.pcs))
  }

  /** The state after a schedule; a move that is not possible is skipped. */
  ghost function Run(n: nat, moves: seq<Move>): (s: Pool)
    requires n > 0
    ensures Shaped(s) && N(s) == n
  {
    if moves == [] then Init(n)
    else
      var s := Run(n, moves[..|moves| - 1]);
      if CanMove(s, moves[|moves| - 1]) then Do(s, moves[|moves| - 1]) else s
  }
}
