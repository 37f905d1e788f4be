/** All 64 lanes at the model's boundary (lib/runtime/refill.c): `bstm_refill_window` and
    `bstm_refill_consume` over bit-sliced words.  An inactive lane is `null`. */
module Refill {
  import opened BstfReader
  import opened RefillLane
  import opened RefillProofs
  import opened RefillSpec
  import opened Transpose
  import opened Window
  import opened Words

  class Refill {
    const lanes: seq<Lane?>

    ghost function Footprint(): set<object> {
      (set l | 0 <= l < |lanes| && lanes[l] != null :: lanes[l] as object)
      + (set l | 0 <= l < |lanes| && lanes[l] != null :: lanes[l].stage as object)
      + (set l | 0 <= l < |lanes| && lanes[l] != null :: lanes[l].pos as object)
    }

    /** Lanes share no storage. */
    ghost predicate Separate() {
      && |lanes| == LANES
      && (forall l :: 0 <= l < LANES && lanes[l] != null ==>
            lanes[l] as object != lanes[l].stage && lanes[l] as object != lanes[l].pos)
      && forall k, l :: 0 <= k < l < LANES && lanes[k] != null && lanes[l] != null ==>
           Apart(lanes[k], lanes[l])
    }

    static ghost predicate Apart(a: Lane, b: Lane) {
      a != b && a.stage != b.stage && a.pos != b.pos
    }

    static ghost predicate LaneOk(x: Lane)
      reads x, x.stage, x.pos
    {
      x.Valid() && ValidTrace(x.trace) && Inv(x.trace, x.State())
    }

    ghost predicate Valid()
      reads Footprint()
    {
      Separate() && forall l :: 0 <= l < LANES && lanes[l] != null ==> LaneOk(lanes[l])
    }

    ghost function StageOf(l: nat): seq<Slot>
      requires l < |lanes|
      reads Footprint()
    {
      if lanes[l] == null then [] else lanes[l].slots
    }

    /** Wraps the lanes a driver has opened, each in its initial state. */
    constructor (ls: seq<Lane?>)
      requires |ls| == LANES
      requires forall l :: 0 <= l < LANES && ls[l] != null ==>
                 ls[l].Valid() && ValidTrace(ls[l].trace) && ls[l].State() == InitState(ls[l].trace)
      requires forall k, l :: 0 <= k < l < LANES && ls[k] != null && ls[l] != null ==> Apart(ls[k], ls[l])
      ensures lanes == ls && Valid()
    {
      lanes := ls;
      new;
      forall l | 0 <= l < LANES && lanes[l] != null ensures LaneOk(lanes[l]) {
        InitKeeps(lanes[l].trace);
      }
    }

    /** One lane's part of the window call. */
    static method RefreshOne(x: Lane)
      requires LaneOk(x) && x as object != x.stage && x as object != x.pos
      modifies x, x.stage, x.pos
      ensures LaneOk(x)
      ensures x.State() == Step(x.trace, old(x.State()), Input.Window)
    {
      hide Step; hide Inv;
      StepKeeps(x.trace, x.State(), Input.Window);
      x.Refresh();
    }

    /** One lane's part of the consume call; by the invariant no assertion fires. */
    static method ConsumeOne(x: Lane, take: nat, redirect: bool, redirShadow: bool)
      requires LaneOk(x) && x as object != x.stage && x as object != x.pos
      modifies x, x.stage, x.pos
      ensures LaneOk(x)
      ensures x.State() == Step(x.trace, old(x.State()), Input.Consume(take, redirect, redirShadow))
    {
      hide Step; hide Inv;
      StepKeeps(x.trace, x.State(), Input.Consume(take, redirect, redirShadow));
      NotAborted(x.trace, x.State());
      x.Consume(take, redirect, redirShadow);
    }

    /** Refills the lanes that run low and builds the bit-sliced window. */
    method Window() returns (win: FbWin)
      requires Valid()
      modifies Footprint()
      ensures Valid()
      ensures forall l :: 0 <= l < LANES && lanes[l] != null ==>
                lanes[l].State() == Step(lanes[l].trace, old(lanes[l].State()), Input.Window)
      ensures Faithful(Stages(), win)
    {
      RefreshAll();
      win := BuildWindow();
    }

    ghost function Stages(): (r: seq<seq<Slot>>)
      requires |lanes| == LANES
      reads Footprint()
      ensures |r| == LANES && forall l :: 0 <= l < LANES ==> r[l] == StageOf(l)
    {
      seq(LANES, l requires 0 <= l < LANES && |lanes| == LANES reads Footprint() => StageOf(l))
    }

    method RefreshAll()
      requires Valid()
      modifies Footprint()
      ensures Valid()
      ensures forall l :: 0 <= l < LANES && lanes[l] != null ==>
                lanes[l].State() == Step(lanes[l].trace, old(lanes[l].State()), Input.Window)
    {
      hide Step; hide Inv;
      var l := 0;
      while l < LANES
        invariant l <= LANES && Valid()
        invariant forall k :: 0 <= k < l && lanes[k] != null ==>
          lanes[k].State() == Step(lanes[k].trace, old(lanes[k].State()), Input.Window)
        invariant forall k :: l <= k < LANES && lanes[k] != null ==> lanes[k].State() == old(lanes[k].State())
      {
        if lanes[l] != null {
          RefreshOne(lanes[l]);
        }
        l := l + 1;
      }
    }

    /** Three words per lane. */
    method PackAll() returns (P0: array<Word>, P1: array<Word>, P2: array<Word>)
      requires Valid()
      ensures fresh(P0) && fresh(P1) && fresh(P2) && P0 != P1 && P0 != P2 && P1 != P2
      ensures P0.Length == LANES && P1.Length == LANES && P2.Length == LANES
      ensures forall k :: 0 <= k < LANES ==> LaneWords(P0[k], P1[k], P2[k]) == PackLane(StageOf(k))
    {
      hide Inv; hide PackLane;
      P0 := new Word[LANES](_ => Zero());
      P1 := new Word[LANES](_ => Zero());
      P2 := new Word[LANES](_ => Zero());
      var l := 0;
      while l < LANES
        invariant l <= LANES
        invariant forall k :: 0 <= k < l ==> LaneWords(P0[k], P1[k], P2[k]) == PackLane(StageOf(k))
      {
        var st := [];
        if lanes[l] != null {
          st := lanes[l].Shown();
          PackFirst(lanes[l].slots);
        }
        var ws := PackLane(st);
        P0[l], P1[l], P2[l] := ws.w0, ws.w1, ws.w2;
        l := l + 1;
      }
    }

    method BuildWindow() returns (win: FbWin)
      requires Valid()
      ensures Faithful(Stages(), win)
    {
      hide Inv; hide PackLane; hide Faithful;
      var P0, P1, P2 := PackAll();
      ghost var stages := Stages();
      PackedIsFaithful(stages, P0[..], P1[..], P2[..]);
      Transpose64(P0);
      Transpose64(P1);
      Transpose64(P2);
      assert Stages() == stages;
      win := CutWindow(P0[..], P1[..], P2[..]);
    }

    /** Reports what the model took: three words of take counts and two of redirects. */
    method Consume(take: seq<Word>, redirect: Word, redirShadow: Word)
      requires Valid() && |take| == 3
      modifies Footprint()
      ensures Valid()
      ensures forall l :: 0 <= l < LANES && lanes[l] != null ==>
                lanes[l].State() == Step(lanes[l].trace, old(lanes[l].State()),
                                         Input.Consume(LaneValue(take, l), redirect[l], redirShadow[l]))
    {
      hide Step; hide Inv; hide LaneValue; hide ByteValue; hide Lane.Valid; hide Lane.State;
      var tk := UnpackSmall(take);
      var l := 0;
      while l < LANES
        invariant l <= LANES && Valid()
        invariant forall k :: 0 <= k < l && lanes[k] != null ==>
          lanes[k].State() == Step(lanes[k].trace, old(lanes[k].State()),
                                   Input.Consume(LaneValue(take, k), redirect[k], redirShadow[k]))
        invariant forall k :: l <= k < LANES && lanes[k] != null ==> lanes[k].State() == old(lanes[k].State())
      {
        if lanes[l] != null {
          ByteIsLaneValue(take, l, tk[l]);
          ConsumeOne(lanes[l], ByteValue(tk[l]), redirect[l], redirShadow[l]);
        }
        l := l + 1;
      }
    }

    /** The lanes whose trace has run out; an inactive lane counts as done. */
    method DoneMask() returns (m: Word)
      requires Valid()
      ensures forall l :: 0 <= l < LANES ==> m[l] == (lanes[l] == null || Done(lanes[l].State()))
      ensures forall l :: 0 <= l < LANES && m[l] && lanes[l] != null ==>
                Check(lanes[l].trace, lanes[l].State(), true) == 0
    {
      m := Zero();
      var l := 0;
      while l < LANES
        invariant l <= LANES
        invariant forall k :: 0 <= k < l ==> m[k] == (lanes[k] == null || Done(lanes[k].State()))
      {
        var x := lanes[l];
        m := m[l := x == null || (x.eof && x.cnt == 0 && x.fstate == FetchState.Correct)];
        l := l + 1;
      }
      forall l | 0 <= l < LANES && m[l] && lanes[l] != null
        ensures Check(lanes[l].trace, lanes[l].State(), true) == 0
      {
        DoneChecks(lanes[l].trace, lanes[l].State());
      }
    }
  }

  lemma {:induction false} DoneChecks(t: Trace, s: LaneState)
    requires Inv(t, s) && Done(s)
    ensures Check(t, s, true) == 0
  {
  }

  /** The window words depend on the first W entries only. */
  lemma {:induction false} PackFirst(stage: seq<Slot>)
    ensures PackLane(stage[..Min(|stage|, W)]) == PackLane(stage)
  {
    hide EntryWord; hide Pair; hide Quad; hide Duop32; hide Mem8; hide Fe8; hide Or; hide Shl; hide Low;
  }
}
