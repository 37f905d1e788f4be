/** The prototype generator (prototype/gen.py) and the compiler (tools/bstm-cc) give `$pmux`
    different meanings. They agree exactly on one-hot selects. */
module PmuxAgree {
  import opened Arith
  import opened Netlist
  import opened CellMeaning
  import opened CellsSpec

  /** What the prototype's text computes: the OR of the chosen pieces. */
  ghost function Prototype(B: seq<bool>, S: seq<bool>, w: nat): (Y: seq<bool>)
    requires |S| >= 1 && |B| >= |S| * w
    ensures |Y| == w
  {
    var A: seq<bool> := [];
    Outputs(Pmux, w, A, B, S)
  }

  ghost predicate OneHot(S: seq<bool>) {
    exists j :: 0 <= j < |S| && S[j] && forall k :: 0 <= k < |S| && k != j ==> !S[k]
  }

  ghost predicate AgreeOn(A: seq<bool>, B: seq<bool>, S: seq<bool>)
    requires |S| >= 1 && |B| >= |S| * |A|
  {
    Prototype(B, S, |A|) == PmuxValue(A, B, S)
  }

  lemma {:induction false} ChunkAt(B: seq<bool>, n: nat, j: nat, i: nat, w: nat)
    requires |B| >= n * w && j < n && i < w
    ensures Chunk(B, j, w)[i] == B[ChoiceAt(n, w, j, i)]
  {
  }

  lemma {:induction false} OneHotAgrees(A: seq<bool>, B: seq<bool>, S: seq<bool>)
    requires |S| >= 1 && |B| >= |S| * |A| && OneHot(S)
    ensures AgreeOn(A, B, S)
  {
    var w, h := |A|, Highest(S);
    forall i | 0 <= i < w
      ensures Prototype(B, S, w)[i] == PmuxValue(A, B, S)[i]
    {
      ChunkAt(B, |S|, h, i, w);
      assert Chosen(B, S, w, i) <==> B[ChoiceAt(|S|, w, h, i)];
    }
  }

  /** The two lowerings give the same result for every A and B if and only if exactly one
      select is set. */
  lemma {:induction false} AgreeIffOneHot(S: seq<bool>, w: nat)
    requires |S| >= 1 && w >= 1
    ensures OneHot(S) <==> forall A: seq<bool>, B: seq<bool> | |A| == w && |B| == |S| * w :: AgreeOn(A, B, S)
  {
    if OneHot(S) {
      forall A: seq<bool>, B: seq<bool> | |A| == w && |B| == |S| * w
        ensures AgreeOn(A, B, S)
      {
        OneHotAgrees(A, B, S);
      }
    } else {
      var A, B := Disagreement(S, w);
      assert |A| == w && |B| == |S| * w && !AgreeOn(A, B, S);
    }
  }

  /** With no select set, or two, there are operands that tell the two apart. */
  lemma {:induction false} Disagreement(S: seq<bool>, w: nat) returns (A: seq<bool>, B: seq<bool>)
    requires |S| >= 1 && w >= 1 && !OneHot(S)
    ensures |A| == w && |B| == |S| * w && !AgreeOn(A, B, S)
  {
    hide Prototype; hide PmuxValue; hide AgreeOn; hide Highest; hide OneHot;
    A := seq(w, _ => true);
    var n := Product(|S|, w);
    var h := Highest(S);
    if h < 0 {
      B := Ones(n, 0);
      NoneSet(A, B, S, w);
    } else {
      B := Ones(n, Product(h, w));
      TwoSet(A, B, S, w, Product(h, w), AnotherSet(S));
    }
  }

  /** `n` bits, the first `cut` of them set. */
  function Ones(n: nat, cut: nat): (B: seq<bool>)
    ensures |B| == n && forall x :: 0 <= x < n ==> B[x] == (x < cut)
  {
    seq(n, x => x < cut)
  }

  function Product(a: nat, b: nat): (p: nat)
    ensures p == a * b
  {
    a * b
  }

  ghost function AnotherSet(S: seq<bool>): (low: nat)
    requires Highest(S) >= 0 && !OneHot(S)
    ensures low < |S| && low != Highest(S) && S[low]
  {
    var low :| 0 <= low < |S| && low != Highest(S) && S[low];
    low
  }

  lemma {:induction false} NoneSet(A: seq<bool>, B: seq<bool>, S: seq<bool>, w: nat)
    requires |S| >= 1 && |B| == |S| * w && |A| == w >= 1 && A[0]
    requires forall j :: 0 <= j < |S| ==> !S[j]
    ensures !AgreeOn(A, B, S)
  {
    assert !Prototype(B, S, w)[0] by { assert !Chosen(B, S, w, 0); }
  }

  lemma {:induction false} TwoSet(A: seq<bool>, B: seq<bool>, S: seq<bool>, w: nat, cut: nat, low: nat)
    requires |S| >= 1 && |B| == |S| * w && |A| == w >= 1
    requires Highest(S) >= 0 && cut == Highest(S) * w && low < |S| && low != Highest(S) && S[low]
    requires forall x :: 0 <= x < |B| ==> B[x] == (x < cut)
    ensures !AgreeOn(A, B, S)
  {
    hide Prototype; hide PmuxValue; hide Highest;
    var h := Highest(S);
    FirstBit(B, S, w, h, cut);
    FirstBit(B, S, w, low, cut);
    LowerFirst(low, h, w);
    PrototypeSees(B, S, w, low);
    PmuxFirst(A, B, S, w);
  }

  /** The first bit of choice `j` lies at `j * w`. */
  lemma {:induction false} FirstBit(B: seq<bool>, S: seq<bool>, w: nat, j: nat, cut: nat)
    requires j < |S| && w >= 1 && |B| == |S| * w
    requires forall x :: 0 <= x < |B| ==> B[x] == (x < cut)
    ensures B[ChoiceAt(|S|, w, j, 0)] == (j * w < cut)
  {
  }

  lemma {:induction false} LowerFirst(low: nat, h: nat, w: nat)
    requires low < h && w >= 1
    ensures low * w < h * w
  {
    MulMono(low + 1, h, w);
  }

  lemma {:induction false} PrototypeSees(B: seq<bool>, S: seq<bool>, w: nat, j: nat)
    requires |B| == |S| * w && w >= 1 && j < |S| && S[j] && B[ChoiceAt(|S|, w, j, 0)]
    ensures Prototype(B, S, w)[0]
  {
    assert Chosen(B, S, w, 0);
  }

  lemma {:induction false} PmuxFirst(A: seq<bool>, B: seq<bool>, S: seq<bool>, w: nat)
    requires |B| == |S| * w && |A| == w >= 1 && Highest(S) >= 0
    ensures PmuxValue(A, B, S)[0] == B[ChoiceAt(|S|, w, Highest(S), 0)]
  {
    ChunkAt(B, |S|, Highest(S), 0, w);
  }
}
