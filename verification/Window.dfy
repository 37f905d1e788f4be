/** The bit-sliced fetch window (lib/runtime/refill.c, `bstm_refill_window`): each lane's
    first W staged entries are packed into three words, and three transposes turn 64
    lanes' words into one word per signal bit. */
module Window {
  import opened BstfReader
  import opened RefillSpec
  import opened Transpose
  import opened Words

  /** Bit `i` of a number. */
  function NatBits(n: nat, w: nat): (b: seq<bool>)
    ensures |b| == w
    decreases w
  {
    if w == 0 then [] else [n % 2 == 1] + NatBits(n / 2, w - 1)
  }

  const DUOP_W: nat := 32

  type DuopWord = b: seq<bool> | |b| == DUOP_W witness seq(DUOP_W, _ => false)

  /** The 32-bit uop word, least significant field first.  Only five bits of the
      destination register fit. */
  function PackDuop(d: Duop): DuopWord {
    DstBits(d.dst) + SrcBits(d.src2) + SrcBits(d.src1) + OpBits(d.execLat, d.uopClass)
    + [d.memStore, d.serialize, d.blkEnd, d.wrongpath]
  }

  function DstBits(r: Reg): (b: seq<bool>)
    ensures |b| == 6
  {
    r.num[..5] + [r.valid]
  }

  function SrcBits(r: Reg): (b: seq<bool>)
    ensures |b| == 7
  {
    r.num + [r.valid]
  }

  function OpBits(execLat: nat, uopClass: nat): (b: seq<bool>)
    ensures |b| == 8
  {
    NatBits(execLat, 4) + NatBits(uopClass, 4)
  }

  /** A staged entry as the 64-bit word the source stores. */
  function EntryWord(e: Entry): Word {
    Widen(PackDuop(e.uop.duop) + e.uop.fe + e.uop.mem + [e.hasShadow])
  }

  /** The field accessors of the source read back what was packed; in particular bit 31
      is the wrong-path mark and bit 48 the shadow mark. */
  lemma {:induction false} EntryFields(e: Entry)
    ensures forall b :: 0 <= b < 32 ==> EntryWord(e)[b] == PackDuop(e.uop.duop)[b]
    ensures forall b {:trigger e.uop.fe[b]} :: 0 <= b < 8 ==> EntryWord(e)[32 + b] == e.uop.fe[b]
    ensures forall b {:trigger e.uop.mem[b]} :: 0 <= b < 8 ==> EntryWord(e)[40 + b] == e.uop.mem[b]
    ensures EntryWord(e)[48] == e.hasShadow
    ensures EntryWord(e)[31] == IsWrong(e.uop)
  {
    var d := PackDuop(e.uop.duop);
    assert d[31] == e.uop.duop.wrongpath;
    var all := d + e.uop.fe + e.uop.mem + [e.hasShadow];
    hide PackDuop; hide Widen;
    forall b | 0 <= b < 8
      ensures EntryWord(e)[32 + b] == e.uop.fe[b] && EntryWord(e)[40 + b] == e.uop.mem[b]
    {
      assert all[32 + b] == e.uop.fe[b];
      assert all[40 + b] == e.uop.mem[b];
    }
  }

  /** Entry `s` of a lane's window, all zeros when the lane has fewer. */
  function WindowWord(stage: seq<Slot>, s: nat): Word {
    if s < |stage| then EntryWord(stage[s].ent) else Zero()
  }

  function Duop32(e: Word): Word { And(e, Low(32)) }
  function Mem8(e: Word): Word { And(Shr(e, 40), Low(8)) }
  function Fe8(e: Word): Word { And(Shr(e, 32), Low(8)) }

  datatype LaneWords = LaneWords(w0: Word, w1: Word, w2: Word)

  /** Two and four fields side by side. */
  function Pair(a: Word, b: Word): Word { Or(a, Shl(b, 32)) }
  function Quad(a: Word, b: Word, c: Word, d: Word): Word { Or(Or(Or(a, Shl(b, 8)), Shl(c, 16)), Shl(d, 24)) }

  /** The three words of one lane, with the shifts and masks of the source. */
  function PackLane(stage: seq<Slot>): LaneWords {
    var n := Min(|stage|, W);
    var e0, e1, e2, e3 := WindowWord(stage, 0), WindowWord(stage, 1), WindowWord(stage, 2), WindowWord(stage, 3);
    LaneWords(
      Pair(Duop32(e0), Duop32(e1)),
      Pair(Duop32(e2), Duop32(e3)),
      Or(Or(Quad(Mem8(e0), Mem8(e1), Mem8(e2), Mem8(e3)), Shl(Fe8(e0), 32)), Shl(Low(n), 40)))
  }

  datatype FbWin = FbWin(valid: seq<Word>, duop: seq<Word>, fe: seq<Word>, mem: seq<Word>)

  /** What the model must see: in bit `l` of every word, the matching bit of lane `l`'s
      `s`-th staged entry, and the front-end event of its first. */
  ghost predicate Faithful(stages: seq<seq<Slot>>, win: FbWin)
    requires |stages| == LANES
  {
    && Shaped(win)
    && forall l :: 0 <= l < LANES ==> LaneFaithful(stages[l], win, l)
  }

  ghost predicate Shaped(win: FbWin) {
    |win.valid| == W && |win.duop| == W * 32 && |win.fe| == 8 && |win.mem| == W * 8
  }

  ghost predicate DuopOk(stage: seq<Slot>, win: FbWin, l: nat, s: nat, b: nat)
    requires l < LANES && Shaped(win) && s < W && b < 32
  {
    win.duop[32 * s + b][l] == (s < |stage| && PackDuop(stage[s].ent.uop.duop)[b])
  }

  ghost predicate MemOk(stage: seq<Slot>, win: FbWin, l: nat, s: nat, b: nat)
    requires l < LANES && Shaped(win) && s < W && b < 8
  {
    win.mem[8 * s + b][l] == (s < |stage| && stage[s].ent.uop.mem[b])
  }

  ghost predicate LaneFaithful(stage: seq<Slot>, win: FbWin, l: nat)
    requires l < LANES && Shaped(win)
  {
    && (forall s :: 0 <= s < W ==> win.valid[s][l] == (s < |stage|))
    && (forall s, b :: 0 <= s < W && 0 <= b < 32 ==> DuopOk(stage, win, l, s, b))
    && (forall s, b :: 0 <= s < W && 0 <= b < 8 ==> MemOk(stage, win, l, s, b))
    && (forall b :: 0 <= b < 8 ==> win.fe[b][l] == (|stage| > 0 && stage[0].ent.uop.fe[b]))
  }

  /** The bits of a window entry, field by field. */
  lemma {:induction false} WindowWordBits(stage: seq<Slot>, s: nat)
    ensures forall b :: 0 <= b < 32 ==> WindowWord(stage, s)[b] == (s < |stage| && PackDuop(stage[s].ent.uop.duop)[b])
    ensures forall b {:trigger WindowWord(stage, s)[32 + b]} :: 0 <= b < 8 ==>
              WindowWord(stage, s)[32 + b] == (s < |stage| && stage[s].ent.uop.fe[b])
    ensures forall b {:trigger WindowWord(stage, s)[40 + b]} :: 0 <= b < 8 ==>
              WindowWord(stage, s)[40 + b] == (s < |stage| && stage[s].ent.uop.mem[b])
  {
    hide PackDuop; hide EntryWord;
    if s < |stage| {
      EntryFields(stage[s].ent);
    }
  }

  predicate Below(w: Word, n: nat) { forall i :: n <= i < LANES ==> !w[i] }

  lemma {:induction false} PairBits(a: Word, b: Word, k: nat)
    requires Below(a, 32) && k < 32
    ensures Pair(a, b)[k] == a[k] && Pair(a, b)[32 + k] == b[k]
  {
    hide Or; hide Shl;
  }

  lemma {:induction false} QuadBits(a: Word, b: Word, c: Word, d: Word, k: nat)
    requires Below(a, 8) && Below(b, 8) && Below(c, 8) && Below(d, 8) && k < 8
    ensures Quad(a, b, c, d)[k] == a[k] && Quad(a, b, c, d)[8 + k] == b[k]
    ensures Quad(a, b, c, d)[16 + k] == c[k] && Quad(a, b, c, d)[24 + k] == d[k]
  {
    hide Or; hide Shl;
  }

  lemma {:induction false} QuadBelow(a: Word, b: Word, c: Word, d: Word)
    requires Below(a, 8) && Below(b, 8) && Below(c, 8) && Below(d, 8)
    ensures Below(Quad(a, b, c, d), 32)
  {
    hide Or; hide Shl;
  }

  /** The three masked fields of a window entry. */
  lemma {:induction false} FieldBits(stage: seq<Slot>, s: nat, b: nat)
    ensures Below(Duop32(WindowWord(stage, s)), 32)
    ensures Below(Mem8(WindowWord(stage, s)), 8) && Below(Fe8(WindowWord(stage, s)), 8)
    ensures b < 32 ==> Duop32(WindowWord(stage, s))[b] == (s < |stage| && PackDuop(stage[s].ent.uop.duop)[b])
    ensures b < 8 ==> Mem8(WindowWord(stage, s))[b] == (s < |stage| && stage[s].ent.uop.mem[b])
    ensures b < 8 ==> Fe8(WindowWord(stage, s))[b] == (s < |stage| && stage[s].ent.uop.fe[b])
  {
    hide And; hide Shr; hide Low; hide WindowWord; hide PackDuop;
    WindowWordBits(stage, s);
    if b < 8 { assert WindowWord(stage, s)[32 + b] == WindowWord(stage, s)[b + 32]; }
  }

  lemma {:induction false} DuopBits(stage: seq<Slot>, s: nat, b: nat)
    requires s < W && b < 32
    ensures (if s < 2 then PackLane(stage).w0 else PackLane(stage).w1)[32 * (s % 2) + b]
            == (s < |stage| && PackDuop(stage[s].ent.uop.duop)[b])
  {
    hide WindowWord; hide PackDuop; hide Duop32; hide Mem8; hide Fe8; hide Pair; hide Quad; hide Shl; hide Or;
    FieldBits(stage, 0, b);
    FieldBits(stage, 1, b);
    FieldBits(stage, 2, b);
    FieldBits(stage, 3, b);
    var e0, e1, e2, e3 := WindowWord(stage, 0), WindowWord(stage, 1), WindowWord(stage, 2), WindowWord(stage, 3);
    PairBits(Duop32(e0), Duop32(e1), b);
    PairBits(Duop32(e2), Duop32(e3), b);
  }

  lemma {:induction false} ThirdWordBits(stage: seq<Slot>, s: nat, b: nat)
    requires s < W && b < 8
    ensures PackLane(stage).w2[8 * s + b] == (s < |stage| && stage[s].ent.uop.mem[b])
    ensures PackLane(stage).w2[32 + b] == (|stage| > 0 && stage[0].ent.uop.fe[b])
    ensures b < W ==> PackLane(stage).w2[40 + b] == (b < |stage|)
  {
    hide WindowWord; hide PackDuop; hide Duop32; hide Mem8; hide Fe8; hide Pair; hide Quad; hide Shl; hide Or; hide Low;
    FieldBits(stage, 0, b);
    FieldBits(stage, 1, b);
    FieldBits(stage, 2, b);
    FieldBits(stage, 3, b);
    var m0, m1 := Mem8(WindowWord(stage, 0)), Mem8(WindowWord(stage, 1));
    var m2, m3 := Mem8(WindowWord(stage, 2)), Mem8(WindowWord(stage, 3));
    QuadBits(m0, m1, m2, m3, b);
    QuadBelow(m0, m1, m2, m3);
    var w2 := PackLane(stage).w2;
    assert w2[b] == m0[b] && w2[8 + b] == m1[b] && w2[16 + b] == m2[b] && w2[24 + b] == m3[b];
  }

  /** The window cut out of the three transposed matrices. */
  function CutWindow(p0: Matrix, p1: Matrix, p2: Matrix): FbWin {
    FbWin(p2[40..40 + W], p0 + p1, p2[32..40], p2[..W * 8])
  }

  /** Transposing the packed lanes gives a faithful window. */
  lemma {:induction false} PackedIsFaithful(stages: seq<seq<Slot>>, p0: Matrix, p1: Matrix, p2: Matrix)
    requires |stages| == LANES
    requires forall l :: 0 <= l < LANES ==> LaneWords(p0[l], p1[l], p2[l]) == PackLane(stages[l])
    ensures Faithful(stages, CutWindow(Transposed(p0), Transposed(p1), Transposed(p2)))
  {
    hide PackLane; hide PackDuop; hide Transposed;
    var win := CutWindow(Transposed(p0), Transposed(p1), Transposed(p2));
    forall l | 0 <= l < LANES ensures LaneFaithful(stages[l], win, l) {
      LaneIsFaithful(stages[l], p0, p1, p2, l);
    }
  }

  lemma {:induction false} LaneIsFaithful(stage: seq<Slot>, p0: Matrix, p1: Matrix, p2: Matrix, l: nat)
    requires l < LANES && LaneWords(p0[l], p1[l], p2[l]) == PackLane(stage)
    ensures LaneFaithful(stage, CutWindow(Transposed(p0), Transposed(p1), Transposed(p2)), l)
  {
    hide PackLane; hide PackDuop; hide Transposed;
    var t0, t1, t2 := Transposed(p0), Transposed(p1), Transposed(p2);
    var win := CutWindow(t0, t1, t2);
    forall s, b | 0 <= s < W && 0 <= b < 32
      ensures DuopOk(stage, win, l, s, b)
    {
      DuopBits(stage, s, b);
      assert win.duop[32 * s + b] == if s < 2 then t0[32 * (s % 2) + b] else t1[32 * (s % 2) + b];
    }
    forall s, b | 0 <= s < W && 0 <= b < 8
      ensures MemOk(stage, win, l, s, b)
    {
      ThirdWordBits(stage, s, b);
      assert win.mem[8 * s + b] == t2[8 * s + b];
    }
    forall b | 0 <= b < 8 ensures win.fe[b][l] == (|stage| > 0 && stage[0].ent.uop.fe[b]) {
      ThirdWordBits(stage, 0, b);
    }
    forall s | 0 <= s < W ensures win.valid[s][l] == (s < |stage|) {
      ThirdWordBits(stage, 0, s);
    }
  }

  // ---- small unpacking ----

  /** The `nbits`-bit number that lane `l` holds across `words`. */
  function LaneValue(words: seq<Word>, l: nat): nat
    requires l < LANES
  {
    if words == [] then 0 else (if words[0][l] then 1 else 0) + 2 * LaneValue(words[1..], l)
  }

  function ByteValue(bits: seq<bool>): nat {
    if bits == [] then 0 else (if bits[0] then 1 else 0) + 2 * ByteValue(bits[1..])
  }

  /** One byte per lane, bit `b` of it from word `b`. */
  method UnpackSmall(words: seq<Word>) returns (vals: seq<Byte>)
    requires |words| <= 8
    ensures |vals| == LANES
    ensures forall l, b :: 0 <= l < LANES && 0 <= b < 8 ==> vals[l][b] == (b < |words| && words[b][l])
  {
    var a := new Byte[LANES](_ => ZeroByte());
    var b := 0;
    forall l | 0 <= l < LANES
      ensures a[l] == LaneByte(words, 0, l)
    {
    }
    while b < |words|
      invariant b <= |words|
      invariant forall l :: 0 <= l < LANES ==> a[l] == LaneByte(words, b, l)
    {
      var l := 0;
      while l < LANES
        invariant l <= LANES
        invariant forall m :: 0 <= m < LANES ==> a[m] == LaneByte(words, if m < l then b + 1 else b, m)
      {
        LaneByteNext(words, b, l);
        a[l] := a[l][b := a[l][b] || words[b][l]];
        l := l + 1;
      }
      b := b + 1;
    }
    vals := a[..];
  }

  /** Bit `l` of each of the first `n` words. */
  function LaneByte(words: seq<Word>, n: nat, l: nat): (v: Byte)
    requires n <= |words| <= 8 && l < LANES
    ensures forall k :: 0 <= k < 8 ==> v[k] == (k < n && words[k][l])
  {
    seq(8, k requires 0 <= k < 8 => k < n && words[k][l])
  }

  lemma {:induction false} LaneByteNext(words: seq<Word>, b: nat, l: nat)
    requires b < |words| <= 8 && l < LANES
    ensures LaneByte(words, b, l)[b := LaneByte(words, b, l)[b] || words[b][l]] == LaneByte(words, b + 1, l)
  {
  }

  lemma {:induction false} ByteIsLaneValue(words: seq<Word>, l: nat, bits: seq<bool>)
    requires l < LANES && |words| <= |bits|
    requires forall b :: 0 <= b < |bits| ==> bits[b] == (b < |words| && words[b][l])
    ensures ByteValue(bits) == LaneValue(words, l)
    decreases |bits|
  {
    if bits != [] {
      if words == [] {
        ByteIsLaneValue(words, l, bits[1..]);
      } else {
        ByteIsLaneValue(words[1..], l, bits[1..]);
      }
    }
  }

  // ---- full packing and unpacking ----

  method PackLanes(vals: Matrix, nbits: nat) returns (out: seq<Word>)
    requires nbits <= LANES
    ensures out == Transposed(vals)[..nbits]
  {
    var A := new Word[LANES](i requires 0 <= i < LANES => vals[i]);
    assert A[..] == vals;
    Transpose64(A);
    out := A[..nbits];
  }

  function Padded(words: seq<Word>): (m: Matrix)
    requires |words| <= LANES
  {
    words + seq(LANES - |words|, _ => Zero())
  }

  method UnpackLanes(words: seq<Word>) returns (vals: Matrix)
    requires |words| <= LANES
    ensures vals == Transposed(Padded(words))
  {
    var m := Padded(words);
    var A := new Word[LANES](i requires 0 <= i < LANES => m[i]);
    assert A[..] == m;
    Transpose64(A);
    vals := A[..];
  }

  /** Unpacking what was packed gives back the low bits of every lane's value. */
  lemma {:induction false} PackUnpack(vals: Matrix, nbits: nat)
    requires nbits <= LANES
    ensures Transposed(Padded(Transposed(vals)[..nbits]))
            == seq(LANES, l requires 0 <= l < LANES => And(vals[l], Low(nbits)))
  {
    var p := Padded(Transposed(vals)[..nbits]);
    var x := Transposed(p);
    var y := seq(LANES, l requires 0 <= l < LANES => And(vals[l], Low(nbits)));
    forall l | 0 <= l < LANES ensures x[l] == y[l] {
      forall b | 0 <= b < LANES ensures x[l][b] == y[l][b] {
        assert x[l][b] == p[b][l];
      }
    }
  }
}
