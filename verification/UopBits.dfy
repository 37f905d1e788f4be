/** What the model reads off the window, bit by bit, in terms of the trace alone: the place
    of every record field in the 32-bit uop word (lib/runtime/bstf_reader.c:307-323), and the
    two event bytes of every record, on the correct path and in a shadow. */
module UopBits {
  import opened Options
  import opened BstfReader
  import opened RefillProofs
  import opened RefillRedirect
  import opened RefillSpec
  import opened RefillTheorems
  import opened Window
  import opened Words

  /** Bit `k` of a number below 16. */
  predicate BitOf(n: nat, k: nat)
    requires k < 4
  {
    (if k == 0 then n else if k == 1 then n / 2 else if k == 2 then n / 4 else n / 8) % 2 == 1
  }

  /** The layout of the uop word: each field of the record at its place. */
  ghost predicate ShowsRecord(w: seq<bool>, r: Rec, wrongpath: bool)
    requires |w| >= 32
  {
    && w[31] == wrongpath
    && w[30] == (r.blockEnd || r.blkEnd)
    && w[29] == r.serialize
    && w[28] == r.memStore
    && (forall k :: 0 <= k < 4 ==> w[24 + k] == BitOf(r.uopClass, k))
    && (forall k :: 0 <= k < 4 ==> w[20 + k] == BitOf(r.execLat, k))
    && w[19] == r.src1.valid && (forall k :: 0 <= k < 6 ==> w[13 + k] == r.src1.num[k])
    && w[12] == r.src2.valid && (forall k :: 0 <= k < 6 ==> w[6 + k] == r.src2.num[k])
    && w[5] == r.dst.valid && (forall k :: 0 <= k < 5 ==> w[k] == r.dst.num[k])
  }

  /** A uop as the model reads it: the word of record `r`, with these event bytes. */
  ghost predicate UopOf(u: Uop, r: Rec, wrongpath: bool, fe: Byte, mem: Byte) {
    ShowsRecord(EntryWord(Entry(u, false)), r, wrongpath) && u.fe == fe && u.mem == mem
  }

  /** A byte of an overlay; past its end, and when it is absent, zero. */
  function At(overlay: seq<Byte>, i: nat): Byte {
    if i < |overlay| then overlay[i] else ZeroByte()
  }

  /** The memory event goes with loads, stores and atomics only. */
  function MemAt(overlay: seq<Byte>, i: nat, r: Rec): Byte {
    if r.uopClass == 4 || r.uopClass == 5 || r.uopClass == 12 then At(overlay, i) else ZeroByte()
  }

  /** Correct-path record `i` of the file. */
  function CpRec(t: Trace, i: nat): Rec { t.recAt(HDR_BYTES + i * t.recBytes) }

  /** The deltas of records 1 to `i`, summed. */
  function FeSum(t: Trace, i: nat): nat {
    if i == 0 then 0 else FeSum(t, i - 1) + CpRec(t, i).feDelta
  }

  function MemSum(t: Trace, i: nat): nat {
    if i == 0 then 0 else MemSum(t, i - 1) + CpRec(t, i).memDelta
  }

  // ---- the word ----

  lemma {:induction false} NatBitsAre(n: nat, k: nat)
    requires k < 4
    ensures NatBits(n, 4)[k] == BitOf(n, k)
  {
    var a, b, c := NatBits(n / 2, 3), NatBits(n / 4, 2), NatBits(n / 8, 1);
    assert n / 2 / 2 == n / 4 && n / 4 / 2 == n / 8;
    assert NatBits(n, 4) == [n % 2 == 1] + a;
    assert a == [n / 2 % 2 == 1] + b;
    assert b == [n / 4 % 2 == 1] + c;
    assert c == [n / 8 % 2 == 1] + NatBits(n / 16, 0);
  }

  /** Where the fields of a uop lie in its word. */
  lemma {:induction false} WordFields(d: Duop)
    ensures var w := PackDuop(d);
            && w[31] == d.wrongpath && w[30] == d.blkEnd && w[29] == d.serialize && w[28] == d.memStore
            && w[20..28] == OpBits(d.execLat, d.uopClass)
            && w[13..20] == SrcBits(d.src1) && w[6..13] == SrcBits(d.src2) && w[..6] == DstBits(d.dst)
  {
    hide OpBits; hide SrcBits; hide DstBits;
  }

  lemma {:induction false} OpFields(w: seq<bool>, execLat: nat, uopClass: nat)
    requires |w| == 32 && w[20..28] == OpBits(execLat, uopClass)
    ensures forall k :: 0 <= k < 4 ==> w[24 + k] == BitOf(uopClass, k)
    ensures forall k :: 0 <= k < 4 ==> w[20 + k] == BitOf(execLat, k)
  {
    hide NatBits; hide BitOf;
    forall k | 0 <= k < 4 ensures w[24 + k] == BitOf(uopClass, k) && w[20 + k] == BitOf(execLat, k) {
      NatBitsAre(uopClass, k);
      NatBitsAre(execLat, k);
      assert w[20 + k] == w[20..28][k] && w[24 + k] == w[20..28][4 + k];
    }
  }

  lemma {:induction false} RegFields(w: seq<bool>, at: nat, r: Reg)
    requires at + 7 <= |w| && w[at..at + 7] == SrcBits(r)
    ensures w[at + 6] == r.valid && forall k :: 0 <= k < 6 ==> w[at + k] == r.num[k]
  {
    var s := w[at..at + 7];
    assert w[at + 6] == s[6];
    forall k | 0 <= k < 6 ensures w[at + k] == r.num[k] { assert w[at + k] == s[k]; }
  }

  lemma {:induction false} DstFields(w: seq<bool>, r: Reg)
    requires |w| >= 6 && w[..6] == DstBits(r)
    ensures w[5] == r.valid && forall k :: 0 <= k < 5 ==> w[k] == r.num[k]
  {
    assert w[5] == w[..6][5];
    forall k | 0 <= k < 5 ensures w[k] == r.num[k] { assert w[k] == w[..6][k]; }
  }

  /** Any uop with these fields spells the record in its word. */
  lemma {:induction false} WordShows(d: Duop, r: Rec, wrongpath: bool)
    requires d == Duop(wrongpath, r.blockEnd || r.blkEnd, r.serialize, r.memStore,
                       r.uopClass, r.execLat, r.src1, r.src2, r.dst)
    ensures ShowsRecord(PackDuop(d), r, wrongpath)
  {
    WordFields(d);
    hide PackDuop; hide OpBits; hide SrcBits; hide DstBits; hide BitOf;
    OpFields(PackDuop(d), d.execLat, d.uopClass);
    RegFields(PackDuop(d), 13, d.src1);
    RegFields(PackDuop(d), 6, d.src2);
    DstFields(PackDuop(d), d.dst);
  }

  /** Whatever cursor a record is decoded at, every bit of its entry is where the model looks
      for it: the word in bits 0 to 31, the event bytes in 32 to 47, the shadow mark in 48. */
  lemma {:induction false} EntryShows(t: Trace, c: Cursor, r: Rec)
    ensures var w := EntryWord(DecodeEntry(t, c, r));
            && ShowsRecord(w, r, c.inShadow)
            && (forall k :: 0 <= k < 8 ==> w[32 + k] == DecodeUop(t, c, r).fe[k])
            && (forall k :: 0 <= k < 8 ==> w[40 + k] == DecodeUop(t, c, r).mem[k])
            && w[48] == (!c.inShadow && r.shadowOff != 0 && r.shadowLen != 0)
  {
    EntryFields(DecodeEntry(t, c, r));
    WordShows(DecodeUop(t, c, r).duop, r, c.inShadow);
    hide PackDuop; hide EntryWord; hide DecodeUop;
  }

  // ---- the correct path ----

  lemma {:induction false} CpPosIs(t: Trace, i: nat)
    requires ValidTrace(t) && i < t.nRecords
    ensures CpPos(t, i) == Pos(HDR_BYTES + i * t.recBytes, FeSum(t, i), MemSum(t, i))
    decreases i
  {
    RecByteIs(t, i);
    CpAvail(t, i);
    if i > 0 { CpPosIs(t, i - 1); }
  }

  lemma {:induction false} DecodedIs(t: Trace, c: Cursor, r: Rec)
    ensures var u := DecodeUop(t, c, r);
            UopOf(u, r, c.inShadow, u.fe, u.mem)
  {
    EntryFields(Entry(DecodeUop(t, c, r), false));
    WordShows(DecodeUop(t, c, r).duop, r, c.inShadow);
    hide PackDuop; hide EntryWord;
  }

  /** Correct-path uop `i` is record `i`, with the overlay bytes at the sums of the deltas of
      records 1 to `i`. */
  lemma {:induction false} CpUopShows(t: Trace, i: nat)
    requires ValidTrace(t) && i < t.nRecords
    ensures UopOf(CpUop(t, i), CpRec(t, i), false, At(t.fe, FeSum(t, i)), MemAt(t.mem, MemSum(t, i), CpRec(t, i)))
  {
    hide UopOf;
    CpPosIs(t, i);
    DecodedIs(t, CursorAt(CpPos(t, i)), CpRec(t, i));
  }

  // ---- a shadow ----

  /** Index of the first shadow record of a branch among all shadow records. */
  function ShadowStart(t: Trace, b: Rec): nat
    requires t.recBytes > 0
  {
    if t.shadowOffset != 0 && b.shadowOff >= t.shadowOffset then (b.shadowOff - t.shadowOffset) / t.recBytes else 0
  }

  /** First wrong-path event byte of a branch: `feWpDepth` bytes for every `stride` records. */
  function WpBase(t: Trace, b: Rec): nat
    requires t.recBytes > 0 && b.shadowLen > 0
  {
    if t.feWpDepth == 0 then 0
    else (ShadowStart(t, b) / (if t.shadowStride != 0 then t.shadowStride else b.shadowLen)) * t.feWpDepth
  }

  /** Record `m` of the shadow of a branch. */
  function ShadowRec(t: Trace, b: Rec, m: nat): Rec { t.recAt(b.shadowOff + m * t.recBytes) }

  /** How many of the first `m` shadow records end a block. */
  function BlocksBefore(t: Trace, b: Rec, m: nat): nat {
    if m == 0 then 0
    else BlocksBefore(t, b, m - 1) + (if ShadowRec(t, b, m - 1).blockEnd || ShadowRec(t, b, m - 1).blkEnd then 1 else 0)
  }

  /** The front-end event of shadow record `m`: one byte a block of the wrong path, the last
      one repeated when the shadow has more blocks; without the overlay, the branch's own. */
  function WrongFe(t: Trace, i: nat, m: nat): Byte
    requires t.recBytes > 0 && CpRec(t, i).shadowLen > 0
  {
    var b := CpRec(t, i);
    if t.feWp == [] then At(t.fe, FeSum(t, i))
    else At(t.feWp, WpBase(t, b) + (if t.feWpDepth == 0 then 0 else Min(BlocksBefore(t, b, m), t.feWpDepth - 1)))
  }

  /** The cursor `c` stands after `m` records of the shadow of record `i`. */
  ghost predicate CursorIn(t: Trace, i: nat, m: nat, c: Cursor)
    requires t.recBytes > 0 && CpRec(t, i).shadowLen > 0
  {
    var b := CpRec(t, i);
    && c.inShadow && m <= b.shadowLen && c.shadowLeft == b.shadowLen - m
    && c.pos.recByte == b.shadowOff + m * t.recBytes
    && c.pos.feIdx == FeSum(t, i)
    && c.wpIdx == ShadowStart(t, b) + m
    && c.wpFeBase == WpBase(t, b)
    && c.wpFeBlk == (if t.feWpDepth == 0 then 0 else Min(BlocksBefore(t, b, m), t.feWpDepth - 1))
  }

  lemma {:induction false} CursorFirst(t: Trace, i: nat)
    requires ValidTrace(t) && i < t.nRecords && ShadowAt(t, CpPos(t, i), 0).Some?
    ensures var b := CpRec(t, i);
            && RecHasShadow(b) && b.shadowOff + t.recBytes <= t.mapLen
            && CursorIn(t, i, 0, ShadowAt(t, CpPos(t, i), 0).value)
  {
    hide AdvanceN; hide FeSum; hide CpPos;
    CpPosIs(t, i);
  }

  lemma {:induction false} CursorNext(t: Trace, i: nat, m: nat, c: Cursor)
    requires t.recBytes > 0 && CpRec(t, i).shadowLen > 0 && CursorIn(t, i, m, c) && Avail(t, c)
    ensures CursorIn(t, i, m + 1, AdvanceOne(t, c))
  {
    hide FeSum; hide ShadowStart; hide WpBase; hide CpRec;
    assert (m + 1) * t.recBytes == m * t.recBytes + t.recBytes;
  }

  /** The cursor over the shadow of record `i`, after `m` of its records. */
  lemma {:induction false} ShadowCursorIs(t: Trace, i: nat, m: nat)
    requires ValidTrace(t) && i < t.nRecords && ShadowAt(t, CpPos(t, i), m).Some?
    ensures var b := CpRec(t, i);
            && RecHasShadow(b) && b.shadowOff + t.recBytes <= t.mapLen
            && CursorIn(t, i, m, ShadowAt(t, CpPos(t, i), m).value)
  {
    hide CursorIn; hide AdvanceOne; hide EnterShadow; hide CpRec; hide CpPos;
    if m == 0 {
      CursorFirst(t, i);
    } else {
      ShadowCursorIs(t, i, m - 1);
      CursorNext(t, i, m - 1, ShadowAt(t, CpPos(t, i), m - 1).value);
    }
  }

  /** A branch can be entered exactly when it has a shadow whose first record is in the file. */
  lemma {:induction false} ShadowOpens(t: Trace, i: nat)
    requires ValidTrace(t) && i < t.nRecords
    ensures ShadowAt(t, CpPos(t, i), 0).Some?
            <==> RecHasShadow(CpRec(t, i)) && CpRec(t, i).shadowOff + t.recBytes <= t.mapLen
  {
    hide AdvanceN;
    CpPosIs(t, i);
    CpAvail(t, i);
  }

  /** The shadow of record `i` has a record `m` exactly when its length and the file say so. */
  lemma {:induction false} ShadowReaches(t: Trace, i: nat, m: nat)
    requires ValidTrace(t) && i < t.nRecords
    ensures var b := CpRec(t, i);
            ShadowUop(t, CpPos(t, i), m).Some?
            <==> b.shadowOff != 0 && m < b.shadowLen && b.shadowOff + (m + 1) * t.recBytes <= t.mapLen
  {
    hide DecodeUop;
    ShadowOpens(t, i);
    assert (m + 1) * t.recBytes == m * t.recBytes + t.recBytes;
    if m > 0 {
      ShadowReaches(t, i, m - 1);
      if ShadowAt(t, CpPos(t, i), m - 1).Some? { ShadowCursorIs(t, i, m - 1); }
    }
    if ShadowAt(t, CpPos(t, i), m).Some? { ShadowCursorIs(t, i, m); }
  }

  /** The uop of shadow record `m`: the record at its place in the file, marked wrong-path,
      with the wrong-path event bytes. */
  lemma {:induction false} ShadowUopShows(t: Trace, i: nat, m: nat)
    requires ValidTrace(t) && i < t.nRecords && ShadowUop(t, CpPos(t, i), m).Some?
    requires CpRec(t, i).shadowLen > 0
    ensures var b := CpRec(t, i);
            UopOf(ShadowUop(t, CpPos(t, i), m).value, ShadowRec(t, b, m), true,
                  WrongFe(t, i, m), MemAt(t.memWp, ShadowStart(t, b) + m, ShadowRec(t, b, m)))
  {
    hide UopOf; hide ShadowAt; hide BlocksBefore; hide FeSum;
    ShadowCursorIs(t, i, m);
    DecodedIs(t, ShadowAt(t, CpPos(t, i), m).value, ShadowRec(t, CpRec(t, i), m));
  }

  // ---- every run ----

  /** Wrong-path uops handed over since a branch was entered. */
  function SinceEntered(log: seq<Event>): nat {
    if log == [] || log[|log| - 1].Enter? then 0
    else SinceEntered(log[..|log| - 1]) + (if IsDelivery(log[|log| - 1], true) then 1 else 0)
  }

  /** Where an accepted log has got to, told from its events. */
  lemma {:induction false} ProgressIs(t: Trace, log: seq<Event>)
    requires Protocol(t, log).Some?
    ensures var g := Protocol(t, log).value;
            && g.delivered == Count(log, Correctly)
            && (g.mode.Speculating? ==> LastEntered(log) == Some(g.mode.br) && g.mode.m == SinceEntered(log))
    decreases |log|
  {
    hide CpUop; hide ShadowUop; hide IsBranch;
    if log != [] { ProgressIs(t, log[..|log| - 1]); }
  }

  lemma {:induction false} PrefixAccepted(t: Trace, log: seq<Event>, j: nat)
    requires Protocol(t, log).Some? && j <= |log|
    ensures Protocol(t, log[..j]).Some?
    decreases |log|
  {
    hide Observe;
    if j < |log| {
      PrefixAccepted(t, log[..|log| - 1], j);
      assert log[..|log| - 1][..j] == log[..j];
    } else {
      assert log[..j] == log;
    }
  }

  /** The `m`-th wrong-path uop after entering record `b` is record `m` of its shadow. */
  ghost predicate WrongUopOf(t: Trace, u: Uop, b: nat, m: nat)
    requires t.recBytes > 0
  {
    && b < t.nRecords && CpRec(t, b).shadowLen > 0
    && UopOf(u, ShadowRec(t, CpRec(t, b), m), true,
             WrongFe(t, b, m), MemAt(t.memWp, ShadowStart(t, CpRec(t, b)) + m, ShadowRec(t, CpRec(t, b), m)))
  }

  lemma {:induction false} WrongUopHas(t: Trace, u: Uop, b: nat, m: nat)
    requires t.recBytes > 0 && WrongUopOf(t, u, b, m)
    ensures b < t.nRecords && CpRec(t, b).shadowLen > 0
  {
    hide UopOf;
  }

  lemma {:induction false} WrongUopIs(t: Trace, br: Pos, m: nat)
    requires ValidTrace(t) && IsBranch(t, br) && ShadowUop(t, br, m).Some?
    ensures exists b: nat :: WrongUopOf(t, ShadowUop(t, br, m).value, b, m) && CpPos(t, b) == br
  {
    hide ShadowUop; hide UopOf; hide CpPos;
    var b: nat :| b < t.nRecords && CpPos(t, b) == br && RecHasShadow(t.recAt(br.recByte));
    CpPosIs(t, b);
    ShadowUopShows(t, b, m);
    assert WrongUopOf(t, ShadowUop(t, br, m).value, b, m);
  }

  /** Every uop of every run, bit by bit.  One handed over on the correct path is the record
      whose index is the number of such uops before it; one on the wrong path is the record of
      the shadow of the branch entered last, as many records on as were handed over since. */
  lemma {:induction false} EveryUopIsItsRecord(t: Trace, ins: seq<Input>, j: nat)
    requires ValidTrace(t) && j < |Run(t, ins).log| && Run(t, ins).log[j].Deliver?
    ensures var log := Run(t, ins).log; var u := log[j].uop;
            if IsWrong(u) then
              exists b: nat :: EnteredAt(t, log[..j], b) && WrongUopOf(t, u, b, SinceEntered(log[..j]))
            else
              var i := Count(log[..j], Correctly);
              && i < t.nRecords
              && UopOf(u, CpRec(t, i), false, At(t.fe, FeSum(t, i)), MemAt(t.mem, MemSum(t, i), CpRec(t, i)))
  {
    hide Run; hide Inv; hide CpUop; hide ShadowUop; hide IsBranch; hide UopOf; hide WrongUopOf; hide CpPos;
    RunKeeps(t, ins);
    var log := Run(t, ins).log;
    assert Protocol(t, log).Some? by { EveryRunIsExact(t, ins); }
    PrefixAccepted(t, log, j);
    PrefixAccepted(t, log, j + 1);
    assert log[..j + 1][..j] == log[..j];
    ProgressIs(t, log[..j]);
    var g := Protocol(t, log[..j]).value;
    if IsWrong(log[j].uop) {
      SpeculatesOnBranch(t, log[..j]);
      WrongUopIs(t, g.mode.br, g.mode.m);
      var b: nat :| WrongUopOf(t, log[j].uop, b, g.mode.m) && CpPos(t, b) == g.mode.br;
      assert EnteredAt(t, log[..j], b) by { WrongUopHas(t, log[j].uop, b, g.mode.m); }
    } else {
      CpUopShows(t, g.delivered);
    }
  }

  // ---- the window ----

  /** The uop word that lane `l` shows in slot `k` of the window. */
  function SlotWord(win: FbWin, l: nat, k: nat): (w: seq<bool>)
    requires l < LANES && Shaped(win) && k < W
    ensures |w| == 32
  {
    seq(32, b requires 0 <= b < 32 => win.duop[32 * k + b][l])
  }

  /** Slot `k` of lane `l` shows this record and this memory event. */
  ghost predicate SlotShows(win: FbWin, l: nat, k: nat, r: Rec, wrongpath: bool, mem: Byte)
    requires l < LANES && Shaped(win) && k < W
  {
    && win.valid[k][l]
    && ShowsRecord(SlotWord(win, l, k), r, wrongpath)
    && forall b :: 0 <= b < 8 ==> win.mem[8 * k + b][l] == mem[b]
  }

  lemma {:induction false} SlotIs(stage: seq<Slot>, win: FbWin, l: nat, k: nat, r: Rec, wrongpath: bool, fe: Byte, mem: Byte)
    requires l < LANES && Shaped(win) && LaneFaithful(stage, win, l)
    requires k < W && k < |stage| && UopOf(stage[k].ent.uop, r, wrongpath, fe, mem)
    ensures SlotShows(win, l, k, r, wrongpath, mem)
    ensures k == 0 ==> forall b :: 0 <= b < 8 ==> win.fe[b][l] == fe[b]
  {
    hide PackDuop; hide EntryWord; hide ShowsRecord;
    var u := stage[k].ent.uop;
    EntryFields(Entry(u, false));
    forall b | 0 <= b < 32 ensures SlotWord(win, l, k)[b] == EntryWord(Entry(u, false))[b] {
      assert DuopOk(stage, win, l, k, b);
    }
    ShowsSame(SlotWord(win, l, k), EntryWord(Entry(u, false)), r, wrongpath);
    forall b | 0 <= b < 8 ensures win.mem[8 * k + b][l] == mem[b] {
      assert MemOk(stage, win, l, k, b);
    }
  }

  lemma {:induction false} ShowsSame(v: seq<bool>, w: seq<bool>, r: Rec, wrongpath: bool)
    requires |v| >= 32 && |w| >= 32 && forall b :: 0 <= b < 32 ==> v[b] == w[b]
    requires ShowsRecord(w, r, wrongpath)
    ensures ShowsRecord(v, r, wrongpath)
  {
  }

  /** What the window of a reachable lane shows.  Slot `k` is empty exactly past the end of
      staging; a correct-path slot is the next record but `k`, bit by bit, and a wrong-path one
      the next record of the shadow.  The front-end event is that of the first slot. */
  lemma {:induction false} WindowShowsRecords(t: Trace, ins: seq<Input>, win: FbWin, l: nat, k: nat)
    requires ValidTrace(t) && l < LANES && k < W && Shaped(win) && LaneFaithful(Run(t, ins).stage, win, l)
    ensures var s := Run(t, ins); var i := s.n.cpConsumed + k; var c := PrefixLen(s.stage);
            && win.valid[k][l] == (k < |s.stage|)
            && (k < c ==>
                  && i < t.nRecords
                  && SlotShows(win, l, k, CpRec(t, i), false, MemAt(t.mem, MemSum(t, i), CpRec(t, i)))
                  && (k == 0 ==> forall b :: 0 <= b < 8 ==> win.fe[b][l] == At(t.fe, FeSum(t, i))[b]))
            && (c <= k < |s.stage| ==>
                  exists b: nat :: EnteredAt(t, s.log, b) && WrongSlot(t, win, l, k, b, SinceEntered(s.log) + (k - c)))
  {
    hide Run; hide CpPos; hide CpUop; hide ShadowUop; hide ShadowAt; hide IsBranch; hide SlotShows; hide UopOf;
    hide Protocol;
    RunKeeps(t, ins);
    var s := Run(t, ins);
    var c, g := PrefixLen(s.stage), Protocol(t, s.log).value;
    if k < c {
      assert CpSlot(t, s, s.stage[k], s.n.cpConsumed + k);
      var i := s.n.cpConsumed + k;
      CpUopShows(t, i);
      SlotIs(s.stage, win, l, k, CpRec(t, i), false, At(t.fe, FeSum(t, i)), MemAt(t.mem, MemSum(t, i), CpRec(t, i)));
    } else if k < |s.stage| {
      WrongSlotIs(t, s, win, l, k);
    }
  }

  /** The branch entered last is record `b`. */
  ghost predicate EnteredAt(t: Trace, log: seq<Event>, b: nat) {
    b < t.nRecords && LastEntered(log) == Some(CpPos(t, b)) && CpRec(t, b).shadowLen > 0
  }

  /** Slot `k` shows record `m` of the shadow of record `b`. */
  ghost predicate WrongSlot(t: Trace, win: FbWin, l: nat, k: nat, b: nat, m: nat)
    requires t.recBytes > 0 && l < LANES && Shaped(win) && k < W && CpRec(t, b).shadowLen > 0
  {
    var r := ShadowRec(t, CpRec(t, b), m);
    && SlotShows(win, l, k, r, true, MemAt(t.memWp, ShadowStart(t, CpRec(t, b)) + m, r))
    && (k == 0 ==> forall j :: 0 <= j < 8 ==> win.fe[j][l] == WrongFe(t, b, m)[j])
  }

  /** A staged wrong-path entry is the record of the shadow the lane has got to. */
  lemma {:induction false} StagedWrong(t: Trace, s: LaneState, k: nat)
    requires ValidTrace(t) && Inv(t, s) && PrefixLen(s.stage) <= k < |s.stage|
    ensures exists b: nat ::
              EnteredAt(t, s.log, b) && WrongUopOf(t, s.stage[k].ent.uop, b, SinceEntered(s.log) + (k - PrefixLen(s.stage)))
  {
    hide CpPos; hide CpUop; hide ShadowUop; hide ShadowAt; hide IsBranch; hide Protocol; hide CursorOk; hide PrefixLen;
    hide WrongUopOf;
    var c, g := PrefixLen(s.stage), Protocol(t, s.log).value;
    ProgressIs(t, s.log);
    SpeculatesOnBranch(t, s.log);
    var m := g.mode.m + (k - c);
    assert WpSlot(t, g.mode.br, s.stage[k], m);
    WrongUopIs(t, g.mode.br, m);
    var b: nat :| WrongUopOf(t, s.stage[k].ent.uop, b, m) && CpPos(t, b) == g.mode.br;
    WrongUopHas(t, s.stage[k].ent.uop, b, m);
    assert EnteredAt(t, s.log, b);
  }

  lemma {:induction false} WrongSlotIs(t: Trace, s: LaneState, win: FbWin, l: nat, k: nat)
    requires ValidTrace(t) && Inv(t, s) && l < LANES && Shaped(win) && LaneFaithful(s.stage, win, l)
    requires PrefixLen(s.stage) <= k < |s.stage| && k < W
    ensures exists b: nat ::
              EnteredAt(t, s.log, b) && WrongSlot(t, win, l, k, b, SinceEntered(s.log) + (k - PrefixLen(s.stage)))
  {
    hide Inv; hide SlotShows; hide UopOf; hide LaneFaithful; hide PrefixLen; hide ShadowStart; hide WrongFe; hide MemAt;
    hide ShadowRec; hide EnteredAt; hide SinceEntered;
    StagedWrong(t, s, k);
    var m := SinceEntered(s.log) + (k - PrefixLen(s.stage));
    var u := s.stage[k].ent.uop;
    var b: nat :| EnteredAt(t, s.log, b) && WrongUopOf(t, u, b, m);
    var r := ShadowRec(t, CpRec(t, b), m);
    SlotIs(s.stage, win, l, k, r, true, WrongFe(t, b, m), MemAt(t.memWp, ShadowStart(t, CpRec(t, b)) + m, r));
    assert WrongSlot(t, win, l, k, b, m);
  }
}
