/** The `.bstf` trace, its overlays and the cursor that walks them
    (lib/runtime/bstf_reader.h and bstf_reader.c).

    A mapped file is modelled by the function `recAt`, which gives the record
    decoded at any byte offset; an overlay that is absent is the empty sequence. */
module BstfReader {
  import opened Options
  import opened Words

  /** Size in bytes of the packed file header. */
  const HDR_BYTES: nat := 232

  const UC_LOAD: nat := 4
  const UC_STORE: nat := 5
  const UC_AMO: nat := 12

  type RegNum = b: seq<bool> | |b| == 6 witness [false, false, false, false, false, false]

  /** A register operand byte: the valid bit and the register number. */
  datatype Reg = Reg(valid: bool, num: RegNum)

  /** The fields of a 16-byte record the reader uses.  `serialize` and `blkEnd` are the
      bits BF_SERIALIZE and BF_BLK_END of the flags byte. */
  datatype Rec = Rec(
    uopClass: nat, execLat: nat, src1: Reg, src2: Reg, dst: Reg,
    serialize: bool, blkEnd: bool,
    memStore: bool, blockEnd: bool, feDelta: nat, memDelta: nat,
    shadowOff: nat, shadowLen: nat)

  datatype Trace = Trace(
    recAt: nat -> Rec,
    mapLen: nat, nRecords: nat, recBytes: nat, cpEnd: nat,
    fe: seq<Byte>, mem: seq<Byte>, feWp: seq<Byte>, memWp: seq<Byte>,
    shadowOffset: nat, shadowStride: nat, feWpDepth: nat)

  /** A trace the reader accepts: records are at least as wide as the fields the
      reader knows, and the mapping covers every correct-path record. */
  ghost predicate ValidTrace(t: Trace) {
    && t.recBytes >= 16
    && t.cpEnd == RecByte(t, t.nRecords)
    && t.cpEnd <= t.mapLen
  }

  datatype Pos = Pos(recByte: nat, feIdx: nat, memIdx: nat)

  datatype Cursor = Cursor(
    pos: Pos,
    inShadow: bool, shadowLeft: nat, wpIdx: nat, wpFeBase: nat, wpFeBlk: nat,
    sv: Pos)

  const ZERO_POS := Pos(0, 0, 0)

  /** A zeroed cursor placed at `p`. */
  function CursorAt(p: Pos): Cursor {
    Cursor(p, false, 0, 0, 0, 0, ZERO_POS)
  }

  function CursorInit(): Cursor {
    CursorAt(Pos(HDR_BYTES, 0, 0))
  }

  predicate Avail(t: Trace, c: Cursor) {
    if c.inShadow then c.shadowLeft > 0 else c.pos.recByte < t.cpEnd
  }

  function Peek(t: Trace, c: Cursor): Option<Rec> {
    if !Avail(t, c) then None
    else if c.pos.recByte + t.recBytes > t.mapLen then None
    else Some(t.recAt(c.pos.recByte))
  }

  function FeEvent(t: Trace, c: Cursor): Byte {
    if c.inShadow && t.feWp != [] then
      var i := c.wpFeBase + c.wpFeBlk;
      if i < |t.feWp| then t.feWp[i] else ZeroByte()
    else if c.pos.feIdx < |t.fe| then t.fe[c.pos.feIdx] else ZeroByte()
  }

  function MemEvent(t: Trace, c: Cursor): Byte {
    if c.inShadow then
      if c.wpIdx < |t.memWp| then t.memWp[c.wpIdx] else ZeroByte()
    else if c.pos.memIdx < |t.mem| then t.mem[c.pos.memIdx] else ZeroByte()
  }

  predicate RecHasMem(r: Rec) {
    r.uopClass == UC_LOAD || r.uopClass == UC_STORE || r.uopClass == UC_AMO
  }

  function MemEventOf(t: Trace, c: Cursor, r: Rec): Byte {
    if RecHasMem(r) then MemEvent(t, c) else ZeroByte()
  }

  predicate EndsBlock(r: Rec) {
    r.blockEnd || r.blkEnd
  }

  /** The next correct-path position: the record moved onto carries the deltas,
      and the position past the last record adds none. */
  function NextPos(t: Trace, p: Pos): Pos {
    var b := p.recByte + t.recBytes;
    if b < t.cpEnd && b + t.recBytes <= t.mapLen then
      Pos(b, p.feIdx + t.recAt(b).feDelta, p.memIdx + t.recAt(b).memDelta)
    else
      Pos(b, p.feIdx, p.memIdx)
  }

  /** One step of the advance loop, at a cursor that has a record. */
  function AdvanceOne(t: Trace, c: Cursor): Cursor
    requires Avail(t, c)
  {
    if c.inShadow then
      var be := EndsBlock(t.recAt(c.pos.recByte));
      c.(pos := c.pos.(recByte := c.pos.recByte + t.recBytes),
         shadowLeft := c.shadowLeft - 1,
         wpIdx := c.wpIdx + 1,
         wpFeBlk := if be && t.feWpDepth != 0 && c.wpFeBlk + 1 < t.feWpDepth
                    then c.wpFeBlk + 1 else c.wpFeBlk)
    else
      c.(pos := NextPos(t, c.pos))
  }

  function AdvanceN(t: Trace, c: Cursor, n: nat): (r: (Cursor, nat))
    ensures r.1 <= n
    decreases n
  {
    if n == 0 || !Avail(t, c) then (c, 0)
    else var (c', done) := AdvanceN(t, AdvanceOne(t, c), n - 1); (c', done + 1)
  }

  /** The advance loop itself. */
  method Advance(t: Trace, c0: Cursor, n: nat) returns (c: Cursor, done: nat)
    ensures (c, done) == AdvanceN(t, c0, n)
    ensures done < n ==> !Avail(t, c)
  {
    c, done := c0, 0;
    while done < n
      invariant done <= n
      invariant AdvanceN(t, c0, n) == (AdvanceN(t, c, n - done).0, AdvanceN(t, c, n - done).1 + done)
    {
      if !Avail(t, c) {
        break;
      }
      c := AdvanceOne(t, c);
      done := done + 1;
    }
  }

  function Div(a: nat, b: nat): nat
    requires b != 0
  {
    a / b
  }

  function Mul(a: nat, b: nat): (r: nat)
  {
    a * b
  }

  /** Moves a cursor standing on a branch record into that branch's shadow. */
  function EnterShadow(t: Trace, c: Cursor): Option<Cursor> {
    match Peek(t, c)
    case None => None
    case Some(r) =>
      if c.inShadow || r.shadowOff == 0 || r.shadowLen == 0 then None
      else if r.shadowOff + t.recBytes > t.mapLen then None
      else
        var resume := AdvanceN(t, c, 1).0;
        var wpIdx := if t.shadowOffset != 0 && r.shadowOff >= t.shadowOffset && t.recBytes != 0
                     then Div(r.shadowOff - t.shadowOffset, t.recBytes) else 0;
        var stride := if t.shadowStride != 0 then t.shadowStride else r.shadowLen;
        Some(c.(sv := resume.pos,
                pos := c.pos.(recByte := r.shadowOff),
                inShadow := true,
                shadowLeft := r.shadowLen,
                wpIdx := wpIdx,
                wpFeBlk := 0,
                wpFeBase := if t.feWpDepth != 0 then Mul(Div(wpIdx, stride), t.feWpDepth) else 0))
  }

  function LeaveShadow(c: Cursor): Cursor {
    if !c.inShadow then c
    else c.(pos := c.sv, inShadow := false, shadowLeft := 0, wpIdx := 0, wpFeBase := 0, wpFeBlk := 0)
  }

  /** The model's decoded uop, field by field; `Window.PackDuop` is its 32-bit word. */
  datatype Duop = Duop(
    wrongpath: bool, blkEnd: bool, serialize: bool, memStore: bool,
    uopClass: nat, execLat: nat, src1: Reg, src2: Reg, dst: Reg)

  function RecToDuop(r: Rec, wrongpath: bool): Duop {
    Duop(wrongpath, EndsBlock(r), r.serialize, r.memStore, r.uopClass, r.execLat, r.src1, r.src2, r.dst)
  }

  // ---- correct-path positions ----

  /** Byte offset of correct-path record `i`. */
  function RecByte(t: Trace, i: nat): nat {
    if i == 0 then HDR_BYTES else RecByte(t, i - 1) + t.recBytes
  }

  lemma {:induction false} RecByteIs(t: Trace, i: nat)
    ensures RecByte(t, i) == HDR_BYTES + i * t.recBytes
  {
    if i != 0 {
      RecByteIs(t, i - 1);
      assert i * t.recBytes == (i - 1) * t.recBytes + t.recBytes;
    }
  }

  /** The position a cursor reaches by advancing `i` times from the start. */
  function CpPos(t: Trace, i: nat): Pos {
    if i == 0 then Pos(HDR_BYTES, 0, 0) else NextPos(t, CpPos(t, i - 1))
  }

  lemma {:induction false} CpPosByte(t: Trace, i: nat)
    ensures CpPos(t, i).recByte == RecByte(t, i)
  {
    if i != 0 {
      CpPosByte(t, i - 1);
    }
  }

  lemma {:induction false} RecByteMono(t: Trace, i: nat, j: nat)
    requires i < j
    ensures RecByte(t, i) + t.recBytes <= RecByte(t, j)
    decreases j
  {
    if i < j - 1 {
      RecByteMono(t, i, j - 1);
    }
  }

  /** A correct-path cursor still has a record exactly when its index is in range. */
  lemma {:induction false} CpAvail(t: Trace, i: nat)
    requires ValidTrace(t) && i <= t.nRecords
    ensures CpPos(t, i).recByte == RecByte(t, i)
    ensures RecByte(t, i) < t.cpEnd <==> i < t.nRecords
    ensures i < t.nRecords ==> RecByte(t, i) + t.recBytes <= t.mapLen
  {
    CpPosByte(t, i);
    if i < t.nRecords {
      RecByteMono(t, i, t.nRecords);
    }
  }
}
