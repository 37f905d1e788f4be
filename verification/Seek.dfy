/** Jumping a cursor to a record index (lib/runtime/bstf_reader.c:229-245) against walking
    there one record at a time. */
module Seek {
  import opened Options
  import opened Arith
  import opened BstfReader

  /** The width the mapped record array `rec[]` is laid out with. */
  const REC_STRUCT: nat := 16

  function Struct(t: Trace, i: nat): Rec { t.recAt(HDR_BYTES + i * REC_STRUCT) }

  /** The index of a cursor on the correct path. */
  function CurIndex(t: Trace, c: Cursor): nat
    requires t.recBytes > 0 && c.pos.recByte >= HDR_BYTES
  {
    (c.pos.recByte - HDR_BYTES) / t.recBytes
  }

  /** The overlay indices after the deltas of records 1 to `i`. */
  function Deltas(t: Trace, i: nat): (r: (nat, nat)) {
    if i == 0 then (0, 0)
    else (Deltas(t, i - 1).0 + Struct(t, i).feDelta, Deltas(t, i - 1).1 + Struct(t, i).memDelta)
  }

  method SeekIndex(t: Trace, idx: nat) returns (c: Option<Cursor>)
    ensures c == if idx > t.nRecords then None
                 else Some(CursorAt(Pos(HDR_BYTES + idx * t.recBytes, Deltas(t, idx).0, Deltas(t, idx).1)))
  {
    if idx > t.nRecords { return None; }
    var fe, mem := 0, 0;
    for i := 1 to idx + 1
      invariant (fe, mem) == Deltas(t, i - 1)
    {
      fe, mem := fe + Struct(t, i).feDelta, mem + Struct(t, i).memDelta;
    }
    c := Some(CursorAt(Pos(HDR_BYTES + idx * t.recBytes, fe, mem)));
  }

  /** Walking `n` records from the start reaches the position of record `n`. */
  lemma {:induction false} WalkIs(t: Trace, i: nat, n: nat)
    requires ValidTrace(t) && i + n <= t.nRecords
    ensures AdvanceN(t, CursorAt(CpPos(t, i)), n) == (CursorAt(CpPos(t, i + n)), n)
    decreases n
  {
    if n > 0 {
      CpAvail(t, i);
      assert AdvanceOne(t, CursorAt(CpPos(t, i))) == CursorAt(CpPos(t, i + 1));
      WalkIs(t, i + 1, n - 1);
    }
  }

  lemma {:induction false} DeltasAre(t: Trace, i: nat)
    requires ValidTrace(t) && t.recBytes == REC_STRUCT && (i < t.nRecords || i == 0)
    ensures CpPos(t, i) == Pos(HDR_BYTES + i * t.recBytes, Deltas(t, i).0, Deltas(t, i).1)
    decreases i
  {
    RecByteIs(t, i);
    CpPosByte(t, i);
    if i > 0 {
      DeltasAre(t, i - 1);
      CpAvail(t, i);
    }
  }

  /** With 16-byte records, seeking agrees with walking exactly when the index is of a record,
      or the bytes where a record past the last would lie carry no deltas: the seek adds them,
      the walk does not. */
  lemma {:induction false} SeekIsWalk(t: Trace, idx: nat)
    requires ValidTrace(t) && t.recBytes == REC_STRUCT && idx <= t.nRecords
    ensures CursorAt(Pos(HDR_BYTES + idx * t.recBytes, Deltas(t, idx).0, Deltas(t, idx).1))
            == AdvanceN(t, CursorInit(), idx).0
            <==> (idx < t.nRecords || idx == 0
                  || (Struct(t, idx).feDelta == 0 && Struct(t, idx).memDelta == 0))
  {
    WalkIs(t, 0, idx);
    RecByteIs(t, idx);
    CpPosByte(t, idx);
    if idx < t.nRecords || idx == 0 {
      DeltasAre(t, idx);
    } else {
      DeltasAre(t, idx - 1);
      CpAvail(t, idx);
    }
  }

  /** The index read off a walked cursor is how far it walked. */
  lemma {:induction false} IndexOfWalk(t: Trace, n: nat)
    requires ValidTrace(t) && n <= t.nRecords
    ensures AdvanceN(t, CursorInit(), n).0.pos.recByte >= HDR_BYTES
    ensures CurIndex(t, AdvanceN(t, CursorInit(), n).0) == n
  {
    WalkIs(t, 0, n);
    CpPosByte(t, n);
    RecByteIs(t, n);
    DivExact(n, t.recBytes);
  }
}
