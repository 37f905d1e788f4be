/** The per-worker deque of lib/runtime/pool.c: a growable buffer with a live interval
    [top, bot).  The owner works at the bottom, thieves at the top. */
module Deque {

  class Deque {
    var buf: array<int>
    var cap: nat
    var top: nat
    var bot: nat

    ghost predicate Valid()
      reads this
    {
      buf.Length == cap > 0 && top <= bot <= cap
    }

    /** The queued values, top first. */
    ghost function Contents(): seq<int>
      requires Valid()
      reads this, buf
    {
      buf[top..bot]
    }

    constructor (c: nat)
      requires c > 0
      ensures Valid() && Contents() == [] && fresh(buf)
    {
      buf := new int[c](_ => 0);
      cap, top, bot := c, 0, 0;
    }

    /** Doubles the buffer when it is full, keeping what it holds. */
    method Grow()
      requires Valid() && bot == cap
      modifies this`buf, this`cap
      ensures Valid() && bot < cap && fresh(buf)
      ensures Contents() == old(Contents())
    {
      var wider := new int[cap * 2](_ => 0);
      forall i | 0 <= i < cap { wider[i] := buf[i]; }
      assert wider[top..bot] == buf[top..bot];
      buf, cap := wider, cap * 2;
    }

    method Push(v: int)
      requires Valid()
      modifies this, buf
      ensures Valid() && (buf == old(buf) || fresh(buf))
      ensures Contents() == old(Contents()) + [v]
    {
      if bot == cap {
        Grow();
      }
      buf[bot] := v;
      bot := bot + 1;
    }

    /** The owner takes the value pushed last. */
    method Pop() returns (ok: bool, v: int)
      requires Valid()
      modifies this`bot
      ensures Valid()
      ensures ok == (old(Contents()) != [])
      ensures ok ==> old(Contents()) == Contents() + [v]
      ensures !ok ==> Contents() == old(Contents())
    {
      ok, v := false, 0;
      if bot > top {
        bot := bot - 1;
        v, ok := buf[bot], true;
      }
    }

    /** A thief takes the value pushed first. */
    method Steal() returns (ok: bool, v: int)
      requires Valid()
      modifies this`top
      ensures Valid()
      ensures ok == (old(Contents()) != [])
      ensures ok ==> old(Contents()) == [v] + Contents()
      ensures !ok ==> Contents() == old(Contents())
    {
      ok, v := false, 0;
      if bot > top {
        v, ok := buf[top], true;
        top := top + 1;
      }
    }
  }
}
