/** handler/ratelimit/ring_buffer.go */
module RingBuffers {
  import opened Options
  import opened Periods
  import opened RateLimits

  /** What the slots hold, oldest first, after these puts: the latest n, after zero times. */
  function SlotAfter(puts: seq<int>, n: nat, i: nat): Option<int>
    requires i < n
  {
    if |puts| + i < n then None else Some(puts[|puts| + i - n])
  }

  lemma Wrap(x: nat, n: nat)
    requires x < 2 * n
    ensures x % n == if x < n then x else x - n
  {
    Quotient(x, n, if x < n then 0 else 1);
  }

  class RingBuffer {
    const buf: array<Option<int>>
    const len: nat
    var r: nat
    var w: nat
    ghost var puts: seq<int>

    /** The position of the i-th oldest slot. */
    ghost function Position(i: nat): nat
      reads this
    {
      if r + i < len then r + i else r + i - len
    }

    ghost predicate Valid()
      reads this, buf
    {
      && buf.Length == len > 0 && r < len && w == Position(len - 1)
      && forall i :: 0 <= i < len ==> 0 <= Position(i) < len && buf[Position(i)] == SlotAfter(puts, len, i)
    }

    constructor (len: nat)
      requires len > 0
      ensures Valid() && fresh(buf) && this.len == len && puts == []
    {
      buf := new Option<int>[len](_ => None);
      this.len := len;
      r := 0;
      w := len - 1;
      puts := [];
    }

    method Put(t: int)
      requires Valid()
      modifies this, buf
      ensures Valid() && puts == old(puts) + [t]
    {
      Wrap(r + 1, len);
      Wrap(w + 1, len);
      ghost var oldest := r;
      r := r + 1;
      r := r % len;
      w := w + 1;
      w := w % len;
      assert w == oldest;
      buf[w] := Some(t);
      puts := puts + [t];
      forall i | 0 <= i < len
        ensures 0 <= Position(i) < len && buf[Position(i)] == SlotAfter(puts, len, i)
      {
        if i < len - 1 {
          assert Position(i) == old(Position(i + 1)) != w;
        }
      }
    }

    /** The time that is as many puts back as the buffer is long. */
    method Get() returns (t: Option<int>)
      requires Valid()
      ensures t == Latest(puts, len)
    {
      t := buf[r];
      assert Position(0) == r;
    }
  }
}
