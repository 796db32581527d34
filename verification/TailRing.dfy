/** The log viewer's line ring (internal/admin/tail.go). `head` is the write index while the buffer
    fills and the oldest entry once it is full. */
module TailRing {
  import opened Sequences

  class RingBuffer {
    const data: array<string>
    var head: nat
    var full: bool
    /** Every line ever pushed. */
    ghost var history: seq<string>

    ghost predicate Valid()
      reads this, data
    {
      && 0 < data.Length && head < data.Length
      && Contents() == LastN(history, data.Length)
    }

    /** The buffered lines, oldest first. */
    ghost function Contents(): seq<string>
      reads this, data
      requires head < data.Length
    {
      Unwound(data[..], head, full)
    }

    /** NewRingBuffer panics on a capacity of zero or less. */
    constructor (capacity: nat)
      requires capacity > 0
      ensures Valid() && history == [] && data.Length == capacity && fresh(data)
    {
      data := new string[capacity](_ => "");
      head, full, history := 0, false, [];
    }

    method Push(line: string)
      requires Valid()
      modifies this, data
      ensures Valid() && history == old(history) + [line]
    {
      hide LastN, Unwound;
      LastNPush(history, data.Length, line);
      NextSlot(head, data.Length);
      UnwoundPush(data[..], head, full, line);
      ghost var slots := data[..];
      data[head] := line;
      assert data[..] == slots[head := line];
      if full {
        head := (head + 1) % data.Length;
      } else {
        head := head + 1;
        if head == data.Length {
          head := 0;
          full := true;
        }
      }
      history := history + [line];
    }

    /** Exactly the last `cap` lines pushed, in push order. */
    method Copy() returns (result: seq<string>)
      requires Valid()
      ensures result == LastN(history, data.Length)
    {
      hide LastN;
      if !full && head == 0 {
        return [];
      }
      if full {
        var slots := new string[data.Length](_ => "");
        var k := data.Length - head;
        forall i | 0 <= i < k {
          slots[i] := data[head + i];
        }
        forall i | 0 <= i < head {
          slots[k + i] := data[i];
        }
        assert slots[..] == data[head..] + data[..head];
        return slots[..];
      }
      return data[..head];
    }
  }

  /** The entries of a circular buffer, oldest first. */
  function Unwound<T>(slots: seq<T>, head: nat, full: bool): seq<T>
    requires head < |slots|
  {
    if full then slots[head..] + slots[..head] else slots[..head]
  }

  lemma {:induction false} NextSlot(head: nat, n: nat)
    requires head < n
    ensures (head + 1) % n == if head + 1 == n then 0 else head + 1
  {
  }

  /** Writing at the head slot and moving it on appends, forgetting the oldest entry of a full buffer. */
  lemma {:induction false} UnwoundPush<T>(slots: seq<T>, head: nat, full: bool, x: T)
    requires head < |slots|
    ensures
      var now := Unwound(slots[head := x], if head + 1 == |slots| then 0 else head + 1, full || head + 1 == |slots|);
      var was := Unwound(slots, head, full);
      now == if full then was[1..] + [x] else was + [x]
    ensures |Unwound(slots, head, full)| == if full then |slots| else head
  {
    hide Unwound;
    if full {
      FullPush(slots, head, x);
    } else {
      FillingPush(slots, head, x);
    }
  }

  lemma {:induction false} FillingPush<T>(slots: seq<T>, head: nat, x: T)
    requires head < |slots|
    ensures Unwound(slots, head, false) == slots[..head]
    ensures head + 1 < |slots| ==> Unwound(slots[head := x], head + 1, false) == slots[..head] + [x]
    ensures head + 1 == |slots| ==> Unwound(slots[head := x], 0, true) == slots[..head] + [x]
  {
  }

  lemma {:induction false} FullPush<T>(slots: seq<T>, head: nat, x: T)
    requires head < |slots|
    ensures
      var was := Unwound(slots, head, true);
      |was| == |slots| && was[1..] == slots[head + 1..] + slots[..head]
    ensures head + 1 < |slots| ==> Unwound(slots[head := x], head + 1, true) == slots[head + 1..] + slots[..head] + [x]
    ensures head + 1 == |slots| ==> Unwound(slots[head := x], 0, true) == slots[head + 1..] + slots[..head] + [x]
  {
    DropFirst(slots[head..], slots[..head]);
    var after := slots[head := x];
    assert after[head + 1..] == slots[head + 1..] && after[..head + 1] == slots[..head] + [x];
  }

  lemma {:induction false} DropFirst<T>(a: seq<T>, b: seq<T>)
    requires a != []
    ensures (a + b)[1..] == a[1..] + b
  {
  }
}
