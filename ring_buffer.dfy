/**
  The overwrite-oldest buffer of theone_ncurses.py. The source starts an
  instance as a growing list and, the moment the list reaches its capacity,
  swaps the instance's class for a "full" class whose `append` overwrites the
  oldest slot. Here one class carries a `full` flag in place of the swap.
  The asyncio lock around each operation is dropped: each operation is one
  atomic step.
*/
module RingBuffers {
  import opened Wrappers

  /** The last `n` elements of `s` (all of `s` when it is shorter). */
  function Last<T>(s: seq<T>, n: nat): (r: seq<T>)
    ensures |r| == if |s| <= n then |s| else n
    ensures r <= s || (|s| > n && r == s[|s| - n..])
  {
    if |s| <= n then s else s[|s| - n..]
  }

  /** The most recent element of `s`, if any. */
  function Newest<T>(s: seq<T>): (r: Option<T>)
    ensures r.None? <==> s == []
  {
    if s == [] then None else Some(s[|s| - 1])
  }

  class RingBuffer<T(0)> {
    const max: nat                  // size_max
    var data: array<T>              // self.data; only data[..len] is in use while not full
    var len: nat                    // len(self.data)
    var cur: Option<nat>            // self.cur; None until the first append
    var full: bool                  // the instance has switched to the full behaviour
    ghost var history: seq<T>       // everything ever appended, oldest first

    ghost predicate Valid()
      reads this, data
    {
      && max >= 1 && data.Length == max && len <= max
      && (!full ==>
            && len < max && data[..len] == history
            && cur == (if len == 0 then None else Some(len - 1)))
      && (full ==>
            && len == max && cur.Some? && cur.value < max && |history| >= max
            && data[cur.value..] + data[..cur.value] == history[|history| - max..])
    }

    /** `RingBuffer(size_max)`: empty and not full. */
    constructor (sizeMax: nat)
      requires sizeMax >= 1
      ensures Valid() && fresh(data)
      ensures max == sizeMax && history == [] && !full && cur == None
    {
      max := sizeMax;
      data := new T[sizeMax];
      len := 0;
      cur := None;
      full := false;
      history := [];
    }

    /** `append(x)`: dispatches on the behaviour the instance currently has. */
    method Append(x: T)
      requires Valid()
      modifies this, data
      ensures Valid() && data == old(data)
      ensures history == old(history) + [x]
      ensures full <==> |history| >= max
      ensures old(full) ==> full
    {
      if full {
        AppendFull(x);
      } else {
        AppendGrowing(x);
      }
    }

    /** `append` of the not-yet-full class: grow, and switch behaviour on reaching `max`. */
    method AppendGrowing(x: T)
      requires Valid() && !full
      modifies this, data
      ensures Valid() && data == old(data)
      ensures history == old(history) + [x]
      ensures full <==> |history| == max
    {
      data[len] := x;
      len := len + 1;
      cur := Some(len - 1);
      history := history + [x];
      assert data[..len] == old(data[..len]) + [x];
      if len == max {
        // permanently switch to the full behaviour
        cur := Some(0);
        full := true;
        assert data[..len] == data[0..] + data[..0];
        assert history[|history| - max..] == history;
      }
    }

    /** `append` of the full class: overwrite the oldest slot and advance the cursor. */
    method AppendFull(x: T)
      requires Valid() && full
      modifies this`cur, this`history, data
      ensures Valid() && full
      ensures history == old(history) + [x]
    {
      var c := cur.value;
      var next := (c + 1) % max;
      ghost var before := data[..];
      ghost var window := history[|history| - max..];
      RotateOverwrite(before, c, next, x);
      data[c] := x;
      cur := Some(next);
      assert data[..] == before[c := x];
      history := history + [x];
      assert history[|history| - max..] == window[1..] + [x];
    }

    /** `get()`: the retained elements, oldest to newest. */
    method Get() returns (r: seq<T>)
      requires Valid()
      ensures r == Last(history, max)
    {
      if !full {
        r := data[..len];
      } else {
        r := data[cur.value..] + data[..cur.value];
      }
    }

    /** `peek()`: the most recently appended element, or None before any append. */
    method Peek() returns (r: Option<T>)
      requires Valid()
      ensures r == Newest(history)
    {
      if !full {
        r := if cur.None? then None else Some(data[cur.value]);
      } else {
        var last := if cur.value == 0 then max - 1 else cur.value - 1;
        ghost var window := history[|history| - max..];
        assert window[max - 1] == history[|history| - 1];
        if cur.value == 0 {
          assert window == data[0..];
        } else {
          assert window[max - 1] == data[..cur.value][cur.value - 1];
        }
        r := Some(data[last]);
      }
    }
  }

  /** Overwriting slot `c` and advancing the cursor to `next` drops the oldest element of the rotation and adds `x` as the newest. */
  lemma RotateOverwrite<T>(d: seq<T>, c: nat, next: nat, x: T)
    requires c < |d| && next == if c + 1 < |d| then c + 1 else 0
    ensures d[c := x][next..] + d[c := x][..next] == (d[c..] + d[..c])[1..] + [x]
  {
    var e := d[c := x];
    var lhs, rhs := e[next..] + e[..next], (d[c..] + d[..c])[1..] + [x];
    assert |lhs| == |rhs| == |d|;
    forall i | 0 <= i < |d| ensures lhs[i] == rhs[i] {
      if i < |d| - 1 {
        assert rhs[i] == (d[c..] + d[..c])[i + 1];
        if c + 1 + i < |d| {
          assert rhs[i] == d[c + 1 + i];
        } else {
          assert rhs[i] == d[c + 1 + i - |d|];
        }
      }
    }
  }

  /** Appending to the retained window: the oldest element drops out once the window is full. */
  lemma LastAppend<T>(s: seq<T>, x: T, n: nat)
    requires n >= 1
    ensures Last(s + [x], n) == (if |s| < n then Last(s, n) + [x] else Last(s, n)[1..] + [x])
  {
    if |s| >= n {
      assert (s + [x])[|s| + 1 - n..] == s[|s| - n..][1..] + [x];
    }
  }

  /** The capacity-5 scenario: after A..F the buffer holds B..F and peeks F. */
  method FiveSlotScenario() returns (snapshot: seq<char>, newest: Option<char>)
    ensures snapshot == "BCDEF" && newest == Some('F')
  {
    var b := new RingBuffer<char>(5);
    b.Append('A');
    b.Append('B');
    b.Append('C');
    b.Append('D');
    b.Append('E');
    b.Append('F');
    assert b.history == "ABCDEF";
    snapshot := b.Get();
    newest := b.Peek();
  }
}
