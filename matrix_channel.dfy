/**
  `MatrixChannel` of theone_ncurses.py: one column of the screen. It keeps
  a queue of glyphs from the shared generator and, one glyph per iteration
  of its `process` loop, moves the front of the queue into its ring buffer,
  marking the first visible glyph after a gap as HEAD and picking the delay
  before the next glyph. The renderer only ever reads the ring buffer.
*/
module Channels {
  import opened Wrappers
  import opened Random
  import opened Text
  import opened Glyphs
  import opened RingBuffers

  /** `CHANNEL_DELAY` and `FAST_CHANNEL_DELAY`, in seconds. */
  const ChannelDelay: real := 0.08
  const FastChannelDelay: real := 0.0001

  /** The queue topped up when empty: `self._q.extend(new_message(...))` on an empty deque. */
  function Refill(g: MessageGenerator, length: int, q: seq<Glyph>, t: Tape): (r: Result<Drawn<seq<Glyph>>>)
    ensures q != [] ==> r == Ok(Drawn(q, t))
    ensures q == [] ==> r == Message(g, length, [], t)
    ensures r.Ok? && length >= 0 ==> r.value.value != []
  {
    if q == [] then Message(g, length, [], t) else Ok(Drawn(q, t))
  }

  /**
    The HEAD rule: the glyph just before (the newest one in the buffer) is
    blank, this glyph is not, and the glyph after it (the new front of the
    queue) is not blank either.
  */
  predicate StartsRun(prev: Option<Glyph>, x: Glyph, next: Option<Glyph>) {
    prev.Some? && IsSpace(prev.value.ch) && next.Some? && !IsSpace(next.value.ch) && !IsSpace(x.ch)
  }

  /** `attr |= EncodingAttr.HEAD` under the HEAD rule. */
  function HeadAttrs(prev: Option<Glyph>, x: Glyph, next: Option<Glyph>): (a: set<Attr>)
    ensures a - {Head} == x.attrs - {Head}
    ensures Head in a <==> Head in x.attrs || StartsRun(prev, x, next)
  {
    if StartsRun(prev, x, next) then x.attrs + {Head} else x.attrs
  }

  /**
    The delay before the glyph is appended: re-drawn (1 in 21 fast) when
    there is none yet or the glyph is a HEAD, otherwise the previous one.
  */
  function NextDelay(delay: Option<real>, attrs: set<Attr>, t: Tape): (r: Result<Drawn<real>>)
    ensures delay.Some? && Head !in attrs ==> r == Ok(Drawn(delay.value, t))
    ensures (delay.None? || Head in attrs) ==>
              && (r.Ok? <==> t != [])
              && (r.Ok? ==> r.value.rest == t[1..] && r.value.value in {ChannelDelay, FastChannelDelay})
              && (r.Err? ==> r.error == Exhausted)
  {
    if delay.None? || Head in attrs then
      var roll :- RandInt(t, 0, 20);
      Ok(Drawn(if roll.value == 0 then FastChannelDelay else ChannelDelay, roll.rest))
    else
      Ok(Drawn(delay.value, t))
  }

  /** `self._q[0] if len(self._q) else None`. */
  function Front(q: seq<Glyph>): (r: Option<Glyph>)
    ensures r.None? <==> q == []
    ensures r.Some? ==> r.value == q[0]
  {
    if q == [] then None else Some(q[0])
  }

  /** What one iteration of `process` produces: the appended glyph and the channel's next state. */
  datatype StepResult = StepResult(glyph: Glyph, queue: seq<Glyph>, delay: real, rest: Tape)

  /**
    One iteration of `process`, in the order of the source: refill, peek at
    the buffer, pop the front (IndexError on an empty queue), refill again,
    look at the new front, apply the HEAD rule, pick the delay.
  */
  function StepOf(g: MessageGenerator, length: int, q: seq<Glyph>, prev: Option<Glyph>, delay: Option<real>, t: Tape)
    : (r: Result<StepResult>)
    ensures r.Ok? && length >= 0 ==> r.value.queue != []
    ensures length >= 0 && g.alphabet != [] && r.Err? ==> r.error != IndexError
  {
    var q1 :- Refill(g, length, q, t);
    if q1.value == [] then Err(IndexError)
    else
      var x := q1.value[0];
      var q2 :- Refill(g, length, q1.value[1..], q1.rest);
      var attrs := HeadAttrs(prev, x, Front(q2.value));
      var d :- NextDelay(delay, attrs, q2.rest);
      Ok(StepResult(Glyph(x.ch, attrs), q2.value, d.value, d.rest))
  }

  /** No glyph of the queue carries HEAD: only `process` adds it, on the way into the buffer. */
  predicate NoHeads(q: seq<Glyph>) {
    forall x <- q :: Head !in x.attrs
  }

  /** Every HEAD in the column is a visible glyph right after a blank one. */
  predicate HeadsFollowBlanks(h: seq<Glyph>) {
    forall i :: 0 <= i < |h| && Head in h[i].attrs ==> 0 < i && IsSpace(h[i - 1].ch) && !IsSpace(h[i].ch)
  }

  /**
    FIFO when the queue holds a glyph: a step emits the front glyph (same
    character, same flags apart from HEAD) and leaves the rest of the queue,
    topped up from the generator when that glyph was the last one. With at
    least two glyphs queued nothing is generated and only the delay draws.
  */
  lemma StepIsFifo(g: MessageGenerator, length: int, q: seq<Glyph>, prev: Option<Glyph>, delay: Option<real>, t: Tape)
    requires q != []
    ensures var r := StepOf(g, length, q, prev, delay, t);
            var q2 := Refill(g, length, q[1..], t);
            && (r.Ok? <==> q2.Ok? && NextDelay(delay, HeadAttrs(prev, q[0], Front(q2.value.value)), q2.value.rest).Ok?)
            && (r.Ok? ==> && r.value.glyph.ch == q[0].ch
                          && r.value.glyph.attrs - {Head} == q[0].attrs - {Head}
                          && r.value.queue == q2.value.value)
    ensures |q| >= 2 ==>
              var r := StepOf(g, length, q, prev, delay, t);
              && (r.Ok? <==> NextDelay(delay, HeadAttrs(prev, q[0], Some(q[1])), t).Ok?)
              && (r.Ok? ==> r.value.queue == q[1..])
  {
  }

  /**
    On an empty queue a step first generates a message and emits its front
    glyph; a negative length generates nothing and the `popleft` raises.
  */
  lemma StepOnEmptyQueue(g: MessageGenerator, length: int, prev: Option<Glyph>, delay: Option<real>, t: Tape)
    ensures var r := StepOf(g, length, [], prev, delay, t);
            var m := Message(g, length, [], t);
            && (m.Err? ==> r == Err(m.error))
            && (r.Ok? ==> && m.Ok? && m.value.value != []
                          && r.value.glyph.ch == m.value.value[0].ch
                          && r.value.glyph.attrs - {Head} == m.value.value[0].attrs - {Head}
                          && r.value.queue == Refill(g, length, m.value.value[1..], m.value.rest).value.value)
    ensures length < 0 ==> StepOf(g, length, [], prev, delay, t) == Err(IndexError)
  {
    DegenerateLengths(g, t);
  }

  /**
    The HEAD flag of an emitted glyph is exactly the HEAD rule, for glyphs the
    generator made: the look-ahead is the front of the queue after the step,
    which may be the first glyph of a freshly generated message.
  */
  lemma HeadExactly(g: MessageGenerator, length: int, q: seq<Glyph>, prev: Option<Glyph>, delay: Option<real>, t: Tape)
    requires NoHeads(q)
    ensures var r := StepOf(g, length, q, prev, delay, t);
            && (r.Ok? && q != [] ==> (Head in r.value.glyph.attrs <==> StartsRun(prev, q[0], Front(r.value.queue))))
            && (r.Ok? && q == [] ==>
                  (Head in r.value.glyph.attrs <==>
                   StartsRun(prev, Message(g, length, [], t).value.value[0], Front(r.value.queue))))
    ensures var r := StepOf(g, length, q, prev, delay, t);
            r.Ok? && length >= 0 ==> Front(r.value.queue) == Some(r.value.queue[0])
  {
    var r := StepOf(g, length, q, prev, delay, t);
    if r.Ok? && q == [] {
      MessageTags(g, length, [], t);
    }
  }

  /**
    A step keeps the queue free of HEAD, adds HEAD only after a blank, and
    picks one of the two delays.
  */
  lemma StepKeepsInvariant(g: MessageGenerator, length: int, q: seq<Glyph>, h: seq<Glyph>, delay: Option<real>, t: Tape)
    requires NoHeads(q) && HeadsFollowBlanks(h)
    requires delay.Some? ==> delay.value in {ChannelDelay, FastChannelDelay}
    ensures var r := StepOf(g, length, q, Newest(h), delay, t);
            r.Ok? ==> && NoHeads(r.value.queue) && HeadsFollowBlanks(h + [r.value.glyph])
                      && r.value.delay in {ChannelDelay, FastChannelDelay}
  {
    var r := StepOf(g, length, q, Newest(h), delay, t);
    if r.Ok? {
      var q1 := Refill(g, length, q, t).value;
      MessageTags(g, length, [], t);
      assert NoHeads(q1.value);
      var x := q1.value[0];
      MessageTags(g, length, [], q1.rest);
      assert NoHeads(r.value.queue);
      var h' := h + [r.value.glyph];
      forall i | 0 <= i < |h'| && Head in h'[i].attrs
        ensures 0 < i && IsSpace(h'[i - 1].ch) && !IsSpace(h'[i].ch)
      {
        if i == |h| {
          assert Head !in x.attrs;
        } else {
          assert h'[i] == h[i];
        }
      }
    }
  }

  /** A channel of height `length`, with the local `channeldelay` of `process` kept as a field between iterations. */
  class MatrixChannel {
    const channelId: int
    const length: nat
    const generator: MessageGenerator
    var queue: seq<Glyph>             // self._q
    const buf: RingBuffer<Glyph>      // self._buf
    var delay: Option<real>           // channeldelay of process()

    ghost predicate Valid()
      reads this, buf, buf.data
    {
      && buf.Valid() && buf.max == length
      && NoHeads(queue)
      && HeadsFollowBlanks(buf.history)
      && (delay.Some? ==> delay.value in {ChannelDelay, FastChannelDelay})
    }

    /** `MatrixChannel(channelid, generator, renderer)` once the initial blank count is drawn. */
    constructor (id: int, g: MessageGenerator, height: nat, blanks: nat)
      requires height >= 1 && blanks <= height
      ensures Valid() && fresh(buf) && fresh(buf.data)
      ensures channelId == id && generator == g && length == height
      ensures queue == NewSpaceMessage(blanks) && buf.history == [] && delay == None
    {
      channelId := id;
      generator := g;
      length := height;
      queue := NewSpaceMessage(blanks);
      buf := new RingBuffer<Glyph>(height);
      delay := None;
    }

    /** `__init__`: draws the initial number of blanks, randint(0, height). */
    static method Create(id: int, g: MessageGenerator, height: nat, t: Tape) returns (r: Result<(MatrixChannel, Tape)>)
      requires height >= 1
      ensures RandInt(t, 0, height).Err? ==> r == Err(RandInt(t, 0, height).error)
      ensures RandInt(t, 0, height).Ok? ==>
                && r.Ok? && r.value.1 == t[1..]
                && var c := r.value.0;
                   && fresh(c) && fresh(c.buf) && fresh(c.buf.data) && c.Valid()
                   && c.channelId == id && c.generator == g && c.length == height
                   && c.queue == NewSpaceMessage(RandInt(t, 0, height).value.value)
                   && c.buf.history == [] && c.delay == None
    {
      var n := RandInt(t, 0, height);
      if n.Err? {
        return Err(n.error);
      }
      var c := new MatrixChannel(id, g, height, n.value.value);
      return Ok((c, n.value.rest));
    }

    /** `self.buf`: what the renderer sees, the last `length` glyphs the channel emitted. */
    method Buf() returns (r: seq<Glyph>)
      requires Valid()
      ensures r == Last(buf.history, length)
    {
      r := buf.Get();
    }

    /** One iteration of `process` computed without changing anything. */
    method NextStep(t: Tape) returns (s: Result<StepResult>)
      requires Valid()
      ensures s == StepOf(generator, length, queue, Newest(buf.history), delay, t)
    {
      var q1 := RefillQueue(queue, t);
      if q1.Err? {
        return Err(q1.error);
      }
      if q1.value.value == [] {
        return Err(IndexError);
      }
      var prev := buf.Peek();
      var x := q1.value.value[0];
      var q2 := RefillQueue(q1.value.value[1..], q1.value.rest);
      if q2.Err? {
        return Err(q2.error);
      }
      var attrs := HeadAttrs(prev, x, Front(q2.value.value));
      var d := NextDelay(delay, attrs, q2.value.rest);
      if d.Err? {
        return Err(d.error);
      }
      return Ok(StepResult(Glyph(x.ch, attrs), q2.value.value, d.value.value, d.value.rest));
    }

    /** The queue topped up from the generator when empty. */
    method RefillQueue(q: seq<Glyph>, t: Tape) returns (r: Result<Drawn<seq<Glyph>>>)
      ensures r == Refill(generator, length, q, t)
    {
      if q == [] {
        r := NewMessage(generator, length, t);
      } else {
        r := Ok(Drawn(q, t));
      }
    }

    /**
      One iteration of `process`. The state changes only when the iteration
      completes; an exception leaves the channel as it was.
    */
    method Step(t: Tape) returns (r: Result<Tape>)
      requires Valid()
      modifies this, buf, buf.data
      ensures Valid()
      ensures var s := StepOf(generator, length, old(queue), Newest(old(buf.history)), old(delay), t);
              && (s.Ok? ==> && r == Ok(s.value.rest)
                            && queue == s.value.queue && delay == Some(s.value.delay)
                            && buf.history == old(buf.history) + [s.value.glyph])
              && (s.Err? ==> && r == Err(s.error)
                             && queue == old(queue) && delay == old(delay) && buf.history == old(buf.history))
    {
      var s := NextStep(t);
      if s.Err? {
        return Err(s.error);
      }
      StepKeepsInvariant(generator, length, queue, buf.history, delay, t);
      buf.Append(s.value.glyph);
      queue := s.value.queue;
      delay := Some(s.value.delay);
      r := Ok(s.value.rest);
    }
  }
}
