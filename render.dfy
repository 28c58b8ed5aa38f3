/**
  `MatrixChannelRenderer.render_channel` of theone_ncurses.py: each glyph of
  a channel's buffer becomes one `addstr(y, x, message, color)` call, the
  oldest glyph lowest on the screen. The calls are returned as a list of
  `Draw` commands instead of being sent to the terminal.
*/
module Rendering {
  import opened Wrappers
  import opened Random
  import opened Glyphs

  /** The colour pairs 1..4: green, red, yellow and magenta on black. */
  datatype ColourPair = Green | Red | Yellow | Magenta

  /** One `addstr` call; every call adds `A_BOLD`. */
  datatype Draw = Draw(row: int, col: int, ch: char, colour: ColourPair, bold: bool)

  /** The colour chosen by the chain of overrides HEAD, then CIPHER, then DANGER. */
  function ColourOf(a: set<Attr>): (c: ColourPair)
    ensures Danger in a ==> c == Magenta
    ensures Danger !in a && Cipher in a ==> c == Red
    ensures Danger !in a && Cipher !in a && Head in a ==> c == Yellow
    ensures Danger !in a && Cipher !in a && Head !in a ==> c == Green
  {
    var c1 := Green;
    var c2 := if Head in a then Yellow else c1;
    var c3 := if Cipher in a then Red else c2;
    if Danger in a then Magenta else c3
  }

  /** The call for glyph `idx` of `buf`: a DANGER glyph flickers to a blank on a roll of 0 on randint(0, 1). */
  function DrawAt(channelId: int, buf: seq<Glyph>, idx: nat, t: Tape): (r: Result<Drawn<Draw>>)
    requires idx < |buf|
    ensures Danger !in buf[idx].attrs ==> r.Ok? && r.value.rest == t && r.value.value.ch == buf[idx].ch
    ensures Danger in buf[idx].attrs ==> (r.Ok? <==> t != []) && (r.Ok? ==> r.value.rest == t[1..])
    ensures r.Ok? ==> var d := r.value.value;
              && d.row == |buf| - idx && d.col == channelId && d.bold
              && d.colour == ColourOf(buf[idx].attrs)
              && (d.ch == buf[idx].ch || (Danger in buf[idx].attrs && d.ch == ' '))
    ensures r.Err? ==> r.error == Exhausted
  {
    var x := buf[idx];
    var colour := ColourOf(x.attrs);
    if Danger in x.attrs then
      var roll :- RandInt(t, 0, 1);
      Ok(Drawn(Draw(|buf| - idx, channelId, if roll.value == 0 then ' ' else x.ch, colour, true), roll.rest))
    else
      Ok(Drawn(Draw(|buf| - idx, channelId, x.ch, colour, true), t))
  }

  /** The loop of `render_channel` from glyph `idx` on, with the calls made so far in `out`. */
  function Rendered(channelId: int, buf: seq<Glyph>, idx: nat, out: seq<Draw>, t: Tape): (r: Result<Drawn<seq<Draw>>>)
    requires idx <= |buf|
    ensures r.Ok? ==> out <= r.value.value && |r.value.value| == |out| + |buf| - idx
    decreases |buf| - idx
  {
    if idx == |buf| then Ok(Drawn(out, t))
    else
      var d :- DrawAt(channelId, buf, idx, t);
      Rendered(channelId, buf, idx + 1, out + [d.value], d.rest)
  }

  /** The number of DANGER glyphs: the number of draws a render consumes. */
  function DangerCount(s: seq<Glyph>): nat {
    if s == [] then 0 else (if Danger in s[0].attrs then 1 else 0) + DangerCount(s[1..])
  }

  /** The positions of `s` that hold a DANGER glyph. */
  function DangerIndices(s: seq<Glyph>): set<nat> {
    set i: nat | i < |s| && Danger in s[i].attrs
  }

  /** Appending a glyph adds it to the count exactly when it is DANGER. */
  lemma {:induction false} DangerCountAppend(s: seq<Glyph>, x: Glyph)
    ensures DangerCount(s + [x]) == DangerCount(s) + (if Danger in x.attrs then 1 else 0)
  {
    if s != [] {
      assert (s + [x])[1..] == s[1..] + [x];
      DangerCountAppend(s[1..], x);
    }
  }

  /** `DangerCount` counts exactly the DANGER positions. */
  lemma {:induction false} DangerCountIsIndices(s: seq<Glyph>)
    ensures DangerCount(s) == |DangerIndices(s)|
  {
    if s != [] {
      var p, x := s[..|s| - 1], s[|s| - 1];
      assert s == p + [x];
      DangerCountAppend(p, x);
      DangerCountIsIndices(p);
      if Danger in x.attrs {
        assert DangerIndices(s) == DangerIndices(p) + {|p|};
      } else {
        assert DangerIndices(s) == DangerIndices(p);
      }
    }
  }

  /** What a call for glyph `k` of `buf` may be. */
  predicate DrawsGlyph(channelId: int, buf: seq<Glyph>, k: nat, d: Draw)
    requires k < |buf|
  {
    && d.row == |buf| - k && d.col == channelId && d.bold
    && d.colour == ColourOf(buf[k].attrs)
    && (Danger !in buf[k].attrs ==> d.ch == buf[k].ch)
    && (Danger in buf[k].attrs ==> d.ch == buf[k].ch || d.ch == ' ')
  }

  /**
    A rendered buffer: glyph k is drawn in row len(buf) - k of column
    `channelId`, in its colour, unchanged unless it is DANGER; the render
    draws once per DANGER glyph and can only fail by running out of draws.
  */
  lemma {:induction false} RenderedDraws(channelId: int, buf: seq<Glyph>, idx: nat, out: seq<Draw>, t: Tape)
    requires idx <= |buf| && |out| == idx
    requires forall k :: 0 <= k < idx ==> DrawsGlyph(channelId, buf, k, out[k])
    ensures var r := Rendered(channelId, buf, idx, out, t);
            && (r.Ok? ==> && |r.value.value| == |buf|
                          && (forall k :: 0 <= k < |buf| ==> DrawsGlyph(channelId, buf, k, r.value.value[k]))
                          && |t| - |r.value.rest| == DangerCount(buf[idx..]))
            && (r.Ok? <==> DangerCount(buf[idx..]) <= |t|)
            && (r.Err? ==> r.error == Exhausted)
    decreases |buf| - idx
  {
    if idx < |buf| {
      assert buf[idx..][1..] == buf[idx + 1..];
      var d := DrawAt(channelId, buf, idx, t);
      if d.Ok? {
        RenderedDraws(channelId, buf, idx + 1, out + [d.value.value], d.value.rest);
      }
    }
  }

  /** `render_channel(channelid, buf)`. */
  method RenderChannel(channelId: int, buf: seq<Glyph>, t: Tape) returns (r: Result<Drawn<seq<Draw>>>)
    ensures r == Rendered(channelId, buf, 0, [], t)
  {
    var out: seq<Draw> := [];
    var tape := t;
    for idx := 0 to |buf|
      invariant Rendered(channelId, buf, idx, out, tape) == Rendered(channelId, buf, 0, [], t)
    {
      var d := DrawAt(channelId, buf, idx, tape);
      if d.Err? {
        return Err(d.error);
      }
      out := out + [d.value.value];
      tape := d.value.rest;
    }
    return Ok(Drawn(out, tape));
  }
}
