/**
  `Matrix` of theone.py: a row of scrolling columns read through plain
  iterators. With colour on, a character that follows a blank in its column
  is wrapped in VT100 colour escapes written backwards, so that they read
  forwards once the frame text is reversed.
*/
module HeadFrames {
  import opened Wrappers
  import opened Random
  import opened Text
  import opened Alphabets
  import opened Scrolling
  import opened CipherFrames

  /** theone.py's `MessageGenerator(ciphers)`: its own table, and '' as the cipher when there is no word. */
  function TheOneGenerator(ciphers: string): Generator {
    NewGenerator(LatinGreekAlphabet, ciphers, true)
  }

  /**
    theone.py's generator never raises: `generate_message` and
    `_populate_message` can only stop for want of draws, with or without
    cipher words.
  */
  lemma TheOneNeverRaises(ciphers: string, length: nat, height: int, s: string, t: Tape)
    requires height >= 1
    ensures var r := GenerateMessage(TheOneGenerator(ciphers), length, t); r.Err? ==> r.error == Exhausted
    ensures var r := Populated(TheOneGenerator(ciphers), height, s, t); r.Err? ==> r.error == Exhausted
  {
    LatinGreekAlphabetIsRain();
  }

  /** `'m29[\033{}m69[\033'.format(c)`: the escapes around a head character, written backwards. */
  function Wrapped(c: char): string {
    "m29[\U{1b}" + [c] + "m69[\U{1b}"
  }

  /** Once reversed, a wrapped character reads bright cyan (SGR 96), the character, then bright green (SGR 92). */
  lemma WrappedReads(c: char)
    ensures Reverse(Wrapped(c)) == "\U{1b}[96m" + [c] + "\U{1b}[92m"
  {
    var w, e := Wrapped(c), "\U{1b}[96m" + [c] + "\U{1b}[92m";
    forall i | 0 <= i < |w|
      ensures Reverse(w)[i] == e[i]
    {
    }
  }

  /**
    Character `h` of column `j` is a head: colour is on and the column's
    previous character in this frame exists, is whitespace, and is followed
    by a character that is not.
  */
  predicate IsHead(vs: seq<string>, showColor: bool, h: nat, j: nat)
    requires j < |vs| && h < |vs[j]|
  {
    showColor && h > 0 && IsSpace(vs[j][h - 1]) && !IsSpace(vs[j][h])
  }

  /** What `next(d)` on column `j` adds to row `h`. */
  function HeadCell(vs: seq<string>, showColor: bool, h: nat, j: nat): string
    requires j < |vs| && h < |vs[j]|
  {
    if IsHead(vs, showColor, h, j) then Wrapped(vs[j][h]) else [vs[j][h]]
  }

  /** Row `h` over the first `j` columns. */
  function HeadRow(vs: seq<string>, showColor: bool, h: nat, j: nat): string
    requires j <= |vs| && Tall(vs, h + 1)
  {
    if j == 0 then [] else HeadRow(vs, showColor, h, j - 1) + HeadCell(vs, showColor, h, j - 1)
  }

  /** `s` after the first `n` rows of the nested loop, each ended by a newline. */
  function HeadFrame(vs: seq<string>, showColor: bool, n: nat): string
    requires Tall(vs, n)
  {
    if n == 0 then [] else HeadFrame(vs, showColor, n - 1) + HeadRow(vs, showColor, n - 1, |vs|) + "\n"
  }

  /** The text `get_screen_and_scroll(showcolor)` returns when the columns are in states `ss`. */
  function HeadScreen(g: Generator, height: nat, ss: seq<ChannelState>, showColor: bool): string
    requires forall j :: 0 <= j < |ss| ==> ValidState(g, height, ss[j])
  {
    VisiblesTall(g, height, ss);
    Reverse(HeadFrame(Visibles(g, height, ss), showColor, height))
  }

  /** On screen a cell reads as its character, in colour escapes exactly when it is a head. */
  lemma HeadCellReads(vs: seq<string>, showColor: bool, h: nat, j: nat)
    requires j < |vs| && h < |vs[j]|
    ensures IsHead(vs, showColor, h, j) ==> showColor && h > 0
    ensures Reverse(HeadCell(vs, showColor, h, j)) ==
              if IsHead(vs, showColor, h, j) then "\U{1b}[96m" + [vs[j][h]] + "\U{1b}[92m" else [vs[j][h]]
  {
    if IsHead(vs, showColor, h, j) {
      WrappedReads(vs[j][h]);
    }
  }

  /** Without colour, and in the first row always, a row is the plain row: character `h` of each column. */
  lemma {:induction false} HeadRowPlain(vs: seq<string>, showColor: bool, h: nat, j: nat)
    requires j <= |vs| && Tall(vs, h + 1)
    requires !showColor || h == 0
    ensures HeadRow(vs, showColor, h, j) == PlainRow(vs, h, j)
  {
    if j > 0 {
      HeadRowPlain(vs, showColor, h, j - 1);
    }
  }

  /** Without colour the frame is the plain frame. */
  lemma {:induction false} HeadFramePlain(vs: seq<string>, n: nat)
    requires Tall(vs, n)
    ensures HeadFrame(vs, false, n) == PlainFrame(vs, n)
  {
    if n > 0 {
      assert HeadFrame(vs, false, n - 1) == PlainFrame(vs, n - 1) by {
        HeadFramePlain(vs, n - 1);
      }
      assert HeadRow(vs, false, n - 1, |vs|) == PlainRow(vs, n - 1, |vs|) by {
        HeadRowPlain(vs, false, n - 1, |vs|);
      }
    }
  }

  /**
    The reversal puts the row built last on top: the frame of `n + 1` rows
    reads a newline, the reversed last row, then the reversed first `n` rows.
  */
  lemma LastRowOnTop(vs: seq<string>, showColor: bool, n: nat)
    requires Tall(vs, n + 1)
    ensures Reverse(HeadFrame(vs, showColor, n + 1)) ==
              "\n" + Reverse(HeadRow(vs, showColor, n, |vs|)) + Reverse(HeadFrame(vs, showColor, n))
  {
    var f, r := HeadFrame(vs, showColor, n), HeadRow(vs, showColor, n, |vs|);
    assert Reverse(f + r + "\n") == "\n" + Reverse(f + r) by {
      ReverseConcat(f + r, "\n");
    }
    assert Reverse(f + r) == Reverse(r) + Reverse(f) by {
      ReverseConcat(f, r);
    }
  }

  /**
    With `showcolor` false the result is the reversal of HEIGHT rows of
    `width + 1` characters: row `h` holds character `h` of every column in
    order, then a newline.
  */
  lemma PlainScreen(g: Generator, height: nat, ss: seq<ChannelState>)
    requires forall j :: 0 <= j < |ss| ==> ValidState(g, height, ss[j])
    ensures Tall(Visibles(g, height, ss), height)
    ensures var vs := Visibles(g, height, ss);
            && HeadScreen(g, height, ss, false) == Reverse(PlainFrame(vs, height))
            && |PlainFrame(vs, height)| == RowStart(|ss|, height)
            && forall h :: 0 <= h < height ==> RowIsAt(PlainFrame(vs, height), |ss|, h, PlainRow(vs, h, |ss|))
  {
    var vs := Visibles(g, height, ss);
    VisiblesTall(g, height, ss);
    HeadFramePlain(vs, height);
    PlainFrameLayout(vs, height);
  }

  /** What `lastmessage[k]` holds while row `h` is read: the column's previous character, None in the first row. */
  function LastSeen(vs: seq<string>, h: nat, k: nat): Option<char>
    requires k < |vs| && h <= |vs[k]|
  {
    if h == 0 then None else Some(vs[k][h - 1])
  }

  /** One pass of the inner loop, with `lastmessage` as it was after the previous row. */
  method DrawRow(vs: seq<string>, showColor: bool, h: nat, last: seq<Option<char>>) returns (row: string, last': seq<Option<char>>)
    requires Tall(vs, h + 1) && |last| == |vs|
    requires forall k :: 0 <= k < |vs| ==> last[k] == LastSeen(vs, h, k)
    ensures row == HeadRow(vs, showColor, h, |vs|)
    ensures |last'| == |vs| && forall k :: 0 <= k < |vs| ==> last'[k] == LastSeen(vs, h + 1, k)
  {
    row := [];
    last' := last;
    for j := 0 to |vs|
      invariant |last'| == |vs| && row == HeadRow(vs, showColor, h, j)
      invariant forall k :: 0 <= k < |vs| ==> last'[k] == LastSeen(vs, if k < j then h + 1 else h, k)
    {
      var message := vs[j][h];
      if showColor && last'[j].Some? && IsSpace(last'[j].value) && !IsSpace(message) {
        row := row + Wrapped(message);
      } else {
        row := row + [message];
      }
      last' := last'[j := Some(message)];
    }
  }

  /** The nested loop of `get_screen_and_scroll(showcolor)` over the column texts `vs`, before the reversal. */
  method DrawFrame(vs: seq<string>, showColor: bool, height: nat) returns (s: string)
    requires Tall(vs, height)
    ensures s == HeadFrame(vs, showColor, height)
  {
    s := "";
    var last := seq(|vs|, _ => None);
    for h := 0 to height
      invariant s == HeadFrame(vs, showColor, h)
      invariant |last| == |vs| && forall k :: 0 <= k < |vs| ==> last[k] == LastSeen(vs, h, k)
    {
      var row;
      row, last := DrawRow(vs, showColor, h, last);
      s := s + row + "\n";
    }
  }

  /** theone.py's `Matrix(messagegenerator)`. */
  class Matrix {
    const generator: Generator
    const height: nat
    const channels: seq<MessageChannel>    // _channels

    ghost predicate Valid()
      reads set c <- channels
    {
      height >= 1 && Columns(channels, generator, height)
    }

    constructor (g: Generator, h: nat, chs: seq<MessageChannel>)
      ensures generator == g && height == h && channels == chs
    {
      generator := g;
      height := h;
      channels := chs;
    }

    /** `Matrix(messagegenerator)` with WIDTH = `width` and HEIGHT = `height`. */
    static method Create(g: Generator, width: nat, height: nat, t: Tape) returns (r: Result<(Matrix, Tape)>)
      requires height >= 1
      ensures var p := InitialColumns(g, height, width, [], t);
              && (p.Err? ==> r == Err(p.error))
              && (p.Ok? ==> && r.Ok? && r.value.1 == p.value.rest
                            && var m := r.value.0;
                               && fresh(m) && m.Valid() && m.generator == g && m.height == height
                               && |m.channels| == width && States(m.channels) == p.value.value
                               && forall k :: 0 <= k < width ==> fresh(m.channels[k]))
    {
      var cols := CipherFrames.Matrix.CreateColumns(g, width, height, t);
      if cols.Err? {
        return Err(cols.error);
      }
      var m := new Matrix(g, height, cols.value.0);
      return Ok((m, cols.value.1));
    }

    /** `[iter(ch.message) for ch in self._channels]`: the visible text of every column. */
    method ReadTexts() returns (vs: seq<string>)
      requires Valid()
      ensures vs == Visibles(generator, height, States(channels)) && Tall(vs, height)
    {
      vs := [];
      for k := 0 to |channels|
        invariant |vs| == k && forall j :: 0 <= j < k ==> vs[j] == channels[j].Visible()
      {
        vs := vs + [channels[k].Visible()];
      }
      VisiblesTall(generator, height, States(channels));
    }

    /** The frame text of `get_screen_and_scroll(showcolor)`, reversed; the columns are only read. */
    method Screen(showColor: bool) returns (s: string)
      requires Valid()
      ensures s == HeadScreen(generator, height, States(channels), showColor)
    {
      var vs := ReadTexts();
      var f := DrawFrame(vs, showColor, height);
      s := Reverse(f);
    }

    /**
      `get_screen_and_scroll(showcolor)`: the frame is read from the columns
      as they are, then each column scrolls at most once.
    */
    method GetScreenAndScroll(showColor: bool, t: Tape) returns (r: Result<(string, Tape)>)
      requires Valid()
      modifies set c <- channels
      ensures Valid()
      ensures var ss := old(States(channels));
              var p := ScrollPass(generator, height, ss, 0, t);
              && States(channels) == p.states
              && (forall k :: 0 <= k < |channels| ==> AtMostOneScroll(height, ss[k], p.states[k]))
              && (p.outcome.Ok? ==> r == Ok((HeadScreen(generator, height, ss, showColor), p.outcome.value)))
              && (p.outcome.Err? ==> r == Err(p.outcome.error))
    {
      ghost var ss := States(channels);
      var s := Screen(showColor);
      ScrollPassKeepsColumns(generator, height, ss, 0, t);
      var sc := ScrollChannels(channels, generator, height, t);
      if sc.Err? {
        return Err(sc.error);
      }
      r := Ok((s, sc.value));
    }
  }
}
