/**
  `Matrix` of ncurses/theone.py and nocolor/theone.py: a row of columns,
  each with its drainer; `get_screen_and_scroll` reads HEIGHT characters
  from every column, row by row, with a '!' after each flagged character,
  reverses the text and then lets each column scroll or not. nocolor's main
  loop prints the frame with every '!' removed.
*/
module CipherFrames {
  import opened Wrappers
  import opened Random
  import opened Text
  import opened Alphabets
  import opened Scrolling
  import opened Drainers

  /** Every column text has at least `n` characters. */
  predicate Tall(vs: seq<string>, n: nat) {
    forall k :: 0 <= k < |vs| ==> n <= |vs[k]|
  }

  /** What row `h` of column `v` contributes: `next(d)`, then '!' when it is flagged. */
  function Cell(v: string, cs: seq<string>, h: nat): string
    requires h < |v|
  {
    if Flagged(v, cs, h) then [v[h], '!'] else [v[h]]
  }

  /** Row `h` over the first `j` columns. */
  function RowPrefix(vs: seq<string>, cs: seq<string>, h: nat, j: nat): string
    requires j <= |vs| && Tall(vs, h + 1)
  {
    if j == 0 then [] else RowPrefix(vs, cs, h, j - 1) + Cell(vs[j - 1], cs, h)
  }

  /** `s` after the first `n` rows of the nested loop, each ended by a newline. */
  function FramePrefix(vs: seq<string>, cs: seq<string>, n: nat): string
    requires Tall(vs, n)
  {
    if n == 0 then [] else FramePrefix(vs, cs, n - 1) + RowPrefix(vs, cs, n - 1, |vs|) + "\n"
  }

  /** The text `get_screen_and_scroll` returns for the column texts `vs`. */
  function CipherScreen(vs: seq<string>, cs: seq<string>, height: nat): string
    requires Tall(vs, height)
  {
    Reverse(FramePrefix(vs, cs, height))
  }

  /** Row `h` over the first `j` columns, without markers. */
  function PlainRow(vs: seq<string>, h: nat, j: nat): string
    requires j <= |vs| && Tall(vs, h + 1)
  {
    if j == 0 then [] else PlainRow(vs, h, j - 1) + [vs[j - 1][h]]
  }

  /** The first `n` rows without markers: character `h` of every column, then a newline. */
  function PlainFrame(vs: seq<string>, n: nat): string
    requires Tall(vs, n)
  {
    if n == 0 then [] else PlainFrame(vs, n - 1) + PlainRow(vs, n - 1, |vs|) + "\n"
  }

  /** Where row `h` starts in a frame of `width` columns: after `h` rows of `width + 1` characters. */
  function RowStart(width: nat, h: nat): nat {
    if h == 0 then 0 else RowStart(width, h - 1) + width + 1
  }

  lemma {:induction false} RowStartIsProduct(width: nat, h: nat)
    ensures RowStart(width, h) == h * (width + 1)
  {
    if h > 0 {
      RowStartIsProduct(width, h - 1);
    }
  }

  lemma {:induction false} PlainRowLayout(vs: seq<string>, h: nat, j: nat)
    requires j <= |vs| && Tall(vs, h + 1)
    ensures |PlainRow(vs, h, j)| == j && forall k :: 0 <= k < j ==> PlainRow(vs, h, j)[k] == vs[k][h]
  {
    if j > 0 {
      PlainRowLayout(vs, h, j - 1);
    }
  }

  lemma {:induction false} PlainFrameLength(vs: seq<string>, n: nat)
    requires Tall(vs, n)
    ensures |PlainFrame(vs, n)| == RowStart(|vs|, n)
  {
    if n > 0 {
      PlainFrameLength(vs, n - 1);
      PlainRowLayout(vs, n - 1, |vs|);
    }
  }

  lemma {:induction false} PlainFrameGrows(vs: seq<string>, m: nat, n: nat)
    requires m <= n && Tall(vs, n)
    ensures PlainFrame(vs, m) <= PlainFrame(vs, n)
  {
    if m < n {
      PlainFrameGrows(vs, m, n - 1);
    }
  }

  /** The last row of a frame of `h + 1` rows. */
  lemma LastRow(vs: seq<string>, h: nat)
    requires Tall(vs, h + 1)
    ensures |PlainFrame(vs, h + 1)| == RowStart(|vs|, h) + |vs| + 1
    ensures PlainFrame(vs, h + 1)[RowStart(|vs|, h)..] == PlainRow(vs, h, |vs|) + "\n"
  {
    var a := PlainFrame(vs, h);
    var r := PlainRow(vs, h, |vs|);
    assert |a| == RowStart(|vs|, h) by {
      PlainFrameLength(vs, h);
    }
    assert |r| == |vs| by {
      PlainRowLayout(vs, h, |vs|);
    }
    assert PlainFrame(vs, h + 1) == a + (r + "\n");
    assert (a + (r + "\n"))[|a|..] == r + "\n";
  }

  /** Row `h` of frame text `f` over `width` columns is `row`, then a newline. */
  predicate RowIsAt(f: string, width: nat, h: nat, row: string) {
    && RowStart(width, h) + width < |f|
    && f[RowStart(width, h)..RowStart(width, h) + width + 1] == row + "\n"
  }

  /** Row `h` of the unmarked frame: character `h` of every column, then a newline. */
  lemma RowOfFrame(vs: seq<string>, n: nat, h: nat)
    requires h < n && Tall(vs, n)
    ensures RowIsAt(PlainFrame(vs, n), |vs|, h, PlainRow(vs, h, |vs|))
  {
    var p, f, i := PlainFrame(vs, h + 1), PlainFrame(vs, n), RowStart(|vs|, h);
    assert p <= f && |p| == i + |vs| + 1 && p[i..] == PlainRow(vs, h, |vs|) + "\n" by {
      LastRow(vs, h);
      PlainFrameGrows(vs, h + 1, n);
    }
    SliceOfPrefix(p, f, i);
  }

  lemma SliceOfPrefix<T>(p: seq<T>, f: seq<T>, i: nat)
    requires p <= f && i <= |p|
    ensures f[i..|p|] == p[i..]
  {
  }

  /** The unmarked frame is `height` rows of `width + 1` characters: row `h` holds character `h` of every column, then a newline. */
  lemma PlainFrameLayout(vs: seq<string>, n: nat)
    requires Tall(vs, n)
    ensures |PlainFrame(vs, n)| == RowStart(|vs|, n)
    ensures forall h :: 0 <= h < n ==> RowIsAt(PlainFrame(vs, n), |vs|, h, PlainRow(vs, h, |vs|))
  {
    PlainFrameLength(vs, n);
    forall h | 0 <= h < n
      ensures RowIsAt(PlainFrame(vs, n), |vs|, h, PlainRow(vs, h, |vs|))
    {
      RowOfFrame(vs, n, h);
    }
  }

  /** Without '!' among the characters read, removing the markers from a row leaves the plain row. */
  lemma {:induction false} RowWithoutMarkers(vs: seq<string>, cs: seq<string>, h: nat, j: nat)
    requires j <= |vs| && Tall(vs, h + 1)
    requires forall k :: 0 <= k < |vs| ==> vs[k][h] != '!'
    ensures Remove(RowPrefix(vs, cs, h, j), '!') == PlainRow(vs, h, j)
  {
    if j > 0 {
      var before, cell := RowPrefix(vs, cs, h, j - 1), Cell(vs[j - 1], cs, h);
      assert Remove(before, '!') == PlainRow(vs, h, j - 1) by {
        RowWithoutMarkers(vs, cs, h, j - 1);
      }
      assert Remove(cell, '!') == [vs[j - 1][h]] by {
        if Flagged(vs[j - 1], cs, h) {
          RemoveConcat([vs[j - 1][h]], ['!'], '!');
        }
      }
      RemoveConcat(before, cell, '!');
    }
  }

  lemma FewerRows(vs: seq<string>, n: nat)
    requires n > 0 && Tall(vs, n)
    requires forall k, h :: 0 <= k < |vs| && 0 <= h < n ==> vs[k][h] != '!'
    ensures Tall(vs, n - 1) && forall k, h :: 0 <= k < |vs| && 0 <= h < n - 1 ==> vs[k][h] != '!'
  {
  }

  /** Every '!' of the frame is a marker: removing them leaves the plain frame. */
  lemma {:induction false} FrameWithoutMarkers(vs: seq<string>, cs: seq<string>, n: nat)
    requires Tall(vs, n)
    requires forall k, h :: 0 <= k < |vs| && 0 <= h < n ==> vs[k][h] != '!'
    ensures Remove(FramePrefix(vs, cs, n), '!') == PlainFrame(vs, n)
  {
    if n > 0 {
      var before := FramePrefix(vs, cs, n - 1);
      var row := RowPrefix(vs, cs, n - 1, |vs|);
      assert Remove(before, '!') == PlainFrame(vs, n - 1) by {
        FewerRows(vs, n);
        FrameWithoutMarkers(vs, cs, n - 1);
      }
      assert Remove(row, '!') == PlainRow(vs, n - 1, |vs|) by {
        RowWithoutMarkers(vs, cs, n - 1, |vs|);
      }
      RemoveRow(before, row, '!');
    }
  }

  /** Removing a character other than the newline from one more row. */
  lemma RemoveRow(before: string, row: string, x: char)
    requires x != '\n'
    ensures Remove(before + row + "\n", x) == Remove(before, x) + Remove(row, x) + "\n"
  {
    RemoveConcat(before + row, "\n", x);
    RemoveConcat(before, row, x);
    assert Remove("\n", x) == "\n";
  }

  lemma {:induction false} PlainRowHasNoNewline(vs: seq<string>, h: nat, j: nat)
    requires j <= |vs| && Tall(vs, h + 1)
    requires forall k :: 0 <= k < |vs| ==> vs[k][h] != '\n'
    ensures Count(PlainRow(vs, h, j), '\n') == 0
  {
    if j > 0 {
      PlainRowHasNoNewline(vs, h, j - 1);
      CountConcat(PlainRow(vs, h, j - 1), [vs[j - 1][h]], '\n');
    }
  }

  /** A frame of `n` rows has `n` newlines when the columns hold none. */
  lemma {:induction false} PlainFrameNewlines(vs: seq<string>, n: nat)
    requires Tall(vs, n)
    requires forall k, h :: 0 <= k < |vs| && 0 <= h < n ==> vs[k][h] != '\n'
    ensures Count(PlainFrame(vs, n), '\n') == n
  {
    if n > 0 {
      PlainFrameNewlines(vs, n - 1);
      PlainRowHasNoNewline(vs, n - 1, |vs|);
      CountConcat(PlainFrame(vs, n - 1) + PlainRow(vs, n - 1, |vs|), "\n", '\n');
      CountConcat(PlainFrame(vs, n - 1), PlainRow(vs, n - 1, |vs|), '\n');
    }
  }

  /** `matrix_screen.replace('!', '')`: what nocolor/theone.py prints. */
  function NoColorScreen(screen: string): (dm: string)
    ensures '!' !in dm
  {
    RemoveDrops(screen, '!');
    Remove(screen, '!')
  }

  /**
    The printed nocolor frame is the reversed plain frame: HEIGHT newlines
    and HEIGHT * WIDTH column characters, provided no column character is a
    '!' or a newline.
  */
  lemma NoColorScreenIsPlain(vs: seq<string>, cs: seq<string>, n: nat)
    requires Tall(vs, n)
    requires forall k, h :: 0 <= k < |vs| && 0 <= h < n ==> vs[k][h] != '!' && vs[k][h] != '\n'
    ensures NoColorScreen(CipherScreen(vs, cs, n)) == Reverse(PlainFrame(vs, n))
    ensures |NoColorScreen(CipherScreen(vs, cs, n))| == RowStart(|vs|, n)
    ensures Count(NoColorScreen(CipherScreen(vs, cs, n)), '\n') == n
  {
    RemoveReverse(FramePrefix(vs, cs, n), '!');
    FrameWithoutMarkers(vs, cs, n);
    PlainFrameLayout(vs, n);
    PlainFrameNewlines(vs, n);
    CountReverse(PlainFrame(vs, n), '\n');
  }

  /** A generator whose columns can hold neither '!' nor a newline: a rain alphabet and cipher words without either. */
  predicate MarkerFree(g: Generator) {
    RainAlphabet(g.alphabet) && forall m <- g.cipherMessages :: '!' !in m && '\n' !in m
  }

  lemma LegalIsNoMarker(g: Generator, c: char)
    requires MarkerFree(g) && Legal(g, c)
    ensures c != '!' && c != '\n'
  {
    if c in g.alphabet {
      assert !IsSpace(c);
    } else if c != ' ' {
      var m :| m in g.cipherMessages && c in m;
    }
  }

  /**
    `MessageGenerator(cipher)` over a rain alphabet is marker-free exactly
    when the cipher argument has no '!': split() keeps every other
    character of a word and drops the newlines.
  */
  lemma GeneratorMarkerFree(alphabet: seq<char>, ciphers: string, blank: bool)
    requires RainAlphabet(alphabet)
    ensures MarkerFree(NewGenerator(alphabet, ciphers, blank)) <==> '!' !in ciphers
  {
    var g := NewGenerator(alphabet, ciphers, blank);
    if '!' !in ciphers {
      CipherWordsAvoid(g, ciphers);
    } else {
      CipherWordsCarry(g, ciphers);
    }
  }

  lemma CipherWordsAvoid(g: Generator, ciphers: string)
    requires g == NewGenerator(g.alphabet, ciphers, g.blankWhenNoCipher) && '!' !in ciphers
    ensures forall m <- g.cipherMessages :: '!' !in m && '\n' !in m
  {
    var ws := Words(ciphers);
    var cms := g.cipherMessages;
    assert |cms| == |ws| && forall i :: 0 <= i < |ws| ==> Reverse(cms[i]) == ws[i];
    forall i | 0 <= i < |cms| ensures '!' !in cms[i] && '\n' !in cms[i] {
      WordOfCiphersAvoids(ciphers, ws[i]);
      ReverseElements(cms[i]);
    }
  }

  lemma WordOfCiphersAvoids(ciphers: string, w: string)
    requires '!' !in ciphers && w in Words(ciphers)
    ensures '!' !in w && '\n' !in w
  {
    WordCharsFrom(ciphers);
    assert IsSpace('\n');
  }

  lemma CipherWordsCarry(g: Generator, ciphers: string)
    requires g == NewGenerator(g.alphabet, ciphers, g.blankWhenNoCipher) && '!' in ciphers
    ensures exists m <- g.cipherMessages :: '!' in m
  {
    var ws := Words(ciphers);
    var p :| 0 <= p < |ciphers| && ciphers[p] == '!';
    WordOfChar(ciphers, p);
    var w :| w in ws && '!' in w;
    var i :| 0 <= i < |ws| && ws[i] == w;
    ReverseElements(g.cipherMessages[i]);
    assert g.cipherMessages[i] in g.cipherMessages;
  }

  /** The generator of ncurses/theone.py and nocolor/theone.py. */
  lemma CursesGeneratorMarkerFree(ciphers: string)
    ensures MarkerFree(NewGenerator(CursesAlphabet, ciphers, false)) <==> '!' !in ciphers
  {
    CursesAlphabetIsRain();
    GeneratorMarkerFree(CursesAlphabet, ciphers, false);
  }

  /** A non-whitespace character of `s` lies in some word of `s.split()`. */
  lemma {:induction false} WordOfChar(s: string, p: nat)
    requires p < |s| && !IsSpace(s[p])
    ensures exists w :: w in Words(s) && s[p] in w
    decreases |s|
  {
    if IsSpace(s[0]) {
      WordOfChar(s[1..], p - 1);
    } else {
      var j := WordEnd(s, 0);
      assert Words(s) == [s[..j]] + Words(s[j..]);
      if p < j {
        assert s[p] == s[..j][p];
        assert s[..j] in Words(s);
      } else {
        WordOfChar(s[j..], p - j);
        assert s[j..][p - j] == s[p];
      }
    }
  }

  lemma ValidStatesReadable(g: Generator, height: int, ss: seq<ChannelState>)
    requires forall j :: 0 <= j < |ss| ==> ValidState(g, height, ss[j])
    ensures forall j :: 0 <= j < |ss| ==> ss[j].idx <= |ss[j].message|
  {
  }

  /** The visible text of every column. */
  function Visibles(g: Generator, height: int, ss: seq<ChannelState>): seq<string>
    requires forall j :: 0 <= j < |ss| ==> ValidState(g, height, ss[j])
  {
    ValidStatesReadable(g, height, ss);
    seq(|ss|, j requires 0 <= j < |ss| => VisibleOf(ss[j]))
  }

  /** Valid columns can each supply HEIGHT characters. */
  lemma VisiblesTall(g: Generator, height: nat, ss: seq<ChannelState>)
    requires forall j :: 0 <= j < |ss| ==> ValidState(g, height, ss[j])
    ensures |Visibles(g, height, ss)| == |ss| && Tall(Visibles(g, height, ss), height)
  {
  }

  /** Valid columns can each supply HEIGHT characters; under a marker-free generator none of them is '!' or a newline. */
  lemma ColumnsFitFrame(g: Generator, height: nat, ss: seq<ChannelState>)
    requires height >= 1 && forall j :: 0 <= j < |ss| ==> ValidState(g, height, ss[j])
    ensures Tall(Visibles(g, height, ss), height)
    ensures MarkerFree(g) ==>
              forall k, h :: 0 <= k < |ss| && 0 <= h < height ==> Visibles(g, height, ss)[k][h] != '!' && Visibles(g, height, ss)[k][h] != '\n'
  {
    var vs := Visibles(g, height, ss);
    if MarkerFree(g) {
      forall k, h | 0 <= k < |ss| && 0 <= h < height
        ensures vs[k][h] != '!' && vs[k][h] != '\n'
      {
        assert vs[k][h] == ss[k].message[ss[k].idx + h];
        assert ss[k].message[ss[k].idx + h] in ss[k].message;
        LegalIsNoMarker(g, vs[k][h]);
      }
    }
  }

  /** The text `get_screen_and_scroll` returns when the columns are in states `ss`. */
  function FrameOf(g: Generator, height: nat, ss: seq<ChannelState>): string
    requires height >= 1 && forall j :: 0 <= j < |ss| ==> ValidState(g, height, ss[j])
  {
    ColumnsFitFrame(g, height, ss);
    CipherScreen(Visibles(g, height, ss), g.cipherMessages, height)
  }

  /**
    What nocolor/theone.py prints for columns in states `ss`: the reversed
    plain frame, HEIGHT newlines and HEIGHT * WIDTH column characters.
  */
  lemma NoColorFrame(g: Generator, height: nat, ss: seq<ChannelState>)
    requires height >= 1 && forall j :: 0 <= j < |ss| ==> ValidState(g, height, ss[j])
    requires MarkerFree(g)
    ensures Tall(Visibles(g, height, ss), height)
    ensures NoColorScreen(FrameOf(g, height, ss)) == Reverse(PlainFrame(Visibles(g, height, ss), height))
    ensures |NoColorScreen(FrameOf(g, height, ss))| == RowStart(|ss|, height)
    ensures Count(NoColorScreen(FrameOf(g, height, ss)), '\n') == height
  {
    ColumnsFitFrame(g, height, ss);
    NoColorScreenIsPlain(Visibles(g, height, ss), g.cipherMessages, height);
  }

  /** The columns after `__init__`'s list comprehension has built `n` more after `acc`: each new column is HEIGHT blanks topped up. */
  function InitialColumns(g: Generator, height: nat, n: nat, acc: seq<ChannelState>, t: Tape): Result<Drawn<seq<ChannelState>>>
    decreases n
  {
    if n == 0 then Ok(Drawn(acc, t))
    else
      var p :- Populated(g, height, Spaces(height), t);
      InitialColumns(g, height, n - 1, acc + [ChannelState(p.value, 0)], p.rest)
  }

  /** The comprehension keeps the columns already built and adds `n` valid columns that start at the top of HEIGHT blanks. */
  lemma {:induction false} InitialColumnsShape(g: Generator, height: nat, n: nat, acc: seq<ChannelState>, t: Tape)
    requires height >= 1
    ensures var r := InitialColumns(g, height, n, acc, t);
            && (r.Ok? ==> acc <= r.value.value && |r.value.value| == |acc| + n)
            && (r.Ok? ==> forall j :: |acc| <= j < |r.value.value| ==>
                            && ValidState(g, height, r.value.value[j])
                            && r.value.value[j].idx == 0 && Spaces(height) <= r.value.value[j].message)
    decreases n
  {
    if n > 0 {
      var p := Populated(g, height, Spaces(height), t);
      if p.Ok? {
        var acc' := acc + [ChannelState(p.value.value, 0)];
        InitialColumnsShape(g, height, n - 1, acc', p.value.rest);
        var r := InitialColumns(g, height, n - 1, acc', p.value.rest);
        if r.Ok? {
          assert r.value.value[|acc|] == acc'[|acc|];
        }
      }
    }
  }

  /**
    `ss` are the columns the comprehension builds from draws `tapes[0]`: column
    k is HEIGHT blanks topped up from `tapes[k]`, leaving `tapes[k + 1]`.
  */
  ghost predicate Trace(g: Generator, height: nat, ss: seq<ChannelState>, tapes: seq<Tape>) {
    && |tapes| == |ss| + 1
    && forall k :: 0 <= k < |ss| ==>
         ss[k].idx == 0 && Populated(g, height, Spaces(height), tapes[k]) == Ok(Drawn(ss[k].message, tapes[k + 1]))
  }

  lemma TraceGrows(g: Generator, height: nat, ss: seq<ChannelState>, tapes: seq<Tape>, s: ChannelState, rest: Tape)
    requires Trace(g, height, ss, tapes)
    requires s.idx == 0 && Populated(g, height, Spaces(height), tapes[|ss|]) == Ok(Drawn(s.message, rest))
    ensures Trace(g, height, ss + [s], tapes + [rest])
  {
    var ss', tapes' := ss + [s], tapes + [rest];
    forall k | 0 <= k < |ss'|
      ensures ss'[k].idx == 0 && Populated(g, height, Spaces(height), tapes'[k]) == Ok(Drawn(ss'[k].message, tapes'[k + 1]))
    {
      assert tapes'[k] == tapes[k];
      if k < |ss| {
        assert ss'[k] == ss[k] && tapes'[k + 1] == tapes[k + 1];
      }
    }
  }

  /** A trace from column `j` on is what the rest of the comprehension builds. */
  lemma {:induction false} TraceBuildsFrom(g: Generator, height: nat, ss: seq<ChannelState>, tapes: seq<Tape>, j: nat)
    requires Trace(g, height, ss, tapes) && j <= |ss|
    ensures InitialColumns(g, height, |ss| - j, ss[..j], tapes[j]) == Ok(Drawn(ss, tapes[|ss|]))
    decreases |ss| - j
  {
    if j == |ss| {
      assert ss[..j] == ss;
    } else {
      assert ss[..j] + [ChannelState(ss[j].message, 0)] == ss[..j + 1];
      TraceBuildsFrom(g, height, ss, tapes, j + 1);
    }
  }

  lemma TraceBuilds(g: Generator, height: nat, ss: seq<ChannelState>, tapes: seq<Tape>)
    requires Trace(g, height, ss, tapes)
    ensures InitialColumns(g, height, |ss|, [], tapes[0]) == Ok(Drawn(ss, tapes[|ss|]))
  {
    TraceBuildsFrom(g, height, ss, tapes, 0);
    assert ss[..0] == [];
  }

  /** A trace without its first column is a trace from the draws that column left. */
  lemma TraceTail(g: Generator, height: nat, ss: seq<ChannelState>, tapes: seq<Tape>)
    requires Trace(g, height, ss, tapes) && ss != []
    ensures Trace(g, height, ss[1..], tapes[1..])
  {
    forall k | 0 <= k < |ss| - 1
      ensures ss[1..][k].idx == 0
              && Populated(g, height, Spaces(height), tapes[1..][k]) == Ok(Drawn(ss[1..][k].message, tapes[1..][k + 1]))
    {
      assert ss[1..][k] == ss[k + 1] && tapes[1..][k] == tapes[k + 1] && tapes[1..][k + 1] == tapes[k + 2];
    }
  }

  /** When the column after a trace cannot be built, the comprehension fails with that error. */
  lemma {:induction false} TraceFails(g: Generator, height: nat, ss: seq<ChannelState>, tapes: seq<Tape>, acc: seq<ChannelState>, n: nat, e: Error)
    requires Trace(g, height, ss, tapes) && |ss| < n
    requires Populated(g, height, Spaces(height), tapes[|ss|]) == Err(e)
    ensures InitialColumns(g, height, n, acc, tapes[0]) == Err(e)
    decreases |ss|
  {
    if ss == [] {
      ColumnFails(g, height, n, acc, tapes[0], e);
    } else {
      var acc' := acc + [ChannelState(ss[0].message, 0)];
      assert InitialColumns(g, height, n - 1, acc', tapes[1]) == Err(e) by {
        TraceTail(g, height, ss, tapes);
        assert tapes[1..][0] == tapes[1] && tapes[1..][|ss| - 1] == tapes[|ss|];
        TraceFails(g, height, ss[1..], tapes[1..], acc', n - 1, e);
      }
      assert Populated(g, height, Spaces(height), tapes[0]) == Ok(Drawn(ss[0].message, tapes[1]));
      ColumnBuilt(g, height, n, acc, tapes[0], ss[0].message, tapes[1]);
    }
  }

  lemma ColumnBuilt(g: Generator, height: nat, n: nat, acc: seq<ChannelState>, t: Tape, m: string, rest: Tape)
    requires n >= 1 && Populated(g, height, Spaces(height), t) == Ok(Drawn(m, rest))
    ensures InitialColumns(g, height, n, acc, t) == InitialColumns(g, height, n - 1, acc + [ChannelState(m, 0)], rest)
  {
  }

  lemma ColumnFails(g: Generator, height: nat, n: nat, acc: seq<ChannelState>, t: Tape, e: Error)
    requires n >= 1 && Populated(g, height, Spaces(height), t) == Err(e)
    ensures InitialColumns(g, height, n, acc, t) == Err(e)
  {
  }

  /** `Matrix(messagegenerator)`: WIDTH columns, each read through its own drainer. */
  class Matrix {
    const generator: Generator
    const height: nat
    const channels: seq<MessageChannel>            // _channels
    const drainers: seq<ChannelMessageDrainer>     // _drainers

    ghost predicate Valid()
      reads set c <- channels
    {
      height >= 1 && Columns(channels, generator, height) && Readers()
    }

    /** One distinct drainer per column, all over columns of this generator. */
    ghost predicate Readers() {
      && |drainers| == |channels|
      && (forall i, j :: 0 <= i < |drainers| && 0 <= j < |drainers| && i != j ==> drainers[i] != drainers[j])
      && forall k :: 0 <= k < |drainers| ==> drainers[k].channel == channels[k] && channels[k].generator == generator
    }

    constructor (g: Generator, h: nat, chs: seq<MessageChannel>, ds: seq<ChannelMessageDrainer>)
      ensures generator == g && height == h && channels == chs && drainers == ds
    {
      generator := g;
      height := h;
      channels := chs;
      drainers := ds;
    }

    /** `Matrix(messagegenerator)` with WIDTH = `width` and HEIGHT = `height`. */
    static method Create(g: Generator, width: nat, height: nat, t: Tape) returns (r: Result<(Matrix, Tape)>)
      requires height >= 1
      ensures var p := InitialColumns(g, height, width, [], t);
              && (p.Err? ==> r == Err(p.error))
              && (p.Ok? ==> && r.Ok? && r.value.1 == p.value.rest
                            && var m := r.value.0;
                               && fresh(m) && m.Valid() && m.generator == g && m.height == height
                               && |m.channels| == width && States(m.channels) == p.value.value
                               && forall k :: 0 <= k < width ==> fresh(m.channels[k]) && fresh(m.drainers[k]))
    {
      var cols := CreateColumns(g, width, height, t);
      if cols.Err? {
        return Err(cols.error);
      }
      var chs := cols.value.0;
      var ds := CreateDrainers(chs, g, height);
      var m := new Matrix(g, height, chs, ds);
      return Ok((m, cols.value.1));
    }

    /** `[MessageChannel(messagegenerator) for i in range(WIDTH)]`. */
    static method CreateColumns(g: Generator, width: nat, height: nat, t: Tape) returns (r: Result<(seq<MessageChannel>, Tape)>)
      requires height >= 1
      ensures var p := InitialColumns(g, height, width, [], t);
              && (p.Err? ==> r == Err(p.error))
              && (p.Ok? ==> && r.Ok? && r.value.1 == p.value.rest
                            && var chs := r.value.0;
                               && |chs| == width && Columns(chs, g, height) && States(chs) == p.value.value
                               && forall k :: 0 <= k < width ==> fresh(chs[k]))
    {
      var chs: seq<MessageChannel> := [];
      ghost var acc: seq<ChannelState> := [];
      ghost var tapes: seq<Tape> := [t];
      var tape := t;
      for k := 0 to width
        invariant |chs| == |acc| == k && Columns(chs, g, height)
        invariant forall j :: 0 <= j < k ==> fresh(chs[j]) && chs[j].State() == acc[j]
        invariant Trace(g, height, acc, tapes) && tapes[0] == t && tapes[k] == tape
      {
        var c := MessageChannel.Create(g, height, tape);
        if c.Err? {
          TraceFails(g, height, acc, tapes, [], width, c.error);
          return Err(c.error);
        }
        var col := c.value.0;
        TraceGrows(g, height, acc, tapes, col.State(), c.value.1);
        ColumnsGrow(chs, col, g, height);
        chs, acc, tapes, tape := chs + [col], acc + [col.State()], tapes + [c.value.1], c.value.1;
      }
      StatesAre(chs, acc);
      TraceBuilds(g, height, acc, tapes);
      return Ok((chs, tape));
    }

    /** A new valid column with the same generator and HEIGHT extends the columns. */
    static lemma ColumnsGrow(chs: seq<MessageChannel>, col: MessageChannel, g: Generator, height: nat)
      requires Columns(chs, g, height) && col !in chs
      requires col.Valid() && col.generator == g && col.height == height
      ensures Columns(chs + [col], g, height)
    {
      var chs' := chs + [col];
      forall i, j | 0 <= i < |chs'| && 0 <= j < |chs'| && i != j
        ensures chs'[i] != chs'[j]
      {
        if i < |chs| && j < |chs| {
          assert chs'[i] == chs[i] && chs'[j] == chs[j];
        } else if i < |chs| {
          assert chs'[i] in chs;
        } else {
          assert chs'[j] in chs;
        }
      }
    }

    /** `[ChannelMessageDrainer(ch) for ch in self._channels]`. */
    static method CreateDrainers(chs: seq<MessageChannel>, ghost g: Generator, ghost height: int) returns (ds: seq<ChannelMessageDrainer>)
      requires Columns(chs, g, height)
      ensures Columns(chs, g, height)
      ensures |ds| == |chs| && forall k :: 0 <= k < |ds| ==> fresh(ds[k]) && ds[k].channel == chs[k]
      ensures forall i, j :: 0 <= i < |ds| && 0 <= j < |ds| && i != j ==> ds[i] != ds[j]
    {
      ds := [];
      for k := 0 to |chs|
        invariant |ds| == k
        invariant forall j :: 0 <= j < k ==> fresh(ds[j]) && ds[j].channel == chs[j]
        invariant forall i, j :: 0 <= i < k && 0 <= j < k && i != j ==> ds[i] != ds[j]
      {
        var d := new ChannelMessageDrainer(chs[k]);
        ds := ds + [d];
      }
    }

    /** The column states, all valid. */
    ghost function ColumnStates(): (ss: seq<ChannelState>)
      requires Valid()
      reads set c <- channels
      ensures |ss| == |channels| && forall j :: 0 <= j < |ss| ==> ss[j] == channels[j].State()
      ensures forall j :: 0 <= j < |ss| ==> ValidState(generator, height, ss[j])
    {
      States(channels)
    }

    /** `[iter(d) for d in self._drainers]`. */
    method IterAll(ghost vs: seq<string>)
      requires Valid() && vs == Visibles(generator, height, States(channels))
      modifies set d <- drainers
      ensures forall k :: 0 <= k < |drainers| ==> drainers[k].message == vs[k] && drainers[k].idx == 0 && drainers[k].Valid()
    {
      for j := 0 to |drainers|
        invariant forall k :: 0 <= k < j ==> drainers[k].message == vs[k] && drainers[k].idx == 0 && drainers[k].Valid()
      {
        drainers[j].Iter();
      }
    }

    /** One pass of the inner loop: `next(d)` on every drainer, with a '!' after a flagged character. */
    method DrainRow(ghost vs: seq<string>, h: nat) returns (row: string)
      requires Readers() && |vs| == |drainers| && Tall(vs, h + 1)
      requires forall k :: 0 <= k < |drainers| ==> drainers[k].message == vs[k] && drainers[k].idx == h && drainers[k].Valid()
      modifies set d <- drainers
      ensures row == RowPrefix(vs, generator.cipherMessages, h, |vs|)
      ensures forall k :: 0 <= k < |drainers| ==> drainers[k].message == vs[k] && drainers[k].idx == h + 1 && drainers[k].Valid()
    {
      row := [];
      for j := 0 to |drainers|
        invariant row == RowPrefix(vs, generator.cipherMessages, h, j)
        invariant forall k :: 0 <= k < |drainers| ==>
                    drainers[k].message == vs[k] && drainers[k].idx == (if k < j then h + 1 else h) && drainers[k].Valid()
      {
        assert drainers[j].channel.generator == generator;
        var cell := DrainCell(drainers[j], vs[j], h);
        row := row + cell;
      }
    }

    /** `next(d)` on one drainer, then a '!' when the character it returned is flagged. */
    static method DrainCell(d: ChannelMessageDrainer, ghost v: string, h: nat) returns (cell: string)
      requires d.message == v && d.idx == h < |v| && d.Valid()
      modifies d
      ensures cell == Cell(v, d.channel.generator.cipherMessages, h)
      ensures d.message == v && d.idx == h + 1 && d.Valid()
    {
      var c := d.Next();
      cell := [c.value];
      if d.IsPartOfCipherMessage() {
        cell := cell + "!";
      }
    }

    /** The nested loop of `get_screen_and_scroll`: the frame, read through the drainers without touching the columns. */
    method DrawFrame() returns (s: string)
      requires Valid()
      modifies set d <- drainers
      ensures Valid() && ColumnStates() == old(ColumnStates())
      ensures s == FramePrefix(Visibles(generator, height, old(ColumnStates())), generator.cipherMessages, height)
      ensures forall k :: 0 <= k < |drainers| ==>
                drainers[k].message == Visibles(generator, height, old(ColumnStates()))[k] && drainers[k].idx == height
    {
      ghost var ss := ColumnStates();
      s := ReadFrame(ss);
      ColumnsKept();
    }

    /** The frame of columns in states `ss`, read through the drainers. */
    method ReadFrame(ghost ss: seq<ChannelState>) returns (s: string)
      requires Valid() && ss == ColumnStates()
      modifies set d <- drainers
      ensures unchanged(set c <- channels)
      ensures s == FramePrefix(Visibles(generator, height, ss), generator.cipherMessages, height)
      ensures forall k :: 0 <= k < |drainers| ==> drainers[k].message == Visibles(generator, height, ss)[k] && drainers[k].idx == height
    {
      ghost var vs := Visibles(generator, height, ss);
      VisiblesTall(generator, height, ss);
      IterAll(vs);
      s := DrainRows(vs);
    }

    /** Reading through the drainers leaves the columns as they were. */
    twostate lemma ColumnsKept()
      requires old(Valid()) && unchanged(set c <- channels)
      ensures Valid() && ColumnStates() == old(ColumnStates())
    {
    }

    /** The rows of the nested loop, HEIGHT passes over the drainers. */
    method DrainRows(ghost vs: seq<string>) returns (s: string)
      requires Readers() && |vs| == |drainers| && Tall(vs, height)
      requires forall k :: 0 <= k < |drainers| ==> drainers[k].message == vs[k] && drainers[k].idx == 0 && drainers[k].Valid()
      modifies set d <- drainers
      ensures s == FramePrefix(vs, generator.cipherMessages, height)
      ensures forall k :: 0 <= k < |drainers| ==> drainers[k].message == vs[k] && drainers[k].idx == height
    {
      s := "";
      for h := 0 to height
        invariant s == FramePrefix(vs, generator.cipherMessages, h)
        invariant forall k :: 0 <= k < |drainers| ==> drainers[k].message == vs[k] && drainers[k].idx == h && drainers[k].Valid()
      {
        var row := DrainRow(vs, h);
        s := s + row + "\n";
      }
    }

    /**
      `get_screen_and_scroll()`: the frame is read from the columns as they
      are, then each column scrolls at most once. The drainers end past row
      HEIGHT of the visible texts.
    */
    method GetScreenAndScroll(t: Tape) returns (r: Result<(string, Tape)>)
      requires Valid()
      modifies set c <- channels, set d <- drainers
      ensures Valid()
      ensures var ss := old(ColumnStates());
              var p := ScrollPass(generator, height, ss, 0, t);
              && States(channels) == p.states
              && (forall k :: 0 <= k < |channels| ==> AtMostOneScroll(height, ss[k], p.states[k]))
              && (p.outcome.Ok? ==> r == Ok((FrameOf(generator, height, ss), p.outcome.value)))
              && (p.outcome.Err? ==> r == Err(p.outcome.error))
              && forall k :: 0 <= k < |drainers| ==> drainers[k].message == Visibles(generator, height, ss)[k] && drainers[k].idx == height
    {
      ghost var ss := ColumnStates();
      var s := DrawFrame();
      ScrollPassKeepsColumns(generator, height, ss, 0, t);
      var sc := ScrollAll(t);
      if sc.Err? {
        return Err(sc.error);
      }
      r := Ok((Reverse(s), sc.value));
    }

    /** The final loop of `get_screen_and_scroll`; the drainers keep their state. */
    method ScrollAll(t: Tape) returns (r: Result<Tape>)
      requires Valid()
      modifies set c <- channels
      ensures Valid()
      ensures var p := ScrollPass(generator, height, old(ColumnStates()), 0, t);
              r == p.outcome && States(channels) == p.states
      ensures forall k :: 0 <= k < |drainers| ==> drainers[k].message == old(drainers[k].message) && drainers[k].idx == old(drainers[k].idx)
    {
      r := ScrollChannels(channels, generator, height, t);
    }
  }
}
