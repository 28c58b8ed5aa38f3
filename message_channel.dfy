/**
  The scrolling column of ncurses/theone.py, nocolor/theone.py and
  theone.py: the character generator and `MessageChannel`, which keeps a
  string and an offset into it. The three files share these classes; they
  differ only in the alphabet and in what `get_random_cipher` does when no
  cipher word is configured, which `Generator` takes as parameters.
*/
module Scrolling {
  import opened Wrappers
  import opened Random
  import opened Text

  /**
    `MessageGenerator(ciphers)`: the alphabet of its file, the reversed cipher
    words, and whether `get_random_cipher` yields '' when there are none
    (theone.py) instead of calling `choice` on an empty list (the other two).
  */
  datatype Generator = Generator(alphabet: seq<char>, cipherMessages: seq<string>, blankWhenNoCipher: bool)

  /** `MessageGenerator(ciphers)` over the given alphabet. */
  function NewGenerator(alphabet: seq<char>, ciphers: string, blankWhenNoCipher: bool): (g: Generator)
    ensures g.alphabet == alphabet && g.blankWhenNoCipher == blankWhenNoCipher
    ensures |g.cipherMessages| == |Words(ciphers)|
    ensures forall i :: 0 <= i < |Words(ciphers)| ==> Reverse(g.cipherMessages[i]) == Words(ciphers)[i]
    ensures forall m <- g.cipherMessages :: m != [] && forall c <- m :: !IsSpace(c)
  {
    Generator(alphabet, ReversedWords(Words(ciphers)), blankWhenNoCipher)
  }

  /** The characters a column can hold: alphabet characters, blanks and characters of cipher words. */
  predicate Legal(g: Generator, c: char) {
    c in g.alphabet || c == ' ' || exists m <- g.cipherMessages :: c in m
  }

  /** Every character of `s` is legal. */
  predicate AllLegal(g: Generator, s: string) {
    forall c <- s :: Legal(g, c)
  }

  /** `get_random_unicode(length)`: `length` successive choices from the alphabet. */
  function RandomUnicode(g: Generator, length: nat, t: Tape): (r: Result<Drawn<string>>)
    ensures r.Ok? ==> |r.value.value| == length && length <= |t| && r.value.rest == t[length..]
    ensures r.Ok? ==> forall c <- r.value.value :: c in g.alphabet
    ensures g.alphabet != [] ==> (r.Ok? <==> length <= |t|) && (r.Err? ==> r.error == Exhausted)
  {
    Choices(t, g.alphabet, length)
  }

  /** What `get_random_cipher` may return. */
  predicate CipherOf(g: Generator, c: string) {
    c in g.cipherMessages || (c == [] && g.cipherMessages == [] && g.blankWhenNoCipher)
  }

  /** `get_random_cipher()`: a stored word, or '' or IndexError when there is none. */
  function RandomCipher(g: Generator, t: Tape): (r: Result<Drawn<string>>)
    ensures g.cipherMessages == [] ==> r == if g.blankWhenNoCipher then Ok(Drawn([], t)) else Err(IndexError)
    ensures g.cipherMessages != [] ==> (r.Ok? <==> t != []) && (r.Err? ==> r.error == Exhausted)
    ensures r.Ok? ==> CipherOf(g, r.value.value) && |r.value.rest| <= |t|
  {
    if g.cipherMessages == [] && g.blankWhenNoCipher then Ok(Drawn([], t))
    else Choice(t, g.cipherMessages)
  }

  /** The two shapes of a generated message: `length` alphabet characters, or a cipher between two such runs. */
  ghost predicate Shaped(g: Generator, length: nat, m: string) {
    || (|m| == length && forall c <- m :: c in g.alphabet)
    || exists c :: CipherOf(g, c) && |m| == 2 * length + |c| && m[length..length + |c|] == c
                   && (forall k :: 0 <= k < length ==> m[k] in g.alphabet)
                   && (forall k :: length + |c| <= k < |m| ==> m[k] in g.alphabet)
  }

  /**
    `generate_message(length)`: with a roll above 1 on randint(0, 100),
    `length` alphabet characters; otherwise such a run, a cipher, and another run.
  */
  function GenerateMessage(g: Generator, length: nat, t: Tape): (r: Result<Drawn<string>>)
    ensures r.Ok? ==> Shaped(g, length, r.value.value) && |r.value.rest| < |t|
    ensures r.Ok? ==> AllLegal(g, r.value.value)
    ensures g.alphabet != [] && (g.cipherMessages != [] || g.blankWhenNoCipher) && r.Err? ==> r.error == Exhausted
    ensures r.Err? ==> r.error == Exhausted || r.error == IndexError
  {
    var roll :- RandInt(t, 0, 100);
    if 1 < roll.value then RandomUnicode(g, length, roll.rest)
    else
      var u1 :- RandomUnicode(g, length, roll.rest);
      var c :- RandomCipher(g, u1.rest);
      var u2 :- RandomUnicode(g, length, c.rest);
      SplicedShaped(g, length, u1.value, c.value, u2.value);
      Ok(Drawn(u1.value + c.value + u2.value, u2.rest))
  }

  /** A cipher between two alphabet runs of `length` characters is a message of the second shape. */
  lemma SplicedShaped(g: Generator, length: nat, a: string, c: string, b: string)
    requires |a| == |b| == length && CipherOf(g, c)
    requires (forall x <- a :: x in g.alphabet) && forall x <- b :: x in g.alphabet
    ensures Shaped(g, length, a + c + b) && AllLegal(g, a + c + b)
  {
    var m := a + c + b;
    assert m[length..length + |c|] == c;
    assert forall k :: 0 <= k < length ==> m[k] == a[k];
    assert forall k :: length + |c| <= k < |m| ==> m[k] == b[k - length - |c|];
    forall x <- m ensures Legal(g, x) {
      if x in c {
        assert c in g.cipherMessages;
      } else {
        assert x in a || x in b;
      }
    }
  }

  /** ncurses/theone.py and nocolor/theone.py: with no words, a cipher roll ends in IndexError. */
  lemma NoWordsRaises(g: Generator, length: nat, t: Tape)
    requires g.cipherMessages == [] && !g.blankWhenNoCipher && g.alphabet != [] && |t| >= length
    ensures GenerateMessage(g, length, [0] + t) == Err(IndexError)
  {
    assert ([0] + t)[1..] == t;
    assert RandInt([0] + t, 0, 100) == Ok(Drawn(0, t));
  }

  /** theone.py: with no words the cipher branch yields 2 * length alphabet characters. */
  lemma NoWordsBlankCipher(g: Generator, length: nat, t: Tape)
    requires g.cipherMessages == [] && g.blankWhenNoCipher && g.alphabet != [] && |t| >= 2 * length
    ensures var r := GenerateMessage(g, length, [0] + t);
            r.Ok? && |r.value.value| == 2 * length && r.value.rest == t[2 * length..]
  {
    assert ([0] + t)[1..] == t;
    assert RandInt([0] + t, 0, 100) == Ok(Drawn(0, t));
    assert t[length..][length..] == t[2 * length..];
  }

  /** One chunk of `_populate_message`: with a roll below 20 a generated message of randint(1, HEIGHT), otherwise randint(0, HEIGHT) blanks. */
  function PopulateChunk(g: Generator, height: int, t: Tape): (r: Result<Drawn<string>>)
    ensures r.Ok? ==> |r.value.rest| < |t| && AllLegal(g, r.value.value)
    ensures height >= 1 && g.alphabet != [] && (g.cipherMessages != [] || g.blankWhenNoCipher) && r.Err? ==>
              r.error == Exhausted
  {
    var roll :- RandInt(t, 0, 100);
    if 20 > roll.value then
      var n :- RandInt(roll.rest, 1, height);
      GenerateMessage(g, n.value, n.rest)
    else
      var n :- RandInt(roll.rest, 0, height);
      Ok(Drawn(Spaces(n.value), n.rest))
  }

  /**
    The loop of `_populate_message(head)` from the string built so far: add
    chunks while the string is at most 2 * HEIGHT long. A chunk of blanks can
    be empty, so termination rests on the draws.
  */
  function Populated(g: Generator, height: int, s: string, t: Tape): (r: Result<Drawn<string>>)
    ensures r.Ok? ==> s <= r.value.value && |r.value.value| > 2 * height && |r.value.rest| <= |t|
    ensures r.Ok? && AllLegal(g, s) ==> AllLegal(g, r.value.value)
    ensures height >= 1 && g.alphabet != [] && (g.cipherMessages != [] || g.blankWhenNoCipher) && r.Err? ==>
              r.error == Exhausted
    decreases |t|
  {
    if |s| > 2 * height then Ok(Drawn(s, t))
    else
      var chunk :- PopulateChunk(g, height, t);
      Populated(g, height, s + chunk.value, chunk.rest)
  }

  /** The state of a column: `_message` and `_idx`. */
  datatype ChannelState = ChannelState(message: string, idx: nat)

  /** The invariant of a column: the offset is on screen and the string reaches past two screens. */
  predicate ValidState(g: Generator, height: int, s: ChannelState) {
    && height >= 1 && s.idx < height && |s.message| > 2 * height
    && AllLegal(g, s.message)
  }

  /** `message`: the characters from the offset on. */
  function VisibleOf(s: ChannelState): string
    requires s.idx <= |s.message|
  {
    s.message[s.idx..]
  }

  /** `scroll()`: advance the offset; on reaching HEIGHT, restart from the unread rest. */
  function ScrollOf(g: Generator, height: int, s: ChannelState, t: Tape): (r: Result<Drawn<ChannelState>>)
    requires ValidState(g, height, s)
    ensures r.Ok? ==> ValidState(g, height, r.value.value) && |r.value.rest| <= |t|
    ensures r.Ok? ==> VisibleOf(s)[1..] <= VisibleOf(r.value.value)
    ensures s.idx + 1 < height ==> r == Ok(Drawn(ChannelState(s.message, s.idx + 1), t))
  {
    if s.idx + 1 < height then Ok(Drawn(ChannelState(s.message, s.idx + 1), t))
    else
      var m :- Populated(g, height, s.message[s.idx + 1..], t);
      Ok(Drawn(ChannelState(m.value, 0), m.rest))
  }

  /** `b` is `a` scrolled at most once. */
  predicate AtMostOneScroll(height: int, a: ChannelState, b: ChannelState) {
    || b == a
    || (b.message == a.message && b.idx == a.idx + 1)
    || (a.idx + 1 >= height && b.idx == 0 && a.idx + 1 <= |a.message| && a.message[a.idx + 1..] <= b.message)
  }

  /** The outcome of a scrolling pass: the new states (partly updated after a failure) and the rest of the tape. */
  datatype PassResult = PassResult(states: seq<ChannelState>, outcome: Result<Tape>)

  /** One column's turn in the final loop of `get_screen_and_scroll`: scroll when randint(0, 100) is below 60. */
  function MaybeScroll(g: Generator, height: int, s: ChannelState, t: Tape): (r: Result<Drawn<ChannelState>>)
    requires ValidState(g, height, s)
    ensures r.Ok? ==> ValidState(g, height, r.value.value) && AtMostOneScroll(height, s, r.value.value)
    ensures r.Ok? ==> |r.value.rest| < |t|
  {
    var roll :- RandInt(t, 0, 100);
    if 60 > roll.value then ScrollOf(g, height, s, roll.rest) else Ok(Drawn(s, roll.rest))
  }

  /**
    The final loop of `get_screen_and_scroll` from column `k` on, over the
    current states `cur` (columns before `k` have had their turn). An
    exception leaves the failing column and those after it as they were.
  */
  function ScrollPass(g: Generator, height: int, cur: seq<ChannelState>, k: nat, t: Tape): (p: PassResult)
    requires k <= |cur| && forall j :: 0 <= j < |cur| ==> ValidState(g, height, cur[j])
    ensures |p.states| == |cur| && p.states[..k] == cur[..k]
    decreases |cur| - k
  {
    if k == |cur| then PassResult(cur, Ok(t))
    else
      var first := MaybeScroll(g, height, cur[k], t);
      if first.Err? then PassResult(cur, Err(first.error))
      else ScrollPass(g, height, cur[k := first.value.value], k + 1, first.value.rest)
  }

  /** A pass keeps every column valid, scrolls each at most once, and never gives back draws. */
  lemma {:induction false} ScrollPassKeepsColumns(g: Generator, height: int, cur: seq<ChannelState>, k: nat, t: Tape)
    requires k <= |cur| && forall j :: 0 <= j < |cur| ==> ValidState(g, height, cur[j])
    ensures var p := ScrollPass(g, height, cur, k, t);
            && (forall j :: 0 <= j < |cur| ==> ValidState(g, height, p.states[j]))
            && (forall j :: k <= j < |cur| ==> AtMostOneScroll(height, cur[j], p.states[j]))
            && (p.outcome.Ok? ==> |p.outcome.value| <= |t|)
    decreases |cur| - k
  {
    if k < |cur| {
      var first := MaybeScroll(g, height, cur[k], t);
      if first.Ok? {
        var next := cur[k := first.value.value];
        ScrollPassKeepsColumns(g, height, next, k + 1, first.value.rest);
        var p := ScrollPass(g, height, next, k + 1, first.value.rest);
        assert p.states[..k + 1] == next[..k + 1];
        assert p.states[k] == next[k];
      }
    }
  }

  /** `MessageChannel`: one column of a sequential variant. */
  class MessageChannel {
    const generator: Generator
    const height: int
    var message: string       // _message
    var idx: nat              // _idx

    function State(): ChannelState
      reads this
    {
      ChannelState(message, idx)
    }

    ghost predicate Valid()
      reads this
    {
      ValidState(generator, height, State())
    }

    /** The generator and HEIGHT, before `__init__` populates the string. */
    constructor (g: Generator, h: int)
      ensures generator == g && height == h && message == [] && idx == 0
    {
      generator := g;
      height := h;
      message := [];
      idx := 0;
    }

    /** `MessageChannel(messagegenerator)`: a column that starts with HEIGHT blanks. */
    static method Create(g: Generator, h: int, t: Tape) returns (r: Result<(MessageChannel, Tape)>)
      requires h >= 1
      ensures var p := Populated(g, h, Spaces(h), t);
              && (p.Err? ==> r == Err(p.error))
              && (p.Ok? ==> && r.Ok? && fresh(r.value.0) && r.value.0.Valid()
                            && r.value.0.generator == g && r.value.0.height == h
                            && r.value.0.State() == ChannelState(p.value.value, 0) && r.value.1 == p.value.rest)
    {
      var c := new MessageChannel(g, h);
      var p := c.Populate(Spaces(h), t);
      if p.Err? {
        return Err(p.error);
      }
      return Ok((c, p.value));
    }

    /** `_populate_message(head)`: offset 0 and `head` topped up past 2 * HEIGHT; unchanged on an exception. */
    method Populate(head: string, t: Tape) returns (r: Result<Tape>)
      requires height >= 1 && AllLegal(generator, head)
      modifies this
      ensures var p := Populated(generator, height, head, t);
              && (p.Ok? ==> r == Ok(p.value.rest) && State() == ChannelState(p.value.value, 0) && Valid())
              && (p.Err? ==> r == Err(p.error) && State() == old(State()))
    {
      var s := head;
      var tape := t;
      while |s| <= 2 * height
        invariant Populated(generator, height, s, tape) == Populated(generator, height, head, t)
        decreases |tape|
      {
        var chunk := PopulateChunk(generator, height, tape);
        if chunk.Err? {
          return Err(chunk.error);
        }
        s := s + chunk.value.value;
        tape := chunk.value.rest;
      }
      message := s;
      idx := 0;
      return Ok(tape);
    }

    /** `scroll()`. */
    method Scroll(t: Tape) returns (r: Result<Tape>)
      requires Valid()
      modifies this
      ensures Valid()
      ensures var s := ScrollOf(generator, height, old(State()), t);
              && (s.Ok? ==> r == Ok(s.value.rest) && State() == s.value.value)
              && (s.Err? ==> r == Err(s.error) && State() == old(State()))
    {
      var next := idx + 1;
      if next >= height {
        assert AllLegal(generator, message[next..]);
        r := Populate(message[next..], t);
      } else {
        idx := next;
        r := Ok(t);
      }
    }

    /** `message`: more than HEIGHT characters, so a frame never runs out. */
    function Visible(): (v: string)
      requires Valid()
      reads this
      ensures |v| > height && AllLegal(generator, v)
    {
      message[idx..]
    }
  }

  /** The states of a list of columns. */
  function States(chs: seq<MessageChannel>): (ss: seq<ChannelState>)
    reads set c <- chs
    ensures |ss| == |chs| && forall k :: 0 <= k < |chs| ==> ss[k] == chs[k].State()
  {
    if chs == [] then [] else [chs[0].State()] + States(chs[1..])
  }

  lemma StatesAre(chs: seq<MessageChannel>, cur: seq<ChannelState>)
    requires |cur| == |chs| && forall j :: 0 <= j < |chs| ==> chs[j].State() == cur[j]
    ensures States(chs) == cur
  {
  }

  /** The columns are distinct, valid and share one generator and HEIGHT. */
  ghost predicate Columns(chs: seq<MessageChannel>, g: Generator, height: int)
    reads set c <- chs
  {
    && (forall i, j :: 0 <= i < |chs| && 0 <= j < |chs| && i != j ==> chs[i] != chs[j])
    && forall k :: 0 <= k < |chs| ==> chs[k].Valid() && chs[k].generator == g && chs[k].height == height
  }

  /** One column's turn: draw, and maybe `scroll()`. */
  method ScrollOne(c: MessageChannel, t: Tape) returns (r: Result<Drawn<ChannelState>>)
    requires c.Valid()
    modifies c
    ensures c.Valid()
    ensures r == MaybeScroll(c.generator, c.height, old(c.State()), t)
    ensures c.State() == if r.Ok? then r.value.value else old(c.State())
  {
    var roll := RandInt(t, 0, 100);
    if roll.Err? {
      return Err(roll.error);
    }
    if 60 > roll.value.value {
      var s := c.Scroll(roll.value.rest);
      if s.Err? {
        return Err(s.error);
      }
      r := Ok(Drawn(c.State(), s.value));
    } else {
      r := Ok(Drawn(c.State(), roll.value.rest));
    }
  }

  /** Column `k`'s turn, stated against the pass over the current states. */
  method ScrollTurn(chs: seq<MessageChannel>, ghost g: Generator, ghost height: int, ghost cur: seq<ChannelState>, k: nat, t: Tape)
    returns (r: Result<Drawn<ChannelState>>)
    requires Columns(chs, g, height) && k < |chs| == |cur|
    requires forall j :: 0 <= j < |chs| ==> chs[j].State() == cur[j]
    modifies chs[k]
    ensures Columns(chs, g, height)
    ensures forall j :: 0 <= j < |chs| && j != k ==> chs[j].State() == cur[j]
    ensures r.Err? ==> chs[k].State() == cur[k] && ScrollPass(g, height, cur, k, t) == PassResult(cur, Err(r.error))
    ensures r.Ok? ==> chs[k].State() == r.value.value && ValidState(g, height, r.value.value) &&
                      ScrollPass(g, height, cur, k, t) == ScrollPass(g, height, cur[k := r.value.value], k + 1, r.value.rest)
  {
    r := ScrollOne(chs[k], t);
    assert forall j :: 0 <= j < |chs| && j != k ==> chs[j] != chs[k];
  }

  /** The scrolling loop of `get_screen_and_scroll`, over the columns in order. */
  method ScrollChannels(chs: seq<MessageChannel>, ghost g: Generator, ghost height: int, t: Tape) returns (r: Result<Tape>)
    requires Columns(chs, g, height)
    modifies set c <- chs
    ensures Columns(chs, g, height)
    ensures var p := ScrollPass(g, height, old(States(chs)), 0, t);
            r == p.outcome && States(chs) == p.states
  {
    ghost var cur := States(chs);
    var tape := t;
    var k := 0;
    while k < |chs|
      invariant 0 <= k <= |chs| && |cur| == |chs|
      invariant Columns(chs, g, height)
      invariant forall j :: 0 <= j < |chs| ==> chs[j].State() == cur[j]
      invariant ScrollPass(g, height, cur, k, tape) == ScrollPass(g, height, old(States(chs)), 0, t)
      decreases |chs| - k
    {
      var s := ScrollTurn(chs, g, height, cur, k, tape);
      if s.Err? {
        StatesAre(chs, cur);
        return Err(s.error);
      }
      cur := cur[k := s.value.value];
      tape := s.value.rest;
      k := k + 1;
    }
    StatesAre(chs, cur);
    r := Ok(tape);
  }
}
