/**
  The glyph source of theone_ncurses.py: the encoding attributes, the
  tagged glyph, and `MessageGenerator`, which produces runs of glyphs,
  runs of blanks and, rarely, a reversed cipher word.
*/
module Glyphs {
  import opened Wrappers
  import opened Random
  import opened Text
  import opened Alphabets

  /** `EncodingAttr`: flags that decide how a glyph is drawn. */
  datatype Attr = Head | Cipher | Danger | Normal

  /** A `(character, attributes)` tuple; the flag set is a set of `Attr`. */
  datatype Glyph = Glyph(ch: char, attrs: set<Attr>)

  /** The flags the generator hands out: exactly one of NORMAL, DANGER or CIPHER, and never HEAD. */
  predicate Generated(x: Glyph) {
    x.attrs == {Normal} || x.attrs == {Danger} || x.attrs == {Cipher}
  }

  /** The configuration of a `MessageGenerator`: the alphabet it draws from, the reversed cipher words and the density. */
  datatype MessageGenerator = MessageGenerator(alphabet: seq<char>, cipherMessages: seq<string>, density: int)

  /**
    `MessageGenerator(ciphers, density)`: the words of `ciphers` (none when it
    is None), each stored reversed.
  */
  function NewMessageGenerator(ciphers: Option<string>, density: int): (g: MessageGenerator)
    ensures var words := if ciphers.Some? then Words(ciphers.value) else [];
            && |g.cipherMessages| == |words|
            && forall i :: 0 <= i < |words| ==> Reverse(g.cipherMessages[i]) == words[i]
    ensures forall m <- g.cipherMessages :: m != [] && forall c <- m :: !IsSpace(c)
    ensures g.alphabet == LatinGreekAlphabet && g.density == density
  {
    var words := if ciphers.Some? then Words(ciphers.value) else [];
    MessageGenerator(LatinGreekAlphabet, ReversedWords(words), density)
  }

  /** A configured word "CAT" is stored as "TAC". */
  lemma CatIsStoredReversed(density: int)
    ensures NewMessageGenerator(Some("CAT"), density).cipherMessages == ["TAC"]
  {
    assert Words("CAT") == ["CAT"] by {
      assert !IsSpace('C') && !IsSpace('A') && !IsSpace('T');
      assert WordEnd("CAT", 3) == 3;
      assert WordEnd("CAT", 2) == 3;
      assert WordEnd("CAT", 1) == 3;
      assert WordEnd("CAT", 0) == 3;
      assert "CAT"[..3] == "CAT" && "CAT"[3..] == [];
    }
    assert Reverse("CAT") == "TAC";
  }

  /** The glyphs of one cipher message, each tagged CIPHER. */
  function CipherGlyphs(m: string): (r: seq<Glyph>)
    ensures |r| == |m| && forall i :: 0 <= i < |m| ==> r[i] == Glyph(m[i], {Cipher})
  {
    seq(|m|, i requires 0 <= i < |m| => Glyph(m[i], {Cipher}))
  }

  /** `_new_random_cipher()`: one stored (reversed) word as CIPHER glyphs, or nothing when there are no words. */
  function NewRandomCipher(g: MessageGenerator, t: Tape): (r: Result<Drawn<seq<Glyph>>>)
    ensures g.cipherMessages == [] ==> r == Ok(Drawn([], t))
    ensures g.cipherMessages != [] ==> (r.Ok? <==> t != [])
    ensures r.Ok? ==> |r.value.rest| <= |t|
    ensures r.Ok? && g.cipherMessages != [] ==>
              exists m <- g.cipherMessages :: r.value.value == CipherGlyphs(m)
  {
    if g.cipherMessages == [] then Ok(Drawn([], t))
    else
      var m :- Choice(t, g.cipherMessages);
      Ok(Drawn(CipherGlyphs(m.value), m.rest))
  }

  /** A configured "CAT" is spliced in as T, A, C, each tagged CIPHER. */
  lemma CatSplicesReversed(density: int, t: Tape)
    requires t != []
    ensures var g := NewMessageGenerator(Some("CAT"), density);
            NewRandomCipher(g, t) ==
              Ok(Drawn([Glyph('T', {Cipher}), Glyph('A', {Cipher}), Glyph('C', {Cipher})], t[1..]))
  {
    CatIsStoredReversed(density);
    var g := NewMessageGenerator(Some("CAT"), density);
    assert Choice(t, g.cipherMessages) == Ok(Drawn("TAC", t[1..]));
    assert CipherGlyphs("TAC") == [Glyph('T', {Cipher}), Glyph('A', {Cipher}), Glyph('C', {Cipher})];
  }

  /**
    `new_random_unicode(length)`: `length` alphabet glyphs tagged NORMAL; then
    with a roll of 0 on randint(0, 50) one of them, chosen by
    randint(0, length - 1), is retagged DANGER.
  */
  function NewRandomUnicode(g: MessageGenerator, length: nat, t: Tape): (r: Result<Drawn<seq<Glyph>>>)
    ensures r.Ok? ==> |r.value.value| == length && |r.value.rest| < |t|
    ensures r.Ok? ==> forall x <- r.value.value :: x.ch in g.alphabet && (x.attrs == {Normal} || x.attrs == {Danger})
    ensures r.Ok? ==> forall i, j :: 0 <= i < j < length && Danger in r.value.value[i].attrs ==>
                                       Danger !in r.value.value[j].attrs
    ensures length >= 1 && g.alphabet != [] && r.Err? ==> r.error == Exhausted
    ensures g.alphabet != [] && r.Err? ==> r.error != IndexError
  {
    var chars :- Choices(t, g.alphabet, length);
    var b := seq(length, i requires 0 <= i < length => Glyph(chars.value[i], {Normal}));
    var roll :- RandInt(chars.rest, 0, 50);
    if roll.value == 0 then
      var problem :- RandInt(roll.rest, 0, length - 1);
      var p := problem.value;
      var retagged := b[p := Glyph(b[p].ch, {Danger})];
      assert forall i :: 0 <= i < length ==>
        retagged[i] == Glyph(chars.value[i], if i == p then {Danger} else {Normal});
      Ok(Drawn(retagged, problem.rest))
    else
      Ok(Drawn(b, roll.rest))
  }

  /** `new_space_message(length)`: `length` blanks tagged NORMAL. */
  function NewSpaceMessage(length: nat): (r: seq<Glyph>)
    ensures |r| == length && forall x <- r :: x == Glyph(' ', {Normal})
  {
    seq(length, _ => Glyph(' ', {Normal}))
  }

  /**
    The first half of one iteration of `new_message`: with probability
    density/101 a glyph run, otherwise a blank run, of randint(1, length) glyphs.
  */
  function Chunk(g: MessageGenerator, length: int, t: Tape): (r: Result<Drawn<seq<Glyph>>>)
    ensures r.Ok? ==> 1 <= |r.value.value| <= length && |r.value.rest| < |t|
    ensures r.Ok? ==> forall x <- r.value.value :: x.attrs == {Normal} || x.attrs == {Danger}
    ensures length < 1 && t != [] ==> r == Err(ValueError)
    ensures length >= 1 && g.alphabet != [] && r.Err? ==> r.error == Exhausted
    ensures g.alphabet != [] && r.Err? ==> r.error != IndexError
  {
    var roll :- RandInt(t, 0, 100);
    var n :- RandInt(roll.rest, 1, length);
    if g.density > roll.value then NewRandomUnicode(g, n.value, n.rest)
    else Ok(Drawn(NewSpaceMessage(n.value), n.rest))
  }

  /** `int(length / 3)`: Python truncates toward zero. */
  function Third(length: int): int {
    if length >= 0 then length / 3 else -((-length) / 3)
  }

  /**
    The second half of one iteration of `new_message`: with a roll of at most
    1 on randint(0, 1000), a cipher followed by randint(1, int(length/3))
    alphabet glyphs; otherwise nothing.
  */
  function CipherSplice(g: MessageGenerator, length: int, t: Tape): (r: Result<Drawn<seq<Glyph>>>)
    ensures r.Ok? ==> |r.value.rest| < |t|
    ensures r.Ok? ==> forall x <- r.value.value :: Generated(x)
    ensures r.Ok? && g.cipherMessages == [] ==> forall x <- r.value.value :: Cipher !in x.attrs
    ensures length >= 3 && g.alphabet != [] && r.Err? ==> r.error == Exhausted
    ensures g.alphabet != [] && r.Err? ==> r.error != IndexError
  {
    var roll :- RandInt(t, 0, 1000);
    if 1 >= roll.value then
      var cipher :- NewRandomCipher(g, roll.rest);
      var n :- RandInt(cipher.rest, 1, Third(length));
      var tail :- NewRandomUnicode(g, n.value, n.rest);
      Ok(Drawn(cipher.value + tail.value, tail.rest))
    else
      Ok(Drawn([], roll.rest))
  }

  /**
    The loop of `new_message(channelid, length)` from a partial buffer `buff`:
    while `len(buff) <= length`, add one chunk and maybe a cipher splice.
    Every chunk adds at least one glyph, so the loop ends.
  */
  function Message(g: MessageGenerator, length: int, buff: seq<Glyph>, t: Tape): (r: Result<Drawn<seq<Glyph>>>)
    ensures r.Ok? ==> buff <= r.value.value && |r.value.value| > length && |r.value.rest| <= |t|
    ensures g.alphabet != [] && r.Err? ==> r.error != IndexError
    decreases length - |buff|
  {
    if |buff| > length then Ok(Drawn(buff, t))
    else
      var chunk :- Chunk(g, length, t);
      var splice :- CipherSplice(g, length, chunk.rest);
      var next := buff + chunk.value + splice.value;
      assert buff <= next;
      Message(g, length, next, splice.rest)
  }

  /** `new_message(channelid, length)` (the channel id is unused by the source). */
  method NewMessage(g: MessageGenerator, length: int, t: Tape) returns (r: Result<Drawn<seq<Glyph>>>)
    ensures r == Message(g, length, [], t)
  {
    var buff: seq<Glyph> := [];
    var tape := t;
    while |buff| <= length
      invariant Message(g, length, buff, tape) == Message(g, length, [], t)
      decreases length - |buff|
    {
      var chunk := Chunk(g, length, tape);
      if chunk.Err? {
        return Err(chunk.error);
      }
      buff := buff + chunk.value.value;
      tape := chunk.value.rest;
      var splice := CipherSplice(g, length, tape);
      if splice.Err? {
        return Err(splice.error);
      }
      buff := buff + splice.value.value;
      tape := splice.value.rest;
    }
    return Ok(Drawn(buff, tape));
  }

  /** Every glyph of a message carries exactly one of NORMAL, DANGER, CIPHER and no HEAD; with no words, none is CIPHER. */
  lemma {:induction false} MessageTags(g: MessageGenerator, length: int, buff: seq<Glyph>, t: Tape)
    requires forall x <- buff :: Generated(x)
    ensures var r := Message(g, length, buff, t);
            r.Ok? ==> forall x <- r.value.value :: Generated(x) && Head !in x.attrs
    ensures var r := Message(g, length, buff, t);
            r.Ok? && g.cipherMessages == [] && (forall x <- buff :: Cipher !in x.attrs) ==>
              forall x <- r.value.value :: Cipher !in x.attrs
    decreases length - |buff|
  {
    if |buff| <= length {
      var chunk := Chunk(g, length, t);
      if chunk.Ok? {
        var splice := CipherSplice(g, length, chunk.value.rest);
        if splice.Ok? {
          var next := buff + chunk.value.value + splice.value.value;
          MessageTags(g, length, next, splice.value.rest);
        }
      }
    }
  }

  /** With `length >= 3` the only way `new_message` can stop early is running out of draws. */
  lemma {:induction false} LongMessageOnlyExhausts(g: MessageGenerator, length: int, buff: seq<Glyph>, t: Tape)
    requires length >= 3 && g.alphabet != []
    ensures Message(g, length, buff, t).Err? ==> Message(g, length, buff, t).error == Exhausted
    decreases length - |buff|
  {
    if |buff| <= length {
      var chunk := Chunk(g, length, t);
      if chunk.Ok? {
        var splice := CipherSplice(g, length, chunk.value.rest);
        if splice.Ok? {
          LongMessageOnlyExhausts(g, length, buff + chunk.value.value + splice.value.value, splice.value.rest);
        }
      }
    }
  }

  /** On zero draws a chunk is one glyph long and uses two draws (blank) or five (glyph, retagged DANGER). */
  lemma ChunkOnZeros(g: MessageGenerator, length: int, t: Tape)
    requires length >= 1 && g.alphabet != [] && |t| >= 5 && t[0] == t[1] == t[2] == t[3] == t[4] == 0
    ensures Chunk(g, length, t).Ok?
    ensures Chunk(g, length, t).value.rest == if g.density > 0 then t[5..] else t[2..]
  {
    assert RandInt(t, 0, 100) == Ok(Drawn(0, t[1..]));
    assert RandInt(t[1..], 1, length) == Ok(Drawn(1, t[2..]));
    if g.density > 0 {
      assert Choice(t[2..], g.alphabet) == Ok(Drawn(g.alphabet[0], t[3..]));
      assert Choices(t[3..], g.alphabet, 0) == Ok(Drawn([], t[3..]));
      assert Choices(t[2..], g.alphabet, 1).Ok?;
      assert RandInt(t[3..], 0, 50) == Ok(Drawn(0, t[4..]));
      assert RandInt(t[4..], 0, 0) == Ok(Drawn(0, t[5..]));
    }
  }

  /** With `length < 3` a cipher roll of 0 reaches randint(1, 0). */
  lemma SpliceRaises(g: MessageGenerator, length: int, t: Tape)
    requires length < 3 && |t| >= 2 && t[0] == 0
    ensures CipherSplice(g, length, t) == Err(ValueError)
  {
    assert RandInt(t, 0, 1000) == Ok(Drawn(0, t[1..]));
    assert NewRandomCipher(g, t[1..]).Ok?;
    assert Third(length) <= 0;
  }

  /**
    With `1 <= length < 3` the cipher branch calls randint(1, 0), which raises
    ValueError; seven zero draws reach it for every configuration.
  */
  lemma ShortMessageCipherRaises(g: MessageGenerator, length: int)
    requires 1 <= length < 3 && g.alphabet != []
    ensures Message(g, length, [], [0, 0, 0, 0, 0, 0, 0]) == Err(ValueError)
  {
    var t: Tape := [0, 0, 0, 0, 0, 0, 0];
    ChunkOnZeros(g, length, t);
    var rest := Chunk(g, length, t).value.rest;
    SpliceRaises(g, length, rest);
  }

  /** `new_message(0)` raises at randint(1, 0); a negative length returns an empty message. */
  lemma DegenerateLengths(g: MessageGenerator, t: Tape)
    ensures t != [] ==> Message(g, 0, [], t) == Err(ValueError)
    ensures forall length :: length < 0 ==> Message(g, length, [], t) == Ok(Drawn([], t))
  {
  }
}
