/** The string operations of Python that the modelled code relies on. */
module Text {

  /**
    `c.isspace()` for a one-character string: the code points CPython
    counts as whitespace (bidirectional class WS, B or S, or category Zs).
  */
  predicate IsSpace(c: char) {
    || c == ' '
    || ('\t' <= c <= '\r')
    || ('\U{1c}' <= c <= '\U{1f}')
    || c == '\U{85}' || c == '\U{a0}' || c == '\U{1680}'
    || ('\U{2000}' <= c <= '\U{200a}')
    || c == '\U{2028}' || c == '\U{2029}' || c == '\U{202f}' || c == '\U{205f}' || c == '\U{3000}'
  }

  /** `' ' * n` */
  function Spaces(n: nat): (s: string)
    ensures |s| == n && forall c <- s :: c == ' '
  {
    seq(n, _ => ' ')
  }

  /** `''.join(reversed(s))`, and `reversed` on any list. */
  function Reverse<T>(s: seq<T>): (r: seq<T>)
    ensures |r| == |s|
    ensures forall i :: 0 <= i < |s| ==> r[i] == s[|s| - 1 - i]
  {
    if s == [] then [] else Reverse(s[1..]) + [s[0]]
  }

  lemma ReverseConcat<T>(a: seq<T>, b: seq<T>)
    ensures Reverse(a + b) == Reverse(b) + Reverse(a)
  {
    var l, r := Reverse(a + b), Reverse(b) + Reverse(a);
    assert |l| == |r|;
    forall i | 0 <= i < |l| ensures l[i] == r[i] {
      if i < |b| {
        assert r[i] == Reverse(b)[i];
      } else {
        assert r[i] == Reverse(a)[i - |b|];
      }
    }
  }

  lemma ReverseElements<T>(s: seq<T>)
    ensures forall x :: x in Reverse(s) <==> x in s
  {
    forall x | x in Reverse(s) ensures x in s {
      var i :| 0 <= i < |s| && Reverse(s)[i] == x;
      assert s[|s| - 1 - i] == x;
    }
    forall x | x in s ensures x in Reverse(s) {
      var i :| 0 <= i < |s| && s[i] == x;
      assert Reverse(s)[|s| - 1 - i] == x;
    }
  }

  /** Reversing twice gives back the original: the reversed cipher words still spell their source words. */
  lemma ReverseReverse<T>(s: seq<T>)
    ensures Reverse(Reverse(s)) == s
  {
    var r := Reverse(Reverse(s));
    assert |r| == |s|;
    forall i | 0 <= i < |s| ensures r[i] == s[i] {
      assert r[i] == Reverse(s)[|s| - 1 - i];
    }
  }

  /* --- str.split() with no argument --- */

  /** The end of the word that starts at `i`: the first whitespace at or after `i`, or the end of `s`. */
  function WordEnd(s: string, i: nat): (j: nat)
    requires i <= |s|
    ensures i <= j <= |s|
    ensures forall k :: i <= k < j ==> !IsSpace(s[k])
    ensures j < |s| ==> IsSpace(s[j])
    decreases |s| - i
  {
    if i == |s| || IsSpace(s[i]) then i else WordEnd(s, i + 1)
  }

  /** `s.split()`: the maximal runs of non-whitespace characters, in order. */
  function Words(s: string): (ws: seq<string>)
    ensures forall w <- ws :: w != [] && forall c <- w :: !IsSpace(c)
    decreases |s|
  {
    if s == [] then []
    else if IsSpace(s[0]) then Words(s[1..])
    else
      var j := WordEnd(s, 0);
      [s[..j]] + Words(s[j..])
  }

  /** The non-whitespace characters of `s`, in order. */
  function NonSpace(s: string): string {
    if s == [] then [] else (if IsSpace(s[0]) then [] else [s[0]]) + NonSpace(s[1..])
  }

  function Concat<T>(ss: seq<seq<T>>): seq<T> {
    if ss == [] then [] else ss[0] + Concat(ss[1..])
  }

  lemma {:induction false} NonSpaceConcat(a: string, b: string)
    ensures NonSpace(a + b) == NonSpace(a) + NonSpace(b)
    decreases |a|
  {
    if a != [] {
      assert (a + b)[1..] == a[1..] + b;
      NonSpaceConcat(a[1..], b);
    } else {
      assert a + b == b;
    }
  }

  lemma {:induction false} NonSpaceOfWord(w: string)
    requires forall c <- w :: !IsSpace(c)
    ensures NonSpace(w) == w
    decreases |w|
  {
    if w != [] {
      NonSpaceOfWord(w[1..]);
    }
  }

  /** `split()` loses only the whitespace: the words, joined, are the non-whitespace characters of `s`. */
  lemma {:induction false} WordsKeepNonSpace(s: string)
    ensures Concat(Words(s)) == NonSpace(s)
    decreases |s|
  {
    if s == [] {
    } else if IsSpace(s[0]) {
      WordsKeepNonSpace(s[1..]);
    } else {
      var j := WordEnd(s, 0);
      assert s == s[..j] + s[j..];
      NonSpaceConcat(s[..j], s[j..]);
      NonSpaceOfWord(s[..j]);
      WordsKeepNonSpace(s[j..]);
      assert Words(s)[1..] == Words(s[j..]);
    }
  }

  /** Every character of a word of `s.split()` is a character of `s`. */
  lemma {:induction false} WordCharsFrom(s: string)
    ensures forall w, c :: w in Words(s) && c in w ==> c in s
    decreases |s|
  {
    if s == [] {
    } else if IsSpace(s[0]) {
      WordCharsFrom(s[1..]);
    } else {
      var j := WordEnd(s, 0);
      WordCharsFrom(s[j..]);
      assert Words(s) == [s[..j]] + Words(s[j..]);
    }
  }

  /** `[''.join(reversed(x)) for x in words]`: the cipher messages, each word stored reversed. */
  function ReversedWords(words: seq<string>): (ms: seq<string>)
    requires forall w <- words :: w != [] && forall c <- w :: !IsSpace(c)
    ensures |ms| == |words| && forall i :: 0 <= i < |words| ==> Reverse(ms[i]) == words[i]
    ensures forall m <- ms :: m != [] && forall c <- m :: !IsSpace(c)
  {
    var ms := seq(|words|, i requires 0 <= i < |words| => Reverse(words[i]));
    forall i | 0 <= i < |words|
      ensures Reverse(ms[i]) == words[i] && forall c <- ms[i] :: !IsSpace(c)
    {
      assert words[i] in words;
      ReverseReverse(words[i]);
      ReverseElements(words[i]);
    }
    assert forall m <- ms :: m != [] by {
      forall m <- ms ensures m != [] {
        var i :| 0 <= i < |ms| && ms[i] == m;
        assert words[i] in words;
      }
    }
    ms
  }

  /* --- str.replace(x, '') and str.count(x) for one character x --- */

  /** `s.replace(x, '')` for a one-character `x`. */
  function Remove(s: string, x: char): string {
    if s == [] then [] else (if s[0] == x then [] else [s[0]]) + Remove(s[1..], x)
  }

  /** `replace` leaves no occurrence behind and never lengthens the string. */
  lemma {:induction false} RemoveDrops(s: string, x: char)
    ensures x !in Remove(s, x) && |Remove(s, x)| <= |s|
    decreases |s|
  {
    if s != [] {
      RemoveDrops(s[1..], x);
    }
  }

  /** `s.count(x)` for a one-character `x`. */
  function Count(s: string, x: char): (n: nat)
    ensures n <= |s|
  {
    if s == [] then 0 else (if s[0] == x then 1 else 0) + Count(s[1..], x)
  }

  lemma {:induction false} RemoveConcat(a: string, b: string, x: char)
    ensures Remove(a + b, x) == Remove(a, x) + Remove(b, x)
    decreases |a|
  {
    if a == [] {
      assert a + b == b;
    } else {
      var head := if a[0] == x then [] else [a[0]];
      assert (a + b)[0] == a[0] && (a + b)[1..] == a[1..] + b;
      RemoveConcat(a[1..], b, x);
      assert Remove(a + b, x) == head + Remove(a[1..] + b, x);
      assert Remove(a, x) == head + Remove(a[1..], x);
    }
  }

  lemma {:induction false} CountConcat(a: string, b: string, x: char)
    ensures Count(a + b, x) == Count(a, x) + Count(b, x)
    decreases |a|
  {
    if a == [] {
      assert a + b == b;
    } else {
      assert (a + b)[1..] == a[1..] + b;
      CountConcat(a[1..], b, x);
    }
  }

  /** Removing a character commutes with reversal. */
  lemma {:induction false} RemoveReverse(s: string, x: char)
    ensures Remove(Reverse(s), x) == Reverse(Remove(s, x))
    decreases |s|
  {
    if s != [] {
      RemoveReverse(s[1..], x);
      assert Reverse(s) == Reverse(s[1..]) + [s[0]];
      RemoveConcat(Reverse(s[1..]), [s[0]], x);
      assert Remove([s[0]], x) == (if s[0] == x then [] else [s[0]]);
      ReverseConcat(if s[0] == x then [] else [s[0]], Remove(s[1..], x));
      assert Reverse(if s[0] == x then [] else [s[0]]) == (if s[0] == x then [] else [s[0]]);
    }
  }

  /** Counting commutes with reversal. */
  lemma {:induction false} CountReverse(s: string, x: char)
    ensures Count(Reverse(s), x) == Count(s, x)
    decreases |s|
  {
    if s != [] {
      CountReverse(s[1..], x);
      assert Reverse(s) == Reverse(s[1..]) + [s[0]];
      CountConcat(Reverse(s[1..]), [s[0]], x);
    }
  }

  lemma {:induction false} RemoveAbsent(s: string, x: char)
    requires x !in s
    ensures Remove(s, x) == s
    decreases |s|
  {
    if s != [] {
      RemoveAbsent(s[1..], x);
    }
  }
}
