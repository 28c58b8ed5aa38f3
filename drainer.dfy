/**
  `ChannelMessageDrainer` of ncurses/theone.py and nocolor/theone.py: reads
  a column's visible characters one at a time and tells whether the last
  one read lies inside an occurrence of a (reversed) cipher word.
*/
module Drainers {
  import opened Wrappers
  import opened Scrolling

  /** `m[i:].startswith(c)`. */
  predicate StartsAt(m: string, i: nat, c: string)
    requires i <= |m|
  {
    c <= m[i..]
  }

  /**
    The `for` loop of `__next__` at position `i`: every cipher that starts
    there sets `till` to `i + len(cipher)`, in list order, so the last match
    wins (even when it is shorter than an earlier one).
  */
  function ScanCiphers(m: string, i: nat, cs: seq<string>, till: int): int
    requires i <= |m|
    decreases |cs|
  {
    if cs == [] then till
    else ScanCiphers(m, i, cs[1..], if StartsAt(m, i, cs[0]) then i + |cs[0]| else till)
  }

  /** The scan keeps `till` when nothing matches, and otherwise ends at the end of some match. */
  lemma {:induction false} ScanShape(m: string, i: nat, cs: seq<string>, till: int)
    requires i <= |m|
    ensures (forall c <- cs :: !StartsAt(m, i, c)) ==> ScanCiphers(m, i, cs, till) == till
    ensures (exists c <- cs :: StartsAt(m, i, c)) ==>
              exists j :: 0 <= j < |cs| && StartsAt(m, i, cs[j]) && ScanCiphers(m, i, cs, till) == i + |cs[j]|
    decreases |cs|
  {
    if cs != [] {
      var next := if StartsAt(m, i, cs[0]) then i + |cs[0]| else till;
      ScanShape(m, i, cs[1..], next);
      if exists c <- cs[1..] :: StartsAt(m, i, c) {
        var j :| 0 <= j < |cs[1..]| && StartsAt(m, i, cs[1..][j]) && ScanCiphers(m, i, cs[1..], next) == i + |cs[1..][j]|;
        assert cs[1..][j] == cs[j + 1];
      } else if StartsAt(m, i, cs[0]) {
        assert ScanCiphers(m, i, cs, till) == i + |cs[0]|;
      } else {
        assert forall c <- cs :: c == cs[0] || c in cs[1..];
      }
    }
  }

  /** The last cipher in the list that matches decides `till`. */
  lemma {:induction false} ScanLastMatchWins(m: string, i: nat, cs: seq<string>, till: int, j: nat)
    requires i <= |m| && j < |cs| && StartsAt(m, i, cs[j])
    requires forall k :: j < k < |cs| ==> !StartsAt(m, i, cs[k])
    ensures ScanCiphers(m, i, cs, till) == i + |cs[j]|
    decreases |cs|
  {
    var next := if StartsAt(m, i, cs[0]) then i + |cs[0]| else till;
    if j == 0 {
      ScanShape(m, i, cs[1..], next);
      assert forall c <- cs[1..] :: !StartsAt(m, i, c) by {
        forall c <- cs[1..] ensures !StartsAt(m, i, c) {
          var k :| 0 <= k < |cs[1..]| && cs[1..][k] == c;
          assert cs[k + 1] == c;
        }
      }
    } else {
      assert forall k :: j - 1 < k < |cs[1..]| ==> cs[1..][k] == cs[k + 1];
      ScanLastMatchWins(m, i, cs[1..], next, j - 1);
    }
  }

  /** `_superencodedtill` after `k` calls of `__next__` since `__iter__`. */
  function TillAfter(m: string, cs: seq<string>, k: nat): int
    requires k <= |m|
  {
    if k == 0 then -1 else ScanCiphers(m, k - 1, cs, TillAfter(m, cs, k - 1))
  }

  /**
    The character at position `q` is reported as part of a cipher: the check
    runs after `_idx` has moved past it.
  */
  predicate Flagged(m: string, cs: seq<string>, q: nat)
    requires q < |m|
  {
    q + 1 <= TillAfter(m, cs, q + 1)
  }

  /** `till` is -1 or the end of an occurrence that starts before position `k`. */
  lemma {:induction false} TillIsAnOccurrenceEnd(m: string, cs: seq<string>, k: nat)
    requires k <= |m|
    ensures TillAfter(m, cs, k) == -1 ||
            exists p, j :: 0 <= p < k && 0 <= j < |cs| && StartsAt(m, p, cs[j]) && TillAfter(m, cs, k) == p + |cs[j]|
  {
    if k > 0 {
      TillIsAnOccurrenceEnd(m, cs, k - 1);
      ScanShape(m, k - 1, cs, TillAfter(m, cs, k - 1));
      if exists c <- cs :: StartsAt(m, k - 1, c) {
        var j :| 0 <= j < |cs| && StartsAt(m, k - 1, cs[j]) && TillAfter(m, cs, k) == k - 1 + |cs[j]|;
      }
    }
  }

  /** Soundness: a flagged character lies inside an occurrence of a cipher word. */
  lemma FlagSound(m: string, cs: seq<string>, q: nat)
    requires q < |m| && Flagged(m, cs, q)
    ensures exists p, j :: 0 <= p <= q && 0 <= j < |cs| && StartsAt(m, p, cs[j]) && q < p + |cs[j]|
  {
    TillIsAnOccurrenceEnd(m, cs, q + 1);
  }

  /** Inside an occurrence with no other match, `till` stays at its end. */
  lemma {:induction false} TillHolds(m: string, cs: seq<string>, p: nat, len: nat, k: nat)
    requires p + len <= |m| && p + 1 <= k <= p + len
    requires TillAfter(m, cs, p + 1) == p + len
    requires forall q, c :: p < q < p + len && c in cs ==> !StartsAt(m, q, c)
    ensures TillAfter(m, cs, k) == p + len
    decreases k
  {
    if k > p + 1 {
      TillHolds(m, cs, p, len, k - 1);
      ScanShape(m, k - 1, cs, TillAfter(m, cs, k - 1));
    }
  }

  /**
    Exactness for an isolated occurrence: when every cipher starting at `p`
    has length `len >= 1` and none starts strictly inside, exactly positions
    p..p+len-1 are flagged there, and the position right after is flagged
    iff some (non-empty) cipher starts at it.
  */
  lemma FlagRun(m: string, cs: seq<string>, p: nat, len: nat)
    requires p + len <= |m| && len >= 1
    requires exists c <- cs :: StartsAt(m, p, c)
    requires forall c <- cs :: StartsAt(m, p, c) ==> |c| == len
    requires forall q, c :: p < q < p + len && c in cs ==> !StartsAt(m, q, c)
    ensures forall q :: p <= q < p + len ==> Flagged(m, cs, q)
    ensures p + len < |m| && (forall c <- cs :: c != []) ==>
              (Flagged(m, cs, p + len) <==> exists c <- cs :: StartsAt(m, p + len, c))
  {
    ScanShape(m, p, cs, TillAfter(m, cs, p));
    var j :| 0 <= j < |cs| && StartsAt(m, p, cs[j]) && TillAfter(m, cs, p + 1) == p + |cs[j]|;
    assert cs[j] in cs;
    forall q | p <= q < p + len ensures Flagged(m, cs, q) {
      TillHolds(m, cs, p, len, q + 1);
    }
    if p + len < |m| && (forall c <- cs :: c != []) {
      TillHolds(m, cs, p, len, p + len);
      ScanShape(m, p + len, cs, p + len);
      if exists c <- cs :: StartsAt(m, p + len, c) {
        var i :| 0 <= i < |cs| && StartsAt(m, p + len, cs[i]) && TillAfter(m, cs, p + len + 1) == p + len + |cs[i]|;
        assert cs[i] in cs;
      }
    }
  }

  /** The iterator over one column. */
  class ChannelMessageDrainer {
    const channel: MessageChannel
    var message: string     // _message: the column's text when `__iter__` ran
    var idx: nat            // _idx
    var till: int           // _superencodedtill

    ghost predicate Valid()
      reads this
    {
      idx <= |message| && till == TillAfter(message, channel.generator.cipherMessages, idx)
    }

    /** `ChannelMessageDrainer(channel)`. */
    constructor (ch: MessageChannel)
      ensures channel == ch && message == [] && idx == 0 && till == -1 && Valid()
    {
      channel := ch;
      message := [];
      idx := 0;
      till := -1;
    }

    /** `__iter__`: snapshot the column's visible text and start from its first character. */
    method Iter()
      requires channel.Valid()
      modifies this
      ensures message == channel.Visible() && idx == 0 && till == -1 && Valid()
    {
      message := channel.Visible();
      idx := 0;
      till := -1;
    }

    /** The `for` loop of `__next__`. */
    method Scan() returns (r: int)
      requires idx <= |message|
      ensures r == ScanCiphers(message, idx, channel.generator.cipherMessages, till)
    {
      var cs := channel.generator.cipherMessages;
      r := till;
      for j := 0 to |cs|
        invariant ScanCiphers(message, idx, cs[j..], r) == ScanCiphers(message, idx, cs, till)
      {
        assert cs[j..][1..] == cs[j + 1..];
        if cs[j] <= message[idx..] {
          r := idx + |cs[j]|;
        }
      }
    }

    /**
      `__next__`: the next character, IndexError past the end. Only the
      drainer changes; the column is never touched.
    */
    method Next() returns (r: Result<char>)
      requires Valid()
      modifies this
      ensures message == old(message)
      ensures till == ScanCiphers(message, old(idx), channel.generator.cipherMessages, old(till))
      ensures old(idx) < |message| ==> r == Ok(message[old(idx)]) && idx == old(idx) + 1 && Valid()
      ensures old(idx) == |message| ==> r == Err(IndexError) && idx == old(idx)
    {
      till := Scan();
      if idx == |message| {
        return Err(IndexError);
      }
      r := Ok(message[idx]);
      idx := idx + 1;
    }

    /** `is_part_of_cipher_message()`: whether the character last returned is flagged. */
    predicate IsPartOfCipherMessage()
      requires Valid()
      reads this
      ensures IsPartOfCipherMessage() <==> 0 < idx && Flagged(message, channel.generator.cipherMessages, idx - 1)
    {
      idx <= till
    }
  }
}
