/**
  Python's `random` module as an explicit input. A run of the program draws
  a sequence of numbers from its generator; the model receives that sequence
  as a finite tape and consumes it from the front, one number per call to
  `randint` or `choice`, in the order the Python code evaluates the calls.
*/
module Random {
  import opened Wrappers

  /** The raw draws still to come, oldest first. */
  type Tape = seq<nat>

  /** A drawn value together with the tape that remains after drawing it. */
  datatype Drawn<+T> = Drawn(value: T, rest: Tape)

  /** `random.randint(lo, hi)`: raises ValueError on an empty range before drawing. */
  function RandInt(t: Tape, lo: int, hi: int): (r: Result<Drawn<int>>)
    ensures hi < lo ==> r == Err(ValueError)
    ensures lo <= hi ==> (r.Ok? <==> t != [])
    ensures lo <= hi && t == [] ==> r == Err(Exhausted)
    ensures r.Ok? ==> lo <= r.value.value <= hi && r.value.rest == t[1..]
  {
    if hi < lo then Err(ValueError)
    else if t == [] then Err(Exhausted)
    else Ok(Drawn(lo + t[0] % (hi - lo + 1), t[1..]))
  }

  /** The tape does not restrict what `randint` can return: every value of the range is reachable. */
  lemma RandIntReaches(lo: int, hi: int, v: int, rest: Tape)
    requires lo <= v <= hi
    ensures RandInt([v - lo] + rest, lo, hi) == Ok(Drawn(v, rest))
  {
    var t := [v - lo] + rest;
    assert t[0] % (hi - lo + 1) == v - lo;
    assert t[1..] == rest;
  }

  /** `random.choice(s)`: raises IndexError on an empty list before drawing. */
  function Choice<T>(t: Tape, s: seq<T>): (r: Result<Drawn<T>>)
    ensures s == [] ==> r == Err(IndexError)
    ensures s != [] ==> (r.Ok? <==> t != [])
    ensures s != [] && t == [] ==> r == Err(Exhausted)
    ensures r.Ok? ==> r.value.value in s && r.value.rest == t[1..]
  {
    if s == [] then Err(IndexError)
    else
      var i :- RandInt(t, 0, |s| - 1);
      Ok(Drawn(s[i.value], i.rest))
  }

  /** `[random.choice(s) for i in range(n)]`: n draws, one per element, in order. */
  function Choices<T>(t: Tape, s: seq<T>, n: nat): (r: Result<Drawn<seq<T>>>)
    ensures r.Ok? ==> |r.value.value| == n && n <= |t| && r.value.rest == t[n..]
    ensures r.Ok? ==> forall x <- r.value.value :: x in s
    ensures s != [] ==> (r.Ok? <==> n <= |t|)
    ensures r.Err? ==> r.error == (if s == [] then IndexError else Exhausted)
    decreases n
  {
    if n == 0 then Ok(Drawn([], t))
    else
      var x :- Choice(t, s);
      var xs :- Choices(x.rest, s, n - 1);
      assert t[1..][n - 1..] == t[n..];
      Ok(Drawn([x.value] + xs.value, xs.rest))
  }
}
