/**
  The `ALPHABETS` tables: every code point of a list of inclusive
  `include_ranges`, range by range, in ascending order within a range.
*/
module Alphabets {
  import opened Text

  /** An inclusive range of code points `(first, last)`. */
  type CodeRange = (int, int)

  /** Ranges whose code points are all valid `char`s (below the surrogates). */
  predicate Encodable(ranges: seq<CodeRange>) {
    forall r <- ranges :: 0 <= r.0 && r.1 < 0xD800
  }

  /** The table of ncurses/theone.py and nocolor/theone.py, which also holds most printable ASCII and the runes block. */
  const CursesRanges: seq<CodeRange> := [
    (0x0023, 0x0026), (0x0028, 0x007E), (0x00A1, 0x00AC), (0x00AE, 0x00FF),
    (0x0100, 0x017F), (0x0180, 0x024F), (0x2C60, 0x2C7F), (0x16A0, 0x16F0),
    (0x0370, 0x0377), (0x037A, 0x037E), (0x0384, 0x038A), (0x038C, 0x038C)
  ]

  /** The table of theone_ncurses.py and theone.py. */
  const LatinGreekRanges: seq<CodeRange> := [
    (0x00A1, 0x00AC), (0x00AE, 0x00FF), (0x0100, 0x017F), (0x0180, 0x024F),
    (0x2C60, 0x2C7F), (0x0370, 0x0377), (0x037A, 0x037E), (0x0384, 0x038A),
    (0x038C, 0x038C)
  ]

  /** `[chr(p) for p in range(first, last + 1)]` */
  function RangeChars(first: int, last: int): (s: seq<char>)
    requires 0 <= first && last < 0xD800
    ensures forall c <- s :: first <= c as int <= last
    ensures first <= last ==> |s| == last - first + 1 && s[0] as int == first
  {
    if last < first then []
    else seq(last - first + 1, k requires 0 <= k < last - first + 1 => (first + k) as char)
  }

  /** `[chr(p) for r in ranges for p in range(r[0], r[1] + 1)]` */
  function Table(ranges: seq<CodeRange>): (s: seq<char>)
    requires Encodable(ranges)
    ensures forall c <- s :: exists r <- ranges :: r.0 <= c as int <= r.1
    ensures ranges != [] && ranges[0].0 <= ranges[0].1 ==> s != []
  {
    if ranges == [] then []
    else RangeChars(ranges[0].0, ranges[0].1) + Table(ranges[1..])
  }

  const CursesAlphabet: seq<char> := Table(CursesRanges)

  const LatinGreekAlphabet: seq<char> := Table(LatinGreekRanges)

  /** A table that can serve as the alphabet of the rain: non-empty, without '!' and without whitespace. */
  predicate RainAlphabet(alphabet: seq<char>) {
    alphabet != [] && '!' !in alphabet && forall c <- alphabet :: !IsSpace(c)
  }

  /** The range lies wholly below `lo` or wholly above `hi`. */
  predicate Avoids(r: CodeRange, lo: int, hi: int) {
    r.1 < lo || hi < r.0
  }

  /** Neither 0x21 nor any whitespace code point lies in the range. */
  predicate CleanRange(r: CodeRange) {
    && Avoids(r, 0x21, 0x21) && Avoids(r, 0x20, 0x20) && Avoids(r, 0x09, 0x0D) && Avoids(r, 0x1C, 0x1F)
    && Avoids(r, 0x85, 0x85) && Avoids(r, 0xA0, 0xA0) && Avoids(r, 0x1680, 0x1680) && Avoids(r, 0x2000, 0x200A)
    && Avoids(r, 0x2028, 0x2029) && Avoids(r, 0x202F, 0x202F) && Avoids(r, 0x205F, 0x205F) && Avoids(r, 0x3000, 0x3000)
  }

  predicate Clean(ranges: seq<CodeRange>) {
    forall r <- ranges :: CleanRange(r)
  }

  /** The code points of `IsSpace`, as integers. */
  predicate SpaceCode(p: int) {
    || p == 0x20 || (0x09 <= p <= 0x0D) || (0x1C <= p <= 0x1F)
    || p == 0x85 || p == 0xA0 || p == 0x1680 || (0x2000 <= p <= 0x200A)
    || p == 0x2028 || p == 0x2029 || p == 0x202F || p == 0x205F || p == 0x3000
  }

  lemma SpaceCodeOf(c: char)
    ensures IsSpace(c) <==> SpaceCode(c as int)
  {
  }

  lemma CleanTable(ranges: seq<CodeRange>)
    requires Encodable(ranges) && Clean(ranges)
    ensures '!' !in Table(ranges) && forall c <- Table(ranges) :: !IsSpace(c)
  {
    forall c <- Table(ranges) ensures c != '!' && !IsSpace(c) {
      SpaceCodeOf(c);
      var r :| r in ranges && r.0 <= c as int <= r.1;
      assert CleanRange(r);
    }
  }

  lemma CursesRangesEncodable()
    ensures Encodable(CursesRanges)
  {
  }

  lemma CursesRangesClean()
    ensures Clean(CursesRanges)
  {
  }

  lemma LatinGreekRangesEncodable()
    ensures Encodable(LatinGreekRanges)
  {
  }

  lemma LatinGreekRangesClean()
    ensures Clean(LatinGreekRanges)
  {
  }

  /** ncurses/theone.py and nocolor/theone.py rely on '!' never being drawn: their table skips 0x21 (and 0x22, 0x27, 0x20). */
  lemma CursesAlphabetIsRain()
    ensures RainAlphabet(CursesAlphabet)
  {
    CursesRangesEncodable();
    CursesRangesClean();
    CleanTable(CursesRanges);
  }

  lemma LatinGreekAlphabetIsRain()
    ensures RainAlphabet(LatinGreekAlphabet)
  {
    LatinGreekRangesEncodable();
    LatinGreekRangesClean();
    CleanTable(LatinGreekRanges);
  }
}
