/** Hand-written matchers for the fixed regular expressions the evaluation
    parsers use, reproducing what Python's `re.search` returns:

      Score:\s*(\d+)/10
      <heading>\s*(.+?)(?=<stop>|$)        with re.DOTALL

    `re.search` tries each start position from the left and reports the
    first one at which the pattern matches; `MatchAt` is the pattern tried
    at a single position and `Search` is the scan. */
module Patterns {
  import opened Common
  import opened Text

  /** `$` without MULTILINE: at the end of the text, or just before a
      newline that ends the text. */
  predicate AtEnd(s: string, e: nat)
  {
    e == |s| || (e + 1 == |s| && s[e] == '\n')
  }

  /** The first alternative of a section's look-ahead. */
  datatype Stop =
    | Before(marker: string)   // (?=<marker>|$), the marker a literal such as "\nImprovement Tips:"
    | BeforeWordLabel          // (?=\n\w+:|$)

  /** `\n\w+:` matches at `e`. A greedy `\w+` can only be followed by the
      colon if the whole run of word characters is, since `:` is not one. */
  predicate WordLabelAt(s: string, e: nat)
    requires e <= |s|
  {
    e < |s| && s[e] == '\n' &&
    var k := RunEnd(s, e + 1, Word);
    e + 1 < k < |s| && s[k] == ':'
  }

  /** The look-ahead `(?=<stop>|$)` holds at `e`. */
  predicate StopsAt(s: string, e: nat, stop: Stop)
    requires e <= |s|
  {
    || AtEnd(s, e)
    || (match stop
        case Before(m) => OccursAt(s, e, m)
        case BeforeWordLabel => WordLabelAt(s, e))
  }

  /** Where a lazy `.+?` that may end no earlier than `from` stops: the
      first position at which the look-ahead holds. The end of the text
      always qualifies. */
  function FirstStop(s: string, from: nat, stop: Stop): (e: nat)
    requires from <= |s|
    ensures from <= e <= |s| && StopsAt(s, e, stop)
    ensures forall q :: from <= q < e ==> !StopsAt(s, q, stop)
    decreases |s| - from
  {
    if StopsAt(s, from, stop) then from else FirstStop(s, from + 1, stop)
  }

  datatype Pattern =
    | ScoreOutOfTen                        // Score:\s*(\d+)/10
    | Section(heading: string, stop: Stop)   // <heading>\s*(.+?)(?=<stop>|$), DOTALL

  /** Group 1 when the pattern, tried at position `p` alone, matches.

      For the score, backtracking cannot help: giving back white space
      leaves a space where a digit is needed, and giving back digits leaves
      a digit where `/` is needed. For a section, the greedy `\s*` is kept
      whenever a character follows it, since `.+?` can then always stop at
      the end of the text; when the heading is followed by white space alone,
      `\s*` gives back one character for `.+?` to take; when nothing at all
      follows the heading, there is no match here. */
  function MatchAt(s: string, p: nat, pat: Pattern): (g: Option<string>)
    requires p <= |s|
    ensures pat.ScoreOutOfTen? && g.Some? ==> g.value != [] && AllDigits(g.value)
  {
    match pat
    case ScoreOutOfTen =>
      if !OccursAt(s, p, "Score:") then None
      else
        var j := RunEnd(s, p + 6, Space);
        var k := RunEnd(s, j, Digit);
        if j < k && OccursAt(s, k, "/10") then Some(s[j..k]) else None
    case Section(heading, stop) =>
      if !OccursAt(s, p, heading) then None
      else
        var start := p + |heading|;
        var j := RunEnd(s, start, Space);
        if j < |s| then Some(s[j..FirstStop(s, j + 1, stop)])
        else if start < j then Some(s[j - 1..])
        else None
  }

  /** A successful search: where the match starts, and group 1. */
  datatype Match = Match(pos: nat, group: string)

  /** `re.search` restricted to start positions from `from` on: the match
      at the leftmost position where there is one. */
  function SearchFrom(s: string, from: nat, pat: Pattern): (r: Option<Match>)
    requires from <= |s|
    ensures r.Some? ==> from <= r.value.pos <= |s| && MatchAt(s, r.value.pos, pat) == Some(r.value.group)
    ensures r.Some? ==> forall q :: from <= q < r.value.pos ==> MatchAt(s, q, pat).None?
    ensures r.None? ==> forall q :: from <= q <= |s| ==> MatchAt(s, q, pat).None?
    decreases |s| - from
  {
    match MatchAt(s, from, pat)
    case Some(g) => Some(Match(from, g))
    case None => if from == |s| then None else SearchFrom(s, from + 1, pat)
  }

  /** `re.search(pat, s)`. */
  function Search(s: string, pat: Pattern): Option<Match>
  {
    SearchFrom(s, 0, pat)
  }

  /** The heading a pattern starts with. */
  function Label(pat: Pattern): string
  {
    match pat
    case ScoreOutOfTen => "Score:"
    case Section(heading, _) => heading
  }

  /** A pattern whose heading does not occur in the text finds nothing. */
  lemma AbsentLabelNoMatch(s: string, pat: Pattern)
    requires !Contains(s, Label(pat))
    ensures Search(s, pat) == None
  {
    forall q | 0 <= q <= |s|
      ensures MatchAt(s, q, pat).None?
    {
      assert !OccursAt(s, q, Label(pat));
    }
  }

  /** The search result is pinned down by one match and the absence of
      matches to its left. */
  lemma LeftmostMatch(s: string, p: nat, pat: Pattern, g: string)
    requires p <= |s| && MatchAt(s, p, pat) == Some(g)
    requires forall q :: 0 <= q < p ==> MatchAt(s, q, pat).None?
    ensures Search(s, pat) == Some(Match(p, g))
  {
  }

  /** A section whose heading first occurs at `p` is found there, unless
      nothing follows the heading; the other alternatives of `MatchAt` can
      only fail at an occurrence of the heading. */
  lemma SectionAtFirstLabel(s: string, p: nat, heading: string, stop: Stop)
    requires OccursAt(s, p, heading) && p + |heading| < |s|
    requires forall q :: 0 <= q < p ==> !OccursAt(s, q, heading)
    ensures Search(s, Section(heading, stop)).Some?
    ensures Search(s, Section(heading, stop)).value.pos == p
  {
    var pat := Section(heading, stop);
    assert MatchAt(s, p, pat).Some?;
    forall q | 0 <= q < p
      ensures MatchAt(s, q, pat).None?
    {
      assert !OccursAt(s, q, heading);
    }
    LeftmostMatch(s, p, pat, MatchAt(s, p, pat).value);
  }

  /** The first stop is pinned down by a stop with none before it. */
  lemma FirstStopIs(s: string, from: nat, stop: Stop, e: nat)
    requires from <= e <= |s| && StopsAt(s, e, stop)
    requires forall q :: from <= q < e ==> !StopsAt(s, q, stop)
    ensures FirstStop(s, from, stop) == e
  {
  }

  /** A look-ahead that can only hold at a newline, and never at a newline
      followed by a dash: true of `\n\w+:` and of markers such as
      "\nKnowledge Gaps:". */
  predicate NewlineStop(stop: Stop)
  {
    match stop
    case BeforeWordLabel => true
    case Before(m) => |m| >= 2 && m[0] == '\n' && m[1] != '-'
  }

  lemma StopNeedsNewline(s: string, q: nat, stop: Stop)
    requires NewlineStop(stop) && q < |s|
    requires s[q] != '\n' || (q + 1 < |s| && s[q + 1] == '-')
    ensures !StopsAt(s, q, stop)
  {
    match stop
    case Before(m) =>
      if q + |m| <= |s| {
        assert s[q..q + |m|][0] == s[q];
        assert s[q..q + |m|][1] == s[q + 1];
      }
    case BeforeWordLabel =>
      if s[q] == '\n' {
        RunEndIs(s, q + 1, Word, q + 1);
      }
  }

  /** A section whose heading at `p` is followed by one white-space
      character and then text captures that text up to the first stop. */
  lemma SectionMatch(s: string, p: nat, heading: string, stop: Stop, e: nat)
    requires OccursAt(s, p, heading)
    requires p + |heading| + 1 < e <= |s|
    requires IsSpace(s[p + |heading|]) && !IsSpace(s[p + |heading| + 1])
    requires StopsAt(s, e, stop)
    requires forall q :: p + |heading| + 1 < q < e ==> !StopsAt(s, q, stop)
    ensures MatchAt(s, p, Section(heading, stop)) == Some(s[p + |heading| + 1..e])
  {
    var j := p + |heading| + 1;
    RunEndIs(s, p + |heading|, Space, j);
    FirstStopIs(s, j + 1, stop, e);
  }

  /** A match at `p` with no occurrence of the heading before it is what
      the search returns. */
  lemma SearchFinds(s: string, p: nat, pat: Pattern, g: string)
    requires p <= |s| && MatchAt(s, p, pat) == Some(g)
    requires forall q :: 0 <= q < p ==> !OccursAt(s, q, Label(pat))
    ensures Search(s, pat) == Some(Match(p, g))
  {
    forall q | 0 <= q < p
      ensures MatchAt(s, q, pat).None?
    {
      assert !OccursAt(s, q, Label(pat));
    }
    LeftmostMatch(s, p, pat, g);
  }

  /** "Score: N/10" at `p` gives the digits of N. */
  lemma ScoreMatch(s: string, p: nat, d: string)
    requires d != [] && AllDigits(d)
    requires OccursAt(s, p, "Score: " + d + "/10")
    ensures MatchAt(s, p, ScoreOutOfTen) == Some(d)
  {
    var x := "Score: " + d + "/10";
    assert forall i :: 0 <= i < |x| ==> s[p + i] == x[i];
    assert s[p..p + 6] == x[..6];
    var k := p + 7 + |d|;
    assert forall m :: p + 7 <= m < k ==> s[m] == d[m - p - 7];
    RunEndIs(s, p + 6, Space, p + 7);
    RunEndIs(s, p + 7, Digit, k);
    assert s[k..k + 3] == x[7 + |d|..];
    assert s[p + 7..k] == d;
  }

  /** After `j`, a look-ahead for "\n" followed by a text `t` that does
      not occur after `j` holds nowhere before the end, when the text does
      not end with a newline. */
  lemma NoMarkerInTail(s: string, j: nat, t: string)
    requires j < |s| && s[|s| - 1] != '\n'
    requires !Contains(s[j..], t)
    ensures forall q :: j <= q < |s| ==> !StopsAt(s, q, Before("\n" + t))
  {
    var m := "\n" + t;
    var w := s[j..];
    forall q | j <= q < |s|
      ensures !StopsAt(s, q, Before(m))
    {
      if q + |m| <= |s| {
        var u, v := s[q + 1..q + |m|], w[q + 1 - j..q + |m| - j];
        assert forall i :: 0 <= i < |t| ==> u[i] == v[i];
        assert u == v;
        assert !OccursAt(w, q + 1 - j, t);
        assert s[q..q + |m|][1..] == u;
      }
    }
  }
}
