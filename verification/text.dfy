/** The handful of Python string operations the application leans on,
    restricted to ASCII character classes: `str.strip`, `str.split`,
    `str.replace(t, "")`, `str.lower`, `in` on strings, `str.isdigit`,
    `str.isalpha`, and `int()` on a run of decimal digits. */
module Text {
  import opened Common

  /** The code points below 128 that Python's `str.isspace()` accepts. The
      same set is what `str.strip()`, `str.split()` and the regular
      expression class `\s` treat as white space. */
  const Whitespace: set<char> :=
    {' ', '\t', '\n', '\r', '\U{B}', '\U{C}', '\U{1C}', '\U{1D}', '\U{1E}', '\U{1F}'}

  predicate IsSpace(c: char) { c in Whitespace }
  predicate IsDigit(c: char) { '0' <= c <= '9' }
  predicate IsAlpha(c: char) { 'a' <= c <= 'z' || 'A' <= c <= 'Z' }
  /** The regular expression class `\w`. */
  predicate IsWordChar(c: char) { IsAlpha(c) || IsDigit(c) || c == '_' }

  /** A character class a greedy run can range over. */
  datatype Class = Space | Digit | Word | Ink

  predicate InClass(c: char, k: Class)
  {
    match k
    case Space => IsSpace(c)
    case Digit => IsDigit(c)
    case Word => IsWordChar(c)
    case Ink => !IsSpace(c)
  }

  /** Where a greedy run of `k` characters that starts at `i` ends:
      the regular expression `\s*`, `\d*` or `\w*` tried at `i`. */
  function RunEnd(s: string, i: nat, k: Class): (e: nat)
    requires i <= |s|
    ensures i <= e <= |s|
    ensures forall m :: i <= m < e ==> InClass(s[m], k)
    ensures e == |s| || !InClass(s[e], k)
    decreases |s| - i
  {
    if i == |s| || !InClass(s[i], k) then i else RunEnd(s, i + 1, k)
  }

  /** The end of a run is pinned down by the run and the character after it. */
  lemma RunEndIs(s: string, i: nat, k: Class, e: nat)
    requires i <= e <= |s|
    requires forall m :: i <= m < e ==> InClass(s[m], k)
    requires e == |s| || !InClass(s[e], k)
    ensures RunEnd(s, i, k) == e
  {
    var r := RunEnd(s, i, k);
  }

  // ---------------------------------------------------------------------
  // Stripping

  /** `s.lstrip(cs)`. */
  function TrimStart(s: string, cs: set<char>): (r: string)
    ensures |r| <= |s| && r == s[|s| - |r|..]
    ensures forall i :: 0 <= i < |s| - |r| ==> s[i] in cs
    ensures r != [] ==> r[0] !in cs
  {
    if s != [] && s[0] in cs then
      var r := TrimStart(s[1..], cs);
      SuffixOfTail(s, |r|);
      r
    else s
  }

  /** `s.rstrip(cs)`. */
  function TrimEnd(s: string, cs: set<char>): (r: string)
    ensures |r| <= |s| && r == s[..|r|]
    ensures forall i :: |r| <= i < |s| ==> s[i] in cs
    ensures r != [] ==> r[|r| - 1] !in cs
  {
    if s != [] && s[|s| - 1] in cs then
      var r := TrimEnd(s[..|s| - 1], cs);
      PrefixOfInit(s, |r|);
      r
    else s
  }

  lemma SuffixOfTail<T>(s: seq<T>, n: nat)
    requires n < |s|
    ensures s[1..][|s| - 1 - n..] == s[|s| - n..]
  {
  }

  lemma PrefixOfInit<T>(s: seq<T>, n: nat)
    requires n < |s|
    ensures s[..|s| - 1][..n] == s[..n]
  {
  }

  /** `s.strip(cs)`: the longest infix whose two ends lie outside `cs`. */
  function StripSet(s: string, cs: set<char>): string
  {
    TrimEnd(TrimStart(s, cs), cs)
  }

  /** `s.strip()`. */
  function Strip(s: string): string
  {
    StripSet(s, Whitespace)
  }

  /** A string whose ends are not in `cs` is left alone by `strip(cs)`. */
  lemma StripSetKeepsClean(s: string, cs: set<char>)
    requires s == [] || (s[0] !in cs && s[|s| - 1] !in cs)
    ensures StripSet(s, cs) == s
  {
  }

  /** `strip` removes exactly the characters of `cs` at either end: what
      is left is the infix of `s` at offset `a`, it starts and ends outside
      `cs`, and every dropped character lies in `cs`. */
  lemma StripSetShape(s: string, cs: set<char>)
    ensures var a := |s| - |TrimStart(s, cs)|; var r := StripSet(s, cs);
            && a + |r| <= |s| && r == s[a..a + |r|]
            && (forall i :: 0 <= i < a ==> s[i] in cs)
            && (forall i :: a + |r| <= i < |s| ==> s[i] in cs)
            && (r != [] ==> r[0] !in cs && r[|r| - 1] !in cs)
  {
    var t := TrimStart(s, cs);
    var a := |s| - |t|;
    StripSetInfix(s, cs);
    StripSetTail(s, cs);
    assert TrimEnd(t, cs) == StripSet(s, cs);
  }

  /** What `strip(cs)` keeps is the infix at the offset `lstrip` reaches. */
  lemma StripSetInfix(s: string, cs: set<char>)
    ensures var a := |s| - |TrimStart(s, cs)|; var r := StripSet(s, cs);
            a + |r| <= |s| && r == s[a..a + |r|]
  {
    var t := TrimStart(s, cs);
    var r := TrimEnd(t, cs);
    var a := |s| - |t|;
    assert t == s[a..];
    assert r == t[..|r|];
    SliceOfSuffix(s, a, |r|);
  }

  lemma SliceOfSuffix<T>(s: seq<T>, a: nat, n: nat)
    requires a + n <= |s|
    ensures s[a..][..n] == s[a..a + n]
  {
  }

  /** What `strip(cs)` drops after the kept infix lies in `cs`. */
  lemma StripSetTail(s: string, cs: set<char>)
    ensures var a := |s| - |TrimStart(s, cs)|; var r := StripSet(s, cs);
            a + |r| <= |s| && forall i :: a + |r| <= i < |s| ==> s[i] in cs
  {
    var t := TrimStart(s, cs);
    var r := TrimEnd(t, cs);
    var a := |s| - |t|;
    assert t == s[a..];
    forall i | a + |r| <= i < |s|
      ensures s[i] in cs
    {
      assert s[i] == t[i - a];
    }
  }

  /** A text made only of characters of `cs` strips to nothing. */
  lemma StripSetAllIn(s: string, cs: set<char>)
    requires forall i :: 0 <= i < |s| ==> s[i] in cs
    ensures StripSet(s, cs) == []
  {
    TrimStartAllIn(s, cs);
  }

  lemma {:induction false} TrimStartAllIn(s: string, cs: set<char>)
    requires forall i :: 0 <= i < |s| ==> s[i] in cs
    ensures TrimStart(s, cs) == []
  {
    if s != [] {
      assert s[0] in cs;
      TrimStartAllIn(s[1..], cs);
    }
  }

  lemma {:induction false} TrimStartAfter(x: string, y: string, cs: set<char>)
    requires forall i :: 0 <= i < |x| ==> x[i] in cs
    requires y != [] && y[0] !in cs
    ensures TrimStart(x + y, cs) == y
  {
    if x != [] {
      assert (x + y)[1..] == x[1..] + y;
      TrimStartAfter(x[1..], y, cs);
    } else {
      assert x + y == y;
    }
  }

  /** `strip(cs)` drops a leading run of characters of `cs` in front of a
      text whose ends are outside `cs`. */
  lemma StripSetAfter(x: string, y: string, cs: set<char>)
    requires forall i :: 0 <= i < |x| ==> x[i] in cs
    requires y != [] && y[0] !in cs && y[|y| - 1] !in cs
    ensures StripSet(x + y, cs) == y
  {
    TrimStartAfter(x, y, cs);
    StripSetKeepsClean(y, cs);
  }

  /** A non-empty text with no white space at either end. */
  predicate Clean(s: string)
  {
    s != [] && !IsSpace(s[0]) && !IsSpace(s[|s| - 1])
  }

  /** The clean texts are exactly the non-empty ones `strip()` leaves alone. */
  lemma CleanIffStripped(s: string)
    ensures Clean(s) <==> s != [] && Strip(s) == s
  {
    if Clean(s) {
      StripSetKeepsClean(s, Whitespace);
    }
    StrippedIsClean(s);
  }

  /** A non-empty text `strip()` leaves alone has no white space at its ends. */
  lemma StrippedIsClean(s: string)
    ensures s != [] && StripSet(s, Whitespace) == s ==> !IsSpace(s[0]) && !IsSpace(s[|s| - 1])
  {
    if s != [] && StripSet(s, Whitespace) == s {
      var r := StripSet(s, Whitespace);
      assert r != [] ==> r[0] !in Whitespace && r[|r| - 1] !in Whitespace by {
        StripSetShape(s, Whitespace);
      }
    }
  }

  lemma StripIdempotent(s: string)
    ensures Strip(Strip(s)) == Strip(s)
  {
    StripSetShape(s, Whitespace);
    StripSetKeepsClean(Strip(s), Whitespace);
  }

  /** `s.strip()` is empty exactly when `s` is all white space. */
  lemma StripEmptyIffBlank(s: string)
    ensures Strip(s) == [] <==> forall i :: 0 <= i < |s| ==> IsSpace(s[i])
  {
    if Strip(s) != [] {
      assert !IsSpace(Strip(s)[0]);
    }
  }

  // ---------------------------------------------------------------------
  // Splitting and joining

  /** `s.split(sep)` for a one-character separator: always at least one
      piece, and no piece holds the separator. */
  function Split(s: string, sep: char): (r: seq<string>)
    ensures |r| >= 1
    ensures forall k :: 0 <= k < |r| ==> sep !in r[k]
  {
    if s == [] then [[]]
    else
      var rest := Split(s[1..], sep);
      if s[0] == sep then [[]] + rest
      else [[s[0]] + rest[0]] + rest[1..]
  }

  /** `sep.join(parts)`. */
  function Join(parts: seq<string>, sep: char): string
  {
    if |parts| == 0 then []
    else if |parts| == 1 then parts[0]
    else parts[0] + [sep] + Join(parts[1..], sep)
  }

  /** Joining the pieces of a split restores the text. */
  lemma {:induction false} JoinSplit(s: string, sep: char)
    ensures Join(Split(s, sep), sep) == s
  {
    if s != [] {
      var rest := Split(s[1..], sep);
      JoinSplit(s[1..], sep);
      if s[0] != sep {
        if |rest| == 1 {
        } else {
          assert Join(rest, sep) == rest[0] + [sep] + Join(rest[1..], sep);
          assert [[s[0]] + rest[0]] + rest[1..] == [[s[0]] + rest[0]] + rest[1..];
          var r := [[s[0]] + rest[0]] + rest[1..];
          assert r[1..] == rest[1..];
        }
      } else {
        assert ([[]] + rest)[1..] == rest;
      }
    }
  }

  /** A text without the separator is a single piece. */
  lemma {:induction false} SplitSingle(s: string, sep: char)
    requires sep !in s
    ensures Split(s, sep) == [s]
  {
    if s != [] {
      SplitSingle(s[1..], sep);
      assert [s[0]] + s[1..] == s;
    }
  }

  /** Splitting at a separator splits the pieces in two. */
  lemma {:induction false} SplitAround(a: string, b: string, sep: char)
    ensures Split(a + [sep] + b, sep) == Split(a, sep) + Split(b, sep)
  {
    var s := a + [sep] + b;
    var sb := Split(b, sep);
    if a == [] {
      assert s == [sep] + b;
      assert s[1..] == b;
      assert Split(s, sep) == [[]] + sb;
    } else {
      var t := a[1..] + [sep] + b;
      assert s[0] == a[0] && s[1..] == t;
      var rest, ra := Split(t, sep), Split(a[1..], sep);
      assert rest == ra + sb by {
        SplitAround(a[1..], b, sep);
      }
      if a[0] == sep {
        assert Split(s, sep) == [[]] + rest;
        assert Split(a, sep) == [[]] + ra;
      } else {
        assert Split(s, sep) == [[a[0]] + rest[0]] + rest[1..];
        assert Split(a, sep) == [[a[0]] + ra[0]] + ra[1..];
        ExtendFirst([a[0]], ra, sb);
      }
    }
  }

  /** Extending the first piece commutes with appending more pieces. */
  lemma ExtendFirst(c: string, ra: seq<string>, sb: seq<string>)
    requires ra != []
    ensures var rest := ra + sb; [c + rest[0]] + rest[1..] == [c + ra[0]] + ra[1..] + sb
  {
    var rest := ra + sb;
    assert rest[0] == ra[0] && rest[1..] == ra[1..] + sb;
  }

  /** Splitting a join of separator-free pieces gives the pieces back. */
  lemma {:induction false} SplitJoin(parts: seq<string>, sep: char)
    requires |parts| >= 1
    requires forall k :: 0 <= k < |parts| ==> sep !in parts[k]
    ensures Split(Join(parts, sep), sep) == parts
  {
    if |parts| == 1 {
      SplitSingle(parts[0], sep);
    } else {
      SplitJoin(parts[1..], sep);
      SplitSingle(parts[0], sep);
      SplitAround(parts[0], Join(parts[1..], sep), sep);
      assert [parts[0]] + parts[1..] == parts;
    }
  }

  /** Every character of a join is the separator or comes from a part. */
  lemma {:induction false} JoinChars(parts: seq<string>, sep: char, x: char)
    requires x in Join(parts, sep) && x != sep
    ensures exists k :: 0 <= k < |parts| && x in parts[k]
  {
    if |parts| > 1 {
      if x !in parts[0] {
        assert x in Join(parts[1..], sep);
        JoinChars(parts[1..], sep, x);
        var k :| 0 <= k < |parts[1..]| && x in parts[1..][k];
        assert x in parts[k + 1];
      }
    }
  }

  /** A join of clean parts at a separator that is not white space is clean. */
  lemma {:induction false} JoinClean(parts: seq<string>, sep: char)
    requires |parts| >= 1 && !IsSpace(sep)
    requires forall k :: 0 <= k < |parts| ==> Clean(parts[k])
    ensures Clean(Join(parts, sep))
  {
    if |parts| > 1 {
      JoinClean(parts[1..], sep);
      var j := Join(parts, sep);
      var rest := Join(parts[1..], sep);
      assert j == parts[0] + [sep] + rest;
      assert j[|j| - 1] == rest[|rest| - 1];
    }
  }

  /** `s.split()`: the maximal runs of non-white-space characters. */
  function Words(s: string): (r: seq<string>)
    ensures forall k :: 0 <= k < |r| ==> r[k] != []
    ensures forall k, m :: 0 <= k < |r| && 0 <= m < |r[k]| ==> !IsSpace(r[k][m])
    decreases |s|
  {
    if s == [] then []
    else if IsSpace(s[0]) then Words(s[1..])
    else
      var e := RunEnd(s, 0, Ink);
      [s[..e]] + Words(s[e..])
  }

  /** A text has no words exactly when stripping empties it. */
  lemma {:induction false} NoWordsIffBlank(s: string)
    ensures Words(s) == [] <==> Strip(s) == []
    decreases |s|
  {
    StripEmptyIffBlank(s);
    if s != [] {
      if IsSpace(s[0]) {
        NoWordsIffBlank(s[1..]);
        StripEmptyIffBlank(s[1..]);
        if Words(s) == [] {
          forall i | 0 <= i < |s|
            ensures IsSpace(s[i])
          {
            if i > 0 { assert s[i] == s[1..][i - 1]; }
          }
        }
      }
    }
  }

  // ---------------------------------------------------------------------
  // Searching and deleting

  /** `t` occurs in `s` starting at position `p`. */
  predicate OccursAt(s: string, p: int, t: string)
  {
    0 <= p && p + |t| <= |s| && s[p..p + |t|] == t
  }

  /** Python's `t in s`. */
  predicate Contains(s: string, t: string)
  {
    exists p :: 0 <= p <= |s| && OccursAt(s, p, t)
  }

  /** No occurrence of `t` starts at a character other than its first. */
  lemma NoOccurrenceByFirstChar(s: string, t: string, a: nat, b: nat)
    requires t != [] && a <= b <= |s|
    requires forall q :: a <= q < b ==> s[q] != t[0]
    ensures forall q :: a <= q < b ==> !OccursAt(s, q, t)
  {
    forall q | a <= q < b
      ensures !OccursAt(s, q, t)
    {
      if q + |t| <= |s| {
        assert s[q..q + |t|][0] == s[q];
      }
    }
  }

  /** A one-line `t` that does not occur in the line `s[a..b]`, which a
      newline ends, occurs nowhere from `a` to that newline. */
  lemma NoOccurrenceInLine(s: string, t: string, a: nat, b: nat)
    requires a <= b < |s| && s[b] == '\n' && '\n' !in t
    requires !Contains(s[a..b], t)
    ensures forall q :: a <= q <= b ==> !OccursAt(s, q, t)
  {
    forall q | a <= q <= b
      ensures !OccursAt(s, q, t)
    {
      var w := s[a..b];
      if q + |t| <= b {
        var u, v := w[q - a..q - a + |t|], s[q..q + |t|];
        assert forall i :: 0 <= i < |t| ==> u[i] == v[i];
        assert u == v;
        assert !OccursAt(w, q - a, t);
      } else if q + |t| <= |s| {
        assert s[q..q + |t|][b - q] == '\n';
      }
    }
  }

  /** A one-line `t` absent from a prefix that is empty or ends with a
      newline starts nowhere inside that prefix. */
  lemma NoOccurrenceBefore(s: string, pre: string, t: string)
    requires |pre| <= |s| && s[..|pre|] == pre
    requires !Contains(pre, t) && '\n' !in t
    requires pre == [] || pre[|pre| - 1] == '\n'
    ensures forall q :: 0 <= q < |pre| ==> !OccursAt(s, q, t)
  {
    forall q | 0 <= q < |pre|
      ensures !OccursAt(s, q, t)
    {
      if q + |t| <= |pre| {
        var u, v := s[q..q + |t|], pre[q..q + |t|];
        assert forall i :: 0 <= i < |t| ==> u[i] == s[..|pre|][q + i] == v[i];
        assert u == v;
        assert !OccursAt(pre, q, t);
      } else if q + |t| <= |s| {
        assert s[q..q + |t|][|pre| - 1 - q] == s[|pre| - 1] == '\n';
      }
    }
  }

  /** A one-line `t` found in neither of two lines is not found in the two
      joined by a newline. */
  lemma NoContainsAround(a: string, b: string, t: string)
    requires !Contains(a, t) && !Contains(b, t) && '\n' !in t
    ensures !Contains(a + "\n" + b, t)
  {
    var s := a + "\n" + b;
    forall p | 0 <= p <= |s|
      ensures !OccursAt(s, p, t)
    {
      if p + |t| <= |a| {
        assert s[p..p + |t|] == a[p..p + |t|];
        assert !OccursAt(a, p, t);
      } else if p <= |a| && p + |t| <= |s| {
        assert s[p..p + |t|][|a| - p] == '\n';
      } else if |a| < p && p + |t| <= |s| {
        assert s[p..p + |t|] == b[p - |a| - 1..p - |a| - 1 + |t|];
        assert !OccursAt(b, p - |a| - 1, t);
      }
    }
  }

  /** Characters that cannot start `t` put in front of a text without `t`
      do not create an occurrence. */
  lemma NoContainsPrefixed(c: string, x: string, t: string)
    requires !Contains(x, t)
    requires t != [] && forall i :: 0 <= i < |c| ==> c[i] != t[0]
    ensures !Contains(c + x, t)
  {
    var s := c + x;
    forall p | 0 <= p <= |s|
      ensures !OccursAt(s, p, t)
    {
      if p < |c| && p + |t| <= |s| {
        assert s[p..p + |t|][0] == c[p];
      } else if |c| <= p && p + |t| <= |s| {
        assert s[p..p + |t|] == x[p - |c|..p - |c| + |t|];
        assert !OccursAt(x, p - |c|, t);
      }
    }
  }

  /** `s.find(t, from)`: the leftmost occurrence at or after `from`. */
  function Find(s: string, t: string, from: nat): (r: Option<nat>)
    requires from <= |s|
    ensures r.Some? ==> from <= r.value <= |s| && OccursAt(s, r.value, t)
    ensures r.Some? ==> forall q :: from <= q < r.value ==> !OccursAt(s, q, t)
    ensures r.None? ==> forall q :: from <= q <= |s| ==> !OccursAt(s, q, t)
    decreases |s| - from
  {
    if OccursAt(s, from, t) then Some(from)
    else if from == |s| then None
    else Find(s, t, from + 1)
  }

  /** The characters of `t`. */
  function Chars(t: string): set<char>
  {
    set x | x in t
  }

  /** The characters of `s` outside `cs`, in order: the filter that
      removal is measured against. */
  function Without(s: string, cs: set<char>): string
  {
    if s == [] then [] else (if s[0] in cs then [] else [s[0]]) + Without(s[1..], cs)
  }

  /** The filter keeps only characters of `s` outside `cs`. */
  lemma {:induction false} WithoutChars(s: string, cs: set<char>)
    ensures forall x :: x in Without(s, cs) ==> x in s && x !in cs
  {
    if s != [] {
      WithoutChars(s[1..], cs);
    }
  }

  lemma Reassociate<T>(x: seq<T>, y: seq<T>, z: seq<T>)
    ensures x + (y + z) == x + y + z
  {
  }

  lemma {:induction false} WithoutAppend(a: string, b: string, cs: set<char>)
    ensures Without(a + b, cs) == Without(a, cs) + Without(b, cs)
  {
    if a != [] {
      var h := if a[0] in cs then [] else [a[0]];
      assert Without(a + b, cs) == h + Without(a[1..] + b, cs) by {
        assert (a + b)[0] == a[0] && (a + b)[1..] == a[1..] + b;
      }
      WithoutAppend(a[1..], b, cs);
      Reassociate(h, Without(a[1..], cs), Without(b, cs));
    } else {
      assert a + b == b;
    }
  }

  /** A text made only of characters of `cs` filters to nothing. */
  lemma {:induction false} WithoutAllIn(s: string, cs: set<char>)
    requires forall i :: 0 <= i < |s| ==> s[i] in cs
    ensures Without(s, cs) == []
  {
    if s != [] {
      assert s[0] in cs;
      WithoutAllIn(s[1..], cs);
    }
  }

  /** A text with no character of `cs` passes the filter whole. */
  lemma {:induction false} WithoutNoneIn(s: string, cs: set<char>)
    requires forall i :: 0 <= i < |s| ==> s[i] !in cs
    ensures Without(s, cs) == s
  {
    if s != [] {
      assert s[0] !in cs;
      WithoutNoneIn(s[1..], cs);
      assert [s[0]] + s[1..] == s;
    }
  }

  /** `r` is `s` with some characters taken out: what remains keeps its
      order. */
  predicate Subsequence(r: string, s: string)
    decreases |s|
  {
    r == [] || (s != [] && ((r[0] == s[0] && Subsequence(r[1..], s[1..])) || Subsequence(r, s[1..])))
  }

  lemma {:induction false} SubsequenceRefl(s: string)
    ensures Subsequence(s, s)
  {
    if s != [] {
      SubsequenceRefl(s[1..]);
    }
  }

  /** Dropping a prefix of the longer text keeps a subsequence one. */
  lemma {:induction false} SubsequenceDrop(r: string, s: string, n: nat)
    requires n <= |s| && Subsequence(r, s[n..])
    ensures Subsequence(r, s)
    decreases n
  {
    if n > 0 {
      assert s[1..][n - 1..] == s[n..];
      SubsequenceDrop(r, s[1..], n - 1);
    }
  }

  /** Keeping the first character extends a subsequence. */
  lemma SubsequenceCons(r: string, s: string)
    requires s != [] && Subsequence(r, s[1..])
    ensures Subsequence([s[0]] + r, s)
  {
    assert ([s[0]] + r)[1..] == r;
  }

  /** Taking characters out twice is taking them out once. */
  lemma {:induction false} SubsequenceTrans(a: string, b: string, c: string)
    requires Subsequence(a, b) && Subsequence(b, c)
    ensures Subsequence(a, c)
    decreases |c|
  {
    if a != [] {
      assert b != [] && c != [];
      if b[0] == c[0] && Subsequence(b[1..], c[1..]) {
        if a[0] == b[0] && Subsequence(a[1..], b[1..]) {
          SubsequenceTrans(a[1..], b[1..], c[1..]);
        } else {
          SubsequenceTrans(a, b[1..], c[1..]);
        }
      } else {
        SubsequenceTrans(a, b, c[1..]);
      }
    }
  }

  /** Filtering out `a + b` is filtering out `a`, then `b`. */
  lemma {:induction false} WithoutUnion(s: string, a: set<char>, b: set<char>)
    ensures Without(s, a + b) == Without(Without(s, a), b)
  {
    if s != [] {
      var h := if s[0] in a then [] else [s[0]];
      WithoutUnion(s[1..], a, b);
      assert Without(s, a) == h + Without(s[1..], a);
      WithoutAppend(h, Without(s[1..], a), b);
      if s[0] !in a {
        assert Without(h, b) == (if s[0] in b then [] else [s[0]]) + Without([], b);
      }
    }
  }

  /** Two texts that agree once `a` is filtered out still agree once any
      larger set is. */
  lemma WithoutWiden(r: string, s: string, a: set<char>, b: set<char>)
    requires Without(r, a) == Without(s, a)
    ensures Without(r, a + b) == Without(s, a + b)
  {
    WithoutUnion(r, a, b);
    WithoutUnion(s, a, b);
  }

  /** Three removals in a row, each agreeing with its input once its own
      set is filtered out, agree end to end once all three sets are. */
  lemma ThreeStepsAgree(x0: string, x1: string, x2: string, x3: string, a: set<char>, b: set<char>, c: set<char>)
    requires Without(x1, a) == Without(x0, a)
    requires Without(x2, b) == Without(x1, b)
    requires Without(x3, c) == Without(x2, c)
    ensures Without(x3, a + b + c) == Without(x0, a + b + c)
  {
    WithoutWiden(x1, x0, a, b + c);
    assert a + (b + c) == a + b + c;
    WithoutWiden(x2, x1, b, a + c);
    assert b + (a + c) == a + b + c;
    WithoutWiden(x3, x2, c, a + b);
    assert c + (a + b) == a + b + c;
  }

  /** Keeping the first character of `s` in front of what remains of the
      rest keeps both removal properties. */
  lemma KeepFirst(s: string, r: string, cs: set<char>)
    requires s != [] && Subsequence(r, s[1..]) && Without(r, cs) == Without(s[1..], cs)
    ensures Subsequence([s[0]] + r, s) && Without([s[0]] + r, cs) == Without(s, cs)
  {
    SubsequenceCons(r, s);
    WithoutAppend([s[0]], s[1..], cs);
    WithoutAppend([s[0]], r, cs);
    assert [s[0]] + s[1..] == s;
  }

  /** Dropping a prefix the filter ignores keeps both removal properties. */
  lemma DropIgnored(s: string, r: string, n: nat, cs: set<char>)
    requires n <= |s| && Subsequence(r, s[n..]) && Without(r, cs) == Without(s[n..], cs)
    requires forall i :: 0 <= i < n ==> s[i] in cs
    ensures Subsequence(r, s) && Without(r, cs) == Without(s, cs)
  {
    SubsequenceDrop(r, s, n);
    forall i | 0 <= i < n
      ensures s[..n][i] in cs
    {
      assert s[..n][i] == s[i];
    }
    WithoutAllIn(s[..n], cs);
    WithoutAppend(s[..n], s[n..], cs);
    assert s[..n] + s[n..] == s;
  }

  /** `s.replace(t, "")`: every leftmost, non-overlapping occurrence of `t`
      is removed in one pass from left to right. What remains is a
      subsequence of `s` that keeps every character outside `t`, in order;
      removing a single character removes all of it. */
  function DeleteAll(s: string, t: string): (r: string)
    requires |t| > 0
    ensures |r| <= |s|
    ensures forall x :: x in r ==> x in s
    ensures |t| == 1 ==> t[0] !in r
    ensures Subsequence(r, s)
    ensures Without(r, Chars(t)) == Without(s, Chars(t))
    decreases |s|
  {
    if |s| < |t| then
      SubsequenceRefl(s);
      s
    else if s[..|t|] == t then
      var r := DeleteAll(s[|t|..], t);
      assert forall i :: 0 <= i < |t| ==> s[i] == t[i] && t[i] in Chars(t);
      DropIgnored(s, r, |t|, Chars(t));
      r
    else
      var r := DeleteAll(s[1..], t);
      KeepFirst(s, r, Chars(t));
      [s[0]] + r
  }

  /** Deleting one character is filtering it out. */
  lemma DeleteCharIsFilter(s: string, c: char)
    ensures DeleteAll(s, [c]) == Without(s, {c})
  {
    var r := DeleteAll(s, [c]);
    assert Chars([c]) == {c};
    forall i | 0 <= i < |r|
      ensures r[i] !in {c}
    {
      assert r[i] in r;
    }
    WithoutNoneIn(r, {c});
  }

  /** Deleting a text whose last character does not occur changes
      nothing. */
  lemma {:induction false} DeleteAbsent(s: string, t: string)
    requires |t| > 0 && t[|t| - 1] !in s
    ensures DeleteAll(s, t) == s
    decreases |s|
  {
    if |s| >= |t| {
      assert s[..|t|][|t| - 1] == s[|t| - 1];
      DeleteAbsent(s[1..], t);
      assert [s[0]] + s[1..] == s;
    }
  }

  // ---------------------------------------------------------------------
  // Case and digits

  function LowerChar(c: char): char
  {
    if 'A' <= c <= 'Z' then (c as int + 32) as char else c
  }

  /** `s.lower()` on ASCII letters. */
  function Lower(s: string): (r: string)
    ensures |r| == |s|
    ensures forall i :: 0 <= i < |s| ==> r[i] == LowerChar(s[i])
  {
    seq(|s|, i requires 0 <= i < |s| => LowerChar(s[i]))
  }

  predicate AllDigits(d: string)
  {
    forall i :: 0 <= i < |d| ==> IsDigit(d[i])
  }

  function DigitValue(c: char): nat
    requires IsDigit(c)
  {
    c as int - '0' as int
  }

  function DigitChar(n: nat): (c: char)
    requires n < 10
    ensures IsDigit(c) && DigitValue(c) == n
  {
    ('0' as int + n) as char
  }

  /** `int(d)` for a string of ASCII decimal digits. */
  function DecimalValue(d: string): nat
    requires AllDigits(d)
    decreases |d|
  {
    if d == [] then 0 else 10 * DecimalValue(d[..|d| - 1]) + DigitValue(d[|d| - 1])
  }

  /** `str(n)`. */
  function DecimalDigits(n: nat): (d: string)
    ensures d != [] && AllDigits(d)
  {
    if n < 10 then [DigitChar(n)] else DecimalDigits(n / 10) + [DigitChar(n % 10)]
  }

  /** `int(str(n)) == n`. */
  lemma {:induction false} DecimalRoundTrip(n: nat)
    ensures DecimalValue(DecimalDigits(n)) == n
  {
    if n >= 10 {
      DecimalRoundTrip(n / 10);
      var d := DecimalDigits(n);
      assert d[..|d| - 1] == DecimalDigits(n / 10);
    }
  }
}
