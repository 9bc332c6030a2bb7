/** Answer evaluation (hr.py and tech.py, `evaluate_answer` and
    `_parse_evaluation`): the language model's reply is read field by field,
    each field from its own search over the whole reply, and every field
    whose label is missing keeps its default. The HR record has no
    knowledge gaps; the technical one has at most two. */
module Evaluation {
  import opened Common
  import opened Text
  import opened Patterns

  /** The dictionary an evaluation produces. `gaps` is `None` for the HR
      record, which has no "knowledge_gaps" key at all. */
  datatype Evaluation = Evaluation(score: nat, feedback: string, tips: seq<string>, gaps: Option<seq<string>>)

  const DefaultScore: nat := 5
  const NoFeedback := "No feedback available"
  const MaxTips: nat := 3
  const MaxGaps: nat := 2

  /** CPython refuses to convert a decimal string of more digits than this
      (`sys.get_int_max_str_digits()`), raising `ValueError`. */
  const MaxIntDigits: nat := 4300

  const ScorePattern := ScoreOutOfTen
  const FeedbackPattern := Section("Feedback:", Before("\nImprovement Tips:"))
  /** The HR tips run to the next "\n<word>:" line. */
  const HrTipsPattern := Section("Improvement Tips:", BeforeWordLabel)
  /** The technical tips run to "\nKnowledge Gaps:" only. */
  const TechTipsPattern := Section("Improvement Tips:", Before("\nKnowledge Gaps:"))
  const GapsPattern := Section("Knowledge Gaps:", BeforeWordLabel)

  /** The record `evaluate_answer` returns when the HR model call raises. */
  const HrUnavailable := Evaluation(5, "Unable to process evaluation at this time",
    ["Provide more specific examples", "Structure your answer using STAR method", "Focus on measurable outcomes"],
    None)

  /** The record `evaluate_answer` returns when the technical model call raises. */
  const TechUnavailable := Evaluation(5, "Evaluation system unavailable",
    ["Provide more technical specifics", "Include code examples where possible"],
    Some(["Unable to assess gaps"]))

  /** The record `_parse_evaluation` starts from. */
  function Defaults(technical: bool): (e: Evaluation)
    ensures e.score == DefaultScore && e.feedback == NoFeedback && e.tips == []
    ensures e.gaps == (if technical then Some([]) else None)
  {
    Evaluation(DefaultScore, NoFeedback, [], if technical then Some([]) else None)
  }

  // ---------------------------------------------------------------------
  // Fields

  /** The digits of the leftmost "Score: N/10", if any. */
  function ScoreDigits(text: string): (d: Option<string>)
    ensures d.Some? ==> d.value != [] && AllDigits(d.value)
  {
    match Search(text, ScorePattern)
    case Some(m) => Some(m.group)
    case None => None
  }

  /** `int(...)` of the score digits raises, which abandons the whole parse. */
  predicate ScoreOverflows(text: string)
  {
    ScoreDigits(text).Some? && |ScoreDigits(text).value| > MaxIntDigits
  }

  /** The score field: the value of the digits, unclamped, or the default. */
  function ScoreOf(text: string): nat
  {
    match ScoreDigits(text)
    case Some(d) => DecimalValue(d)
    case None => DefaultScore
  }

  /** The feedback field: the stripped group, or the default. */
  function FeedbackOf(text: string): string
  {
    match Search(text, FeedbackPattern)
    case Some(m) => Strip(m.group)
    case None => NoFeedback
  }

  /** One list line, with dashes and spaces trimmed from both ends and then
      white space: `tip.strip('- ').strip()`. */
  function Item(line: string): string
  {
    Strip(StripSet(line, {'-', ' '}))
  }

  /** What one line of a section contributes: nothing when it is blank. */
  function LineItem(line: string): seq<string>
  {
    if Strip(line) == [] then [] else [Item(line)]
  }

  /** The items of a section, one per non-blank line, in order. */
  function Items(section: string): seq<string>
  {
    FlatMap(LineItem, Split(section, '\n'))
  }

  /** A list field: the first `limit` items of the section the pattern finds,
      or the empty default. */
  function ListOf(text: string, pat: Pattern, limit: nat): (r: seq<string>)
    ensures |r| <= limit
    ensures match Search(text, pat)
      case Some(m) => |r| == Min(limit, |Items(m.group)|) && r == Items(m.group)[..|r|]
      case None => r == []
  {
    match Search(text, pat)
    case Some(m) => Take(Items(m.group), limit)
    case None => []
  }

  // ---------------------------------------------------------------------
  // Parsers

  /** HRInterview._parse_evaluation. */
  function ParseHr(text: string): (e: Evaluation)
    ensures e.gaps == None && |e.tips| <= MaxTips
  {
    if ScoreOverflows(text) then Defaults(false)
    else Evaluation(ScoreOf(text), FeedbackOf(text), ListOf(text, HrTipsPattern, MaxTips), None)
  }

  /** TechnicalInterview._parse_evaluation. */
  function ParseTech(text: string): (e: Evaluation)
    ensures e.gaps.Some? && |e.tips| <= MaxTips && |e.gaps.value| <= MaxGaps
  {
    if ScoreOverflows(text) then Defaults(true)
    else Evaluation(ScoreOf(text), FeedbackOf(text), ListOf(text, TechTipsPattern, MaxTips),
                    Some(ListOf(text, GapsPattern, MaxGaps)))
  }

  /** HRInterview.evaluate_answer given the outcome of the model call. */
  function EvaluateHr(reply: Reply): (e: Evaluation)
    ensures reply.Raised? ==> e == HrUnavailable && |e.tips| == 3
    ensures reply.Ok? ==> e == ParseHr(reply.text)
    ensures e.gaps == None && |e.tips| <= MaxTips
  {
    match reply
    case Ok(text) => ParseHr(text)
    case Raised(_) => HrUnavailable
  }

  /** TechnicalInterview.evaluate_answer given the outcome of the model call. */
  function EvaluateTech(reply: Reply): (e: Evaluation)
    ensures reply.Raised? ==> e == TechUnavailable && |e.tips| == 2 && e.gaps == Some(["Unable to assess gaps"])
    ensures reply.Ok? ==> e == ParseTech(reply.text)
    ensures e.gaps.Some? && |e.tips| <= MaxTips && |e.gaps.value| <= MaxGaps
  {
    match reply
    case Ok(text) => ParseTech(text)
    case Raised(_) => TechUnavailable
  }

  // ---------------------------------------------------------------------
  // Laws of the parsers

  /** Each field comes from its own search: a label missing from the reply
      leaves that field at its default, whatever else the reply holds. */
  lemma AbsentLabelKeepsDefault(text: string)
    ensures !Contains(text, "Score:") ==> ParseHr(text).score == DefaultScore && ParseTech(text).score == DefaultScore
    ensures !Contains(text, "Feedback:") ==> ParseHr(text).feedback == NoFeedback && ParseTech(text).feedback == NoFeedback
    ensures !Contains(text, "Improvement Tips:") ==> ParseHr(text).tips == [] && ParseTech(text).tips == []
    ensures !Contains(text, "Knowledge Gaps:") ==> ParseTech(text).gaps == Some([])
  {
    if !Contains(text, "Score:") {
      AbsentLabelNoMatch(text, ScorePattern);
    }
    if !Contains(text, "Feedback:") {
      AbsentLabelNoMatch(text, FeedbackPattern);
    }
    if !Contains(text, "Improvement Tips:") {
      AbsentLabelNoMatch(text, HrTipsPattern);
      AbsentLabelNoMatch(text, TechTipsPattern);
    }
    if !Contains(text, "Knowledge Gaps:") {
      AbsentLabelNoMatch(text, GapsPattern);
    }
  }

  /** A reply without any of the labels parses to the default record; in
      particular the HR record has no gaps and the technical one has none. */
  lemma NoLabelsGiveDefaults(text: string)
    requires !Contains(text, "Score:") && !Contains(text, "Feedback:")
    requires !Contains(text, "Improvement Tips:") && !Contains(text, "Knowledge Gaps:")
    ensures ParseHr(text) == Defaults(false)
    ensures ParseTech(text) == Defaults(true)
  {
    AbsentLabelKeepsDefault(text);
  }

  /** "Score: N/10" as the prompts ask for it. */
  function ScoreLine(n: nat): string
  {
    "Score: " + DecimalDigits(n) + "/10"
  }

  lemma ScoreDigitsAtStart(d: string, rest: string)
    requires d != [] && AllDigits(d)
    ensures ScoreDigits("Score: " + d + "/10" + rest) == Some(d)
  {
    var x := "Score: " + d + "/10";
    var s := x + rest;
    assert s[0..|x|] == x;
    ScoreMatch(s, 0, d);
    SearchFinds(s, 0, ScorePattern, d);
  }

  /** The score is the number written, even far beyond 10: nothing clamps
      it to the range the prompt asks for. */
  lemma ScoreNotClamped(n: nat, rest: string)
    requires |DecimalDigits(n)| <= MaxIntDigits
    ensures ParseHr(ScoreLine(n) + rest).score == n
    ensures ParseTech(ScoreLine(n) + rest).score == n
  {
    ScoreDigitsAtStart(DecimalDigits(n), rest);
    DecimalRoundTrip(n);
  }

  /** A score with more digits than `int()` converts raises inside the
      parse, and the handler returns the defaults: every other field of the
      reply is discarded with it. */
  lemma OverlongScoreDiscardsEverything(d: string, rest: string)
    requires AllDigits(d) && |d| > MaxIntDigits
    ensures ParseHr("Score: " + d + "/10" + rest) == Defaults(false)
    ensures ParseTech("Score: " + d + "/10" + rest) == Defaults(true)
  {
    ScoreDigitsAtStart(d, rest);
  }

  /** A line of dashes and spaces is not blank, and yields an empty item. */
  lemma DashesGiveEmptyItem(line: string)
    requires '-' in line
    requires forall i :: 0 <= i < |line| ==> line[i] == '-' || line[i] == ' '
    ensures LineItem(line) == [""]
  {
    var i :| 0 <= i < |line| && line[i] == '-';
    StripEmptyIffBlank(line);
    assert !IsSpace(line[i]);
    StripSetAllIn(line, {'-', ' '});
  }

  // ---------------------------------------------------------------------
  // Rendering, and the round trip

  /** Text the record can be rendered from and read back: one clean line,
      holding neither list label. */
  predicate Plain(x: string)
  {
    Clean(x) && '\n' !in x && !Contains(x, "Improvement Tips:") && !Contains(x, "Knowledge Gaps:")
  }

  /** A plain item that also does not start or end with a dash. */
  predicate PlainItem(x: string)
  {
    Plain(x) && Undashed(x)
  }

  /** A non-empty text that neither starts nor ends with a dash. */
  predicate Undashed(x: string)
  {
    x != [] && x[0] != '-' && x[|x| - 1] != '-'
  }

  function DashLines(items: seq<string>): (lines: seq<string>)
    ensures |lines| == |items|
    ensures forall k :: 0 <= k < |items| ==> lines[k] == "- " + items[k]
  {
    if items == [] then [] else ["- " + items[0]] + DashLines(items[1..])
  }

  /** The bulleted list "- a\n- b" the prompts ask for. */
  function Bullets(items: seq<string>): string
  {
    Join(DashLines(items), '\n')
  }

  /** Every newline of the text is followed by a dash. */
  predicate DashAfterNewline(x: string)
  {
    forall i :: 0 <= i < |x| && x[i] == '\n' ==> i + 1 < |x| && x[i + 1] == '-'
  }

  lemma DashLineItem(x: string)
    requires Clean(x) && Undashed(x)
    ensures LineItem("- " + x) == [x]
  {
    var line := "- " + x;
    assert line[|line| - 1] == x[|x| - 1];
    CleanIffStripped(line);
    StripSetAfter("- ", x, {'-', ' '});
    CleanIffStripped(x);
  }

  lemma DashLinesItems(items: seq<string>)
    requires forall k :: 0 <= k < |items| ==> Clean(items[k]) && Undashed(items[k])
    ensures FlatMap(LineItem, DashLines(items)) == items
  {
    var lines := DashLines(items);
    forall k | 0 <= k < |lines|
      ensures LineItem(lines[k]) == [items[k]]
    {
      DashLineItem(items[k]);
    }
    FlatMapSingletons(LineItem, lines, items);
  }

  /** A bulleted list of plain items reads back as those items. */
  lemma BulletsItems(items: seq<string>)
    requires items != [] && forall k :: 0 <= k < |items| ==> PlainItem(items[k])
    ensures Items(Bullets(items)) == items
  {
    var lines := DashLines(items);
    forall k | 0 <= k < |lines|
      ensures '\n' !in lines[k]
    {
      assert lines[k] == "- " + items[k];
    }
    SplitJoin(lines, '\n');
    DashLinesItems(items);
  }

  lemma {:induction false} BulletsShape(items: seq<string>)
    requires items != [] && forall k :: 0 <= k < |items| ==> PlainItem(items[k])
    ensures Bullets(items) != [] && Bullets(items)[0] == '-'
    ensures DashAfterNewline(Bullets(items))
    ensures !Contains(Bullets(items), "Improvement Tips:") && !Contains(Bullets(items), "Knowledge Gaps:")
    decreases |items|
  {
    var lines := DashLines(items);
    var head := "- " + items[0];
    NoContainsPrefixed("- ", items[0], "Improvement Tips:");
    NoContainsPrefixed("- ", items[0], "Knowledge Gaps:");
    if |items| == 1 {
      assert Bullets(items) == head;
    } else {
      BulletsShape(items[1..]);
      assert lines[1..] == DashLines(items[1..]);
      var rest := Bullets(items[1..]);
      var b := head + "\n" + rest;
      assert Bullets(items) == b;
      NoContainsAround(head, rest, "Improvement Tips:");
      NoContainsAround(head, rest, "Knowledge Gaps:");
      forall i | 0 <= i < |b| && b[i] == '\n'
        ensures i + 1 < |b| && b[i + 1] == '-'
      {
        if i == |head| {
          assert b[i + 1] == rest[0];
        } else if i > |head| {
          assert b[i] == rest[i - |head| - 1];
          assert i - |head| < |rest| ==> b[i + 1] == rest[i - |head|];
        }
      }
    }
  }

  /** The body under a list label: nothing for an empty list, otherwise a
      newline and the bullets. */
  function ListBody(items: seq<string>): string
  {
    if items == [] then [] else "\n" + Bullets(items)
  }

  /** The score line and the feedback line. */
  function Lines(e: Evaluation): string
  {
    ScoreLine(e.score) + "\n" + ("Feedback: " + e.feedback)
  }

  /** The score and feedback lines, each ended by a newline. */
  function Head(e: Evaluation): string
  {
    Lines(e) + "\n"
  }

  /** What follows the tips: the gaps section exactly for a technical record. */
  function GapsPart(e: Evaluation): string
  {
    match e.gaps
    case None => []
    case Some(gaps) => "\n" + "Knowledge Gaps:" + ListBody(gaps)
  }

  /** The reply in the format the evaluation prompts ask for. */
  function Render(e: Evaluation): string
  {
    Head(e) + "Improvement Tips:" + ListBody(e.tips) + GapsPart(e)
  }

  /** A record that `Render` writes in a form the parser reads back. */
  predicate Renderable(e: Evaluation)
  {
    && |DecimalDigits(e.score)| <= MaxIntDigits
    && Plain(e.feedback)
    && |e.tips| <= MaxTips && (forall k :: 0 <= k < |e.tips| ==> PlainItem(e.tips[k]))
    && (e.gaps.Some? ==> |e.gaps.value| <= MaxGaps && forall k :: 0 <= k < |e.gaps.value| ==> PlainItem(e.gaps.value[k]))
  }

  /** The score line holds none of the other labels. */
  lemma ScoreLineHoldsNoLabel(n: nat)
    ensures !Contains(ScoreLine(n), "Feedback:")
    ensures !Contains(ScoreLine(n), "Improvement Tips:")
    ensures !Contains(ScoreLine(n), "Knowledge Gaps:")
  {
    var x := ScoreLine(n);
    var d := DecimalDigits(n);
    forall i | 0 <= i < |x|
      ensures x[i] != 'F' && x[i] != 'I' && x[i] != 'K'
    {
      if i < 7 {
        assert x[i] == "Score: "[i];
      } else if i < 7 + |d| {
        assert x[i] == d[i - 7];
      } else {
        assert x[i] == "/10"[i - 7 - |d|];
      }
    }
    NoContainsPrefixed(x, [], "Feedback:");
    NoContainsPrefixed(x, [], "Improvement Tips:");
    NoContainsPrefixed(x, [], "Knowledge Gaps:");
    assert x + [] == x;
  }

  /** Inside a one-line text the newline look-aheads never hold. */
  lemma PlainHasNoStop(s: string, j: nat, f: string, stop: Stop)
    requires j + |f| <= |s| && s[j..j + |f|] == f && '\n' !in f
    requires NewlineStop(stop)
    ensures forall q :: j <= q < j + |f| ==> !StopsAt(s, q, stop)
  {
    forall q | j <= q < j + |f|
      ensures !StopsAt(s, q, stop)
    {
      assert s[q] == f[q - j];
      StopNeedsNewline(s, q, stop);
    }
  }

  /** The feedback written after "Feedback: " and before the tips label is
      read back, provided the label occurs nowhere earlier. */
  lemma FeedbackField(pre: string, f: string, post: string)
    requires !Contains(pre, "Feedback:") && (pre == [] || pre[|pre| - 1] == '\n')
    requires Plain(f)
    ensures FeedbackOf(pre + "Feedback: " + f + "\nImprovement Tips:" + post) == f
  {
    var s := pre + "Feedback: " + f + "\nImprovement Tips:" + post;
    FeedbackFieldMatch(pre, f, post);
    assert s[..|pre|] == pre;
    NoOccurrenceBefore(s, pre, "Feedback:");
    SearchFinds(s, |pre|, FeedbackPattern, f);
    CleanIffStripped(f);
  }

  /** The feedback pattern tried where the label stands captures `f`. */
  lemma FeedbackFieldMatch(pre: string, f: string, post: string)
    requires Plain(f)
    ensures MatchAt(pre + "Feedback: " + f + "\nImprovement Tips:" + post, |pre|, FeedbackPattern) == Some(f)
  {
    var a, m := pre + "Feedback: ", "\nImprovement Tips:" + post;
    var s := pre + "Feedback: " + f + "\nImprovement Tips:" + post;
    assert s == a + f + m;
    var p := |pre|;
    var j := p + 10;
    var e := j + |f|;
    var stop := Before("\nImprovement Tips:");
    assert s[p..p + 9] == "Feedback:";
    assert s[p + 9] == ' ' && s[j] == f[0];
    assert s[j..e] == f;
    assert s[e..e + 18] == "\nImprovement Tips:";
    PlainHasNoStop(s, j, f, stop);
    SectionMatch(s, p, "Feedback:", stop, e);
  }

  /** A bulleted list under a heading that occurs nowhere earlier is the
      section found, when the list ends the text or the stop marker
      follows it. */
  lemma ListField(pre: string, heading: string, stop: Stop, items: seq<string>, post: string)
    requires !Contains(pre, heading) && '\n' !in heading && (pre == [] || pre[|pre| - 1] == '\n')
    requires NewlineStop(stop)
    requires post == [] || (stop.Before? && |stop.marker| <= |post| && post[..|stop.marker|] == stop.marker)
    requires items != [] && forall k :: 0 <= k < |items| ==> PlainItem(items[k])
    ensures Search(pre + heading + "\n" + Bullets(items) + post, Section(heading, stop))
         == Some(Match(|pre|, Bullets(items)))
  {
    var b := Bullets(items);
    BulletsShape(items);
    var s := pre + heading + "\n" + b + post;
    var p := |pre|;
    var j := p + |heading| + 1;
    var e := j + |b|;
    assert s[..p] == pre;
    assert s[p..p + |heading|] == heading;
    assert s[p + |heading|] == '\n' && s[j] == '-';
    assert s[j..e] == b;
    if post == [] {
      assert AtEnd(s, e);
    } else {
      assert s[e..e + |stop.marker|] == stop.marker;
    }
    forall q | j < q < e
      ensures !StopsAt(s, q, stop)
    {
      assert s[q] == b[q - j];
      assert q + 1 < e ==> s[q + 1] == b[q - j + 1];
      StopNeedsNewline(s, q, stop);
    }
    SectionMatch(s, p, heading, stop, e);
    NoOccurrenceBefore(s, pre, heading);
    SearchFinds(s, p, Section(heading, stop), b);
  }

  /** A heading that ends the text, with nothing after it, is not a match:
      the section is absent. */
  lemma EmptyListField(pre: string, heading: string, stop: Stop)
    requires heading != [] && !Contains(pre, heading) && '\n' !in heading
    requires pre == [] || pre[|pre| - 1] == '\n'
    ensures Search(pre + heading, Section(heading, stop)) == None
  {
    var s := pre + heading;
    assert s[..|pre|] == pre;
    NoOccurrenceBefore(s, pre, heading);
    forall q | 0 <= q <= |s|
      ensures MatchAt(s, q, Section(heading, stop)).None?
    {
      if q == |pre| {
        RunEndIs(s, |s|, Space, |s|);
      }
    }
  }

  lemma RenderedScore(e: Evaluation)
    requires Renderable(e)
    ensures !ScoreOverflows(Render(e)) && ScoreOf(Render(e)) == e.score
  {
    var rest := "Improvement Tips:" + ListBody(e.tips) + GapsPart(e);
    assert Render(e) == Head(e) + rest by {
      Regroup3(Head(e), "Improvement Tips:", ListBody(e.tips), GapsPart(e));
    }
    ScoreFirst(e, rest);
  }

  lemma Regroup3<T>(h: seq<T>, a: seq<T>, b: seq<T>, c: seq<T>)
    ensures h + a + b + c == h + (a + b + c)
  {
  }

  lemma Regroup(a: string, b: string, c: string, d: string)
    ensures a + b + c + d == a + b + (c + d)
  {
  }

  lemma HeadFeedbackForm(x: string, f: string, y: string)
    ensures x + "\n" + ("Feedback: " + f) + "\n" + "Improvement Tips:" + y
         == x + "\n" + "Feedback: " + f + "\nImprovement Tips:" + y
  {
    assert "\n" + "Improvement Tips:" == "\nImprovement Tips:";
  }

  lemma RenderedFeedback(e: Evaluation)
    requires Renderable(e)
    ensures FeedbackOf(Render(e)) == e.feedback
  {
    var score := ScoreLine(e.score);
    ScoreLineHoldsNoLabel(e.score);
    var pre := score + "\n";
    NoContainsAround(score, [], "Feedback:");
    assert score + "\n" + [] == pre;
    var post := ListBody(e.tips) + GapsPart(e);
    Regroup(Head(e), "Improvement Tips:", ListBody(e.tips), GapsPart(e));
    HeadFeedbackForm(score, e.feedback, post);
    FeedbackField(pre, e.feedback, post);
  }

  /** The score and feedback lines hold neither list label. */
  lemma LinesHoldNoListLabel(e: Evaluation, t: string)
    requires Renderable(e) && (t == "Improvement Tips:" || t == "Knowledge Gaps:")
    ensures !Contains(Lines(e), t)
  {
    ScoreLineHoldsNoLabel(e.score);
    NoContainsPrefixed("Feedback: ", e.feedback, t);
    NoContainsAround(ScoreLine(e.score), "Feedback: " + e.feedback, t);
  }

  /** The head holds neither list label and ends with a newline. */
  lemma HeadHoldsNoListLabel(e: Evaluation, t: string)
    requires Renderable(e) && (t == "Improvement Tips:" || t == "Knowledge Gaps:")
    ensures !Contains(Head(e), t) && Head(e) != [] && Head(e)[|Head(e)| - 1] == '\n'
  {
    LinesHoldNoListLabel(e, t);
    NoContainsAround(Lines(e), [], t);
    assert Lines(e) + "\n" + [] == Head(e);
  }

  lemma InnerConcat(a: string, b: string, c: string, d: string)
    ensures a + (b + c) + d == a + b + c + d
  {
  }

  /** A tips list after a head without the label reads back as itself. */
  lemma TipsAfter(pre: string, tips: seq<string>, stop: Stop, post: string)
    requires !Contains(pre, "Improvement Tips:") && pre != [] && pre[|pre| - 1] == '\n'
    requires |tips| <= MaxTips && forall k :: 0 <= k < |tips| ==> PlainItem(tips[k])
    requires NewlineStop(stop) && tips != []
    requires post == [] || (stop.Before? && |stop.marker| <= |post| && post[..|stop.marker|] == stop.marker)
    ensures ListOf(pre + "Improvement Tips:" + ListBody(tips) + post, Section("Improvement Tips:", stop), MaxTips) == tips
  {
    var heading := "Improvement Tips:";
    var text := pre + heading + ListBody(tips) + post;
    assert ListBody(tips) == "\n" + Bullets(tips);
    InnerConcat(pre + heading, "\n", Bullets(tips), post);
    assert Search(text, Section(heading, stop)) == Some(Match(|pre|, Bullets(tips))) by {
      ListField(pre, heading, stop, tips, post);
    }
    assert Items(Bullets(tips)) == tips by {
      BulletsItems(tips);
    }
    ListOfFound(text, Section(heading, stop), MaxTips);
  }

  /** A list field reads the items of the section the pattern finds. */
  lemma ListOfFound(text: string, pat: Pattern, limit: nat)
    ensures match Search(text, pat)
      case Some(m) => |Items(m.group)| <= limit ==> ListOf(text, pat, limit) == Items(m.group)
      case None => ListOf(text, pat, limit) == []
  {
  }

  lemma RenderedHrTips(e: Evaluation)
    requires Renderable(e) && e.gaps == None
    ensures ListOf(Render(e), HrTipsPattern, MaxTips) == e.tips
  {
    HeadHoldsNoListLabel(e, "Improvement Tips:");
    if e.tips == [] {
      assert Render(e) == Head(e) + "Improvement Tips:";
      EmptyListField(Head(e), "Improvement Tips:", BeforeWordLabel);
    } else {
      TipsAfter(Head(e), e.tips, BeforeWordLabel, []);
    }
  }

  /** The HR parser reads back every record it could have produced from a
      reply in the prompted format. */
  lemma HrRoundTrip(e: Evaluation)
    requires Renderable(e) && e.gaps == None
    ensures ParseHr(Render(e)) == e
  {
    RenderedScore(e);
    RenderedFeedback(e);
    RenderedHrTips(e);
  }

  lemma RenderedTechTips(e: Evaluation)
    requires Renderable(e) && e.gaps.Some? && e.tips != []
    ensures ListOf(Render(e), TechTipsPattern, MaxTips) == e.tips
  {
    HeadHoldsNoListLabel(e, "Improvement Tips:");
    var post := GapsPart(e);
    assert post[..16] == "\nKnowledge Gaps:";
    TipsAfter(Head(e), e.tips, Before("\nKnowledge Gaps:"), post);
  }

  /** The part of a technical record with tips before its gaps heading. */
  function GapsHead(e: Evaluation): string
  {
    Head(e) + "Improvement Tips:" + "\n" + Bullets(e.tips) + "\n"
  }

  lemma GapsHeadHoldsNoGapsLabel(e: Evaluation)
    requires Renderable(e) && e.tips != []
    ensures !Contains(GapsHead(e), "Knowledge Gaps:")
    ensures GapsHead(e)[|GapsHead(e)| - 1] == '\n'
  {
    var k := "Knowledge Gaps:";
    LinesHoldNoListLabel(e, k);
    var it := "Improvement Tips:";
    forall i | 0 <= i < |it|
      ensures it[i] != 'K'
    {
    }
    NoContainsPrefixed(it, [], k);
    assert it + [] == it;
    NoContainsAround(Lines(e), it, k);
    assert Lines(e) + "\n" + it == Head(e) + it;
    BulletsShape(e.tips);
    NoContainsAround(Head(e) + it, Bullets(e.tips), k);
    var h := Head(e) + it + "\n" + Bullets(e.tips);
    NoContainsAround(h, [], k);
    assert h + "\n" + [] == GapsHead(e);
  }

  lemma RegroupGaps(h: string, b: string, lb: string)
    ensures h + "Improvement Tips:" + ("\n" + b) + ("\n" + "Knowledge Gaps:" + lb)
         == h + "Improvement Tips:" + "\n" + b + "\n" + "Knowledge Gaps:" + lb
  {
  }

  /** A gaps list after a head without the label reads back as itself. */
  lemma GapsAfter(pre: string, gaps: seq<string>)
    requires !Contains(pre, "Knowledge Gaps:") && pre != [] && pre[|pre| - 1] == '\n'
    requires |gaps| <= MaxGaps && forall k :: 0 <= k < |gaps| ==> PlainItem(gaps[k])
    ensures ListOf(pre + "Knowledge Gaps:" + ListBody(gaps), GapsPattern, MaxGaps) == gaps
  {
    if gaps == [] {
      assert pre + "Knowledge Gaps:" + ListBody(gaps) == pre + "Knowledge Gaps:";
      EmptyListField(pre, "Knowledge Gaps:", BeforeWordLabel);
    } else {
      var s := pre + "Knowledge Gaps:" + "\n" + Bullets(gaps);
      assert pre + "Knowledge Gaps:" + ListBody(gaps) == s + [];
      ListField(pre, "Knowledge Gaps:", BeforeWordLabel, gaps, []);
      BulletsItems(gaps);
    }
  }

  lemma RenderedGaps(e: Evaluation)
    requires Renderable(e) && e.gaps.Some? && e.tips != []
    ensures ListOf(Render(e), GapsPattern, MaxGaps) == e.gaps.value
  {
    GapsHeadHoldsNoGapsLabel(e);
    RegroupGaps(Head(e), Bullets(e.tips), ListBody(e.gaps.value));
    GapsAfter(GapsHead(e), e.gaps.value);
  }

  /** The technical parser reads back every record with at least one tip
      that it could have produced from a reply in the prompted format. */
  lemma TechRoundTrip(e: Evaluation)
    requires Renderable(e) && e.gaps.Some? && e.tips != []
    ensures ParseTech(Render(e)) == e
  {
    RenderedScore(e);
    RenderedFeedback(e);
    RenderedTechTips(e);
    RenderedGaps(e);
  }

  /** Feedback that runs to the end of the reply, because the tips label
      never follows it, is read whole. */
  lemma FeedbackToEnd(pre: string, body: string)
    requires !Contains(pre, "Feedback:") && (pre == [] || pre[|pre| - 1] == '\n')
    requires body != [] && !IsSpace(body[0]) && !IsSpace(body[|body| - 1])
    requires !Contains(body, "Improvement Tips:")
    ensures FeedbackOf(pre + "Feedback: " + body) == body
  {
    var s := pre + "Feedback: " + body;
    var p := |pre|;
    FeedbackToEndMatch(pre, body);
    assert s[..p] == pre;
    assert Search(s, FeedbackPattern) == Some(Match(p, body)) by {
      NoOccurrenceBefore(s, pre, "Feedback:");
      SearchFinds(s, p, FeedbackPattern, body);
    }
    CleanIffStripped(body);
  }

  /** The feedback pattern tried where the label starts captures the
      rest of the text. */
  lemma FeedbackToEndMatch(pre: string, body: string)
    requires body != [] && !IsSpace(body[0]) && body[|body| - 1] != '\n'
    requires !Contains(body, "Improvement Tips:")
    ensures MatchAt(pre + "Feedback: " + body, |pre|, FeedbackPattern) == Some(body)
  {
    var s := pre + "Feedback: " + body;
    var p := |pre|;
    var j := p + 10;
    var t := "Improvement Tips:";
    assert s[p..p + 9] == "Feedback:";
    assert s[p + 9] == ' ' && s[j] == body[0];
    assert s[j..] == body;
    assert s[|s| - 1] == body[|body| - 1];
    NoMarkerInTail(s, j, t);
    assert "\n" + t == "\nImprovement Tips:";
    SectionMatch(s, p, "Feedback:", Before("\nImprovement Tips:"), |s|);
    assert s[j..|s|] == body;
  }

  /** A technical reply without the tips section: the score and feedback
      lines, then the gaps section. */
  function WithoutTips(e: Evaluation): string
    requires e.gaps.Some?
  {
    Head(e) + "Knowledge Gaps:" + ListBody(e.gaps.value)
  }

  /** The gaps section holds no tips label and does not end in white space. */
  lemma GapsSectionShape(gaps: seq<string>)
    requires |gaps| <= MaxGaps && forall k :: 0 <= k < |gaps| ==> PlainItem(gaps[k])
    ensures var kg := "Knowledge Gaps:" + ListBody(gaps);
      !Contains(kg, "Improvement Tips:") && !IsSpace(kg[|kg| - 1])
  {
    var it := "Improvement Tips:";
    var heading := "Knowledge Gaps:";
    var kg := heading + ListBody(gaps);
    assert !Contains(heading, it) by {
      forall i | 0 <= i < |heading|
        ensures heading[i] != 'I'
      {
      }
      NoContainsPrefixed(heading, [], it);
      assert heading + [] == heading;
    }
    if gaps != [] {
      assert kg == heading + "\n" + Bullets(gaps);
      assert !Contains(kg, it) by {
        BulletsShape(gaps);
        NoContainsAround(heading, Bullets(gaps), it);
      }
      BulletsLast(gaps);
    } else {
      assert kg == heading + [];
    }
  }

  /** A bulleted list of plain items does not end in white space. */
  lemma {:induction false} BulletsLast(items: seq<string>)
    requires items != [] && forall k :: 0 <= k < |items| ==> PlainItem(items[k])
    ensures var b := Bullets(items); b != [] && !IsSpace(b[|b| - 1])
    decreases |items|
  {
    var lines := DashLines(items);
    var head := "- " + items[0];
    if |items| == 1 {
      assert Bullets(items) == head;
      assert head[|head| - 1] == items[0][|items[0]| - 1];
    } else {
      BulletsLast(items[1..]);
      assert lines[1..] == DashLines(items[1..]);
      var rest := Bullets(items[1..]);
      var b := head + "\n" + rest;
      assert Bullets(items) == b;
      assert b[|b| - 1] == rest[|rest| - 1];
    }
  }

  /** A reply that starts with the score line has that score, whatever
      follows. */
  lemma ScoreFirst(e: Evaluation, rest: string)
    requires Renderable(e)
    ensures !ScoreOverflows(Head(e) + rest) && ScoreOf(Head(e) + rest) == e.score
  {
    var score := ScoreLine(e.score);
    var s := Head(e) + rest;
    assert s == score + s[|score|..];
    ScoreDigitsAtStart(DecimalDigits(e.score), s[|score|..]);
    DecimalRoundTrip(e.score);
  }

  lemma SwallowedFeedback(e: Evaluation)
    requires Renderable(e) && e.gaps.Some?
    ensures FeedbackOf(WithoutTips(e)) == e.feedback + "\n" + "Knowledge Gaps:" + ListBody(e.gaps.value)
  {
    var it := "Improvement Tips:";
    var kg := "Knowledge Gaps:" + ListBody(e.gaps.value);
    var score := ScoreLine(e.score);
    var pre := score + "\n";
    var body := e.feedback + "\n" + kg;
    assert !Contains(pre, "Feedback:") by {
      ScoreLineHoldsNoLabel(e.score);
      NoContainsAround(score, [], "Feedback:");
      assert score + "\n" + [] == pre;
    }
    assert !Contains(body, it) && !IsSpace(body[|body| - 1]) by {
      GapsSectionShape(e.gaps.value);
      NoContainsAround(e.feedback, kg, it);
      assert body[|body| - 1] == kg[|kg| - 1];
    }
    SplitAtFeedback(score, "\n", "Feedback: ", e.feedback, "Knowledge Gaps:", ListBody(e.gaps.value));
    assert WithoutTips(e) == pre + "Feedback: " + body;
    FeedbackToEnd(pre, body);
  }

  /** The regrouping that cuts a reply without tips at the feedback label. */
  lemma SplitAtFeedback(score: string, nl: string, tag: string, feedback: string, heading: string, list: string)
    ensures score + nl + (tag + feedback) + nl + heading + list
         == score + nl + tag + (feedback + nl + (heading + list))
    ensures feedback + nl + (heading + list) == feedback + nl + heading + list
  {
  }

  lemma TipsAbsent(e: Evaluation)
    requires Renderable(e) && e.gaps.Some?
    ensures !Contains(WithoutTips(e), "Improvement Tips:")
  {
    var it := "Improvement Tips:";
    var kg := "Knowledge Gaps:" + ListBody(e.gaps.value);
    GapsSectionShape(e.gaps.value);
    LinesHoldNoListLabel(e, it);
    NoContainsAround(Lines(e), kg, it);
    assert WithoutTips(e) == Lines(e) + "\n" + kg;
  }

  lemma GapsStillRead(e: Evaluation)
    requires Renderable(e) && e.gaps.Some?
    ensures ListOf(WithoutTips(e), GapsPattern, MaxGaps) == e.gaps.value
  {
    HeadHoldsNoListLabel(e, "Knowledge Gaps:");
    GapsAfter(Head(e), e.gaps.value);
  }

  /** When the tips label is missing, the feedback pattern finds no stop
      before the end, so the gaps section is read twice: as the tail of the
      feedback and as the gaps. */
  lemma FeedbackSwallowsGaps(e: Evaluation)
    requires Renderable(e) && e.gaps.Some?
    ensures ParseTech(WithoutTips(e))
         == Evaluation(e.score, e.feedback + "\n" + "Knowledge Gaps:" + ListBody(e.gaps.value), [], e.gaps)
  {
    var s := WithoutTips(e);
    ScoreFirst(e, "Knowledge Gaps:" + ListBody(e.gaps.value));
    assert s == Head(e) + ("Knowledge Gaps:" + ListBody(e.gaps.value));
    SwallowedFeedback(e);
    TipsAbsent(e);
    AbsentLabelKeepsDefault(s);
    GapsStillRead(e);
  }
}
