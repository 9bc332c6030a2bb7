/** Question generation (hr.py `HRInterview.generate_questions`, tech.py
    `TechnicalInterview.generate_questions`): the language model's reply
    is cut into lines, the numbered lines are kept, their "N. " markers
    are dropped, and the first `count` survive. Only a failed call falls
    back to the fixed list; a reply without numbered lines yields none. */
module Questions {
  import opened Common
  import opened Text

  /** The `num_questions` both callers leave at its default. */
  const DefaultCount: nat := 5

  const HrFallback: seq<string> := [
    "Tell me about a time you resolved a conflict in your team",
    "Describe a situation where you had to adapt to major changes",
    "Give an example of how you handled a difficult coworker",
    "Share an experience where you demonstrated leadership",
    "How do you prioritize when working on multiple projects?"
  ]

  const TechFallback: seq<string> := [
    "Explain the time complexity of quicksort and when you'd use it",
    "Design a URL shortening service like bit.ly",
    "Write a function to detect cycles in a linked list",
    "How would you optimize database queries for a high-traffic app?",
    "Explain the CAP theorem with examples"
  ]

  /** A stripped line that is kept: non-empty and starting with a digit. */
  predicate Numbered(line: string)
  {
    line != [] && IsDigit(line[0])
  }

  /** The question a kept line yields: the stripped text after its first
      ". " when it has one, otherwise the whole line, stripped. */
  function QuestionOf(line: string): string
  {
    match Find(line, ". ", 0)
    case Some(p) => Strip(line[p + 2..])
    case None => Strip(line)
  }

  /** What one raw line contributes: its question when its stripped form
      is numbered, nothing otherwise. */
  function LineQuestion(raw: string): seq<string>
  {
    var line := Strip(raw);
    if Numbered(line) then [QuestionOf(line)] else []
  }

  /** The questions of a sequence of raw lines, in order. */
  function QuestionsOfLines(lines: seq<string>): seq<string>
  {
    FlatMap(LineQuestion, lines)
  }

  /** Every question the content holds, before truncation. */
  function Extract(content: string): seq<string>
  {
    QuestionsOfLines(Split(content, '\n'))
  }

  /** The `try` body of generate_questions: `questions[:num_questions]`. */
  function Parse(content: string, count: nat): (qs: seq<string>)
    ensures |qs| <= count
    ensures |qs| <= |Extract(content)| && qs == Extract(content)[..|qs|]
    ensures |qs| == count || qs == Extract(content)
  {
    Take(Extract(content), count)
  }

  /** generate_questions given the outcome of the model call. */
  function Generate(reply: Reply, count: nat, fallback: seq<string>): (qs: seq<string>)
    ensures reply.Raised? ==> qs == fallback
    ensures reply.Ok? ==> |qs| == Min(count, |Extract(reply.text)|) && qs == Extract(reply.text)[..|qs|]
  {
    match reply
    case Ok(content) => Parse(content, count)
    case Raised(_) => fallback
  }

  /** HRInterview.generate_questions(domain) as the wizard calls it. */
  function GenerateHr(reply: Reply): (qs: seq<string>)
    ensures reply.Raised? ==> qs == HrFallback && |qs| == 5
    ensures reply.Ok? ==> |qs| == Min(DefaultCount, |Extract(reply.text)|) && qs == Extract(reply.text)[..|qs|]
  {
    Generate(reply, DefaultCount, HrFallback)
  }

  /** TechnicalInterview.generate_questions(domain) as the wizard calls it. */
  function GenerateTech(reply: Reply): (qs: seq<string>)
    ensures reply.Raised? ==> qs == TechFallback && |qs| == 5
    ensures reply.Ok? ==> |qs| == Min(DefaultCount, |Extract(reply.text)|) && qs == Extract(reply.text)[..|qs|]
  {
    Generate(reply, DefaultCount, TechFallback)
  }

  // ---------------------------------------------------------------------
  // Laws

  /** A newline separates the questions of the text before it from those
      of the text after it. */
  lemma ExtractAround(a: string, b: string)
    ensures Extract(a + "\n" + b) == Extract(a) + Extract(b)
  {
    SplitAround(a, b, '\n');
    FlatMapAppend(LineQuestion, Split(a, '\n'), Split(b, '\n'));
  }

  /** A single line yields its question when its stripped form starts
      with a digit, and nothing otherwise. */
  lemma ExtractLine(line: string)
    requires '\n' !in line
    ensures Extract(line) == (if Numbered(Strip(line)) then [QuestionOf(Strip(line))] else [])
  {
    SplitSingle(line, '\n');
    assert FlatMap(LineQuestion, [line]) == LineQuestion(line) + FlatMap(LineQuestion, [line][1..]);
    assert [line][1..] == [];
  }

  /** A reply without any numbered line yields no questions at all: the
      fixed list is not substituted. */
  lemma {:induction false} NoNumberedLinesNoQuestions(lines: seq<string>)
    requires forall k :: 0 <= k < |lines| ==> !Numbered(Strip(lines[k]))
    ensures QuestionsOfLines(lines) == []
  {
    if lines != [] {
      NoNumberedLinesNoQuestions(lines[1..]);
    }
  }

  /** In particular an empty reply gives an empty list for either round. */
  lemma EmptyReplyNoQuestions()
    ensures GenerateHr(Ok("")) == [] && GenerateTech(Ok("")) == []
  {
    assert Split("", '\n') == [""];
    NoNumberedLinesNoQuestions([""]);
  }

  /** The marker "N. " in front of a clean question is dropped. */
  lemma QuestionOfNumbered(d: string, q: string)
    requires d != [] && AllDigits(d)
    requires Clean(q)
    ensures QuestionOf(d + ". " + q) == q
  {
    var line := d + ". " + q;
    assert line[|d|..|d| + 2] == ". ";
    assert OccursAt(line, |d|, ". ");
    forall p | 0 <= p < |d|
      ensures !OccursAt(line, p, ". ")
    {
      assert line[p] == d[p];
      assert IsDigit(line[p]);
      assert p + 2 <= |line| ==> line[p..p + 2][0] == line[p];
    }
    var r := Find(line, ". ", 0);
    assert r.Some?;
    assert r.value == |d|;
    assert line[|d| + 2..] == q;
    CleanIffStripped(q);
  }

  /** A numbered line "N. q" of the rendered list. */
  function NumberedLine(n: nat, q: string): string
  {
    DecimalDigits(n) + ". " + q
  }

  /** The numbered list a well-behaved reply holds: "1. q1\n2. q2\n...". */
  function NumberedLines(qs: seq<string>, first: nat): (lines: seq<string>)
    ensures |lines| == |qs|
    ensures forall k :: 0 <= k < |qs| ==> lines[k] == NumberedLine(first + k, qs[k])
    decreases |qs|
  {
    if qs == [] then [] else [NumberedLine(first, qs[0])] + NumberedLines(qs[1..], first + 1)
  }

  /** Parsing a numbered list of clean one-line questions recovers the
      questions, in order, for any count at least their number. */
  lemma {:induction false} ParseNumberedList(qs: seq<string>, count: nat)
    requires qs != [] && |qs| <= count
    requires forall k :: 0 <= k < |qs| ==> Clean(qs[k]) && '\n' !in qs[k]
    ensures Parse(Join(NumberedLines(qs, 1), '\n'), count) == qs
  {
    var lines := NumberedLines(qs, 1);
    forall k | 0 <= k < |lines|
      ensures '\n' !in lines[k]
    {
      assert lines[k] == DecimalDigits(1 + k) + ". " + qs[k];
    }
    SplitJoin(lines, '\n');
    QuestionsOfNumbered(lines, qs, 1);
  }

  /** A numbered line of clean text contributes exactly that text. */
  lemma LineQuestionNumbered(d: string, q: string)
    requires d != [] && AllDigits(d)
    requires Clean(q)
    ensures LineQuestion(d + ". " + q) == [q]
  {
    var line := d + ". " + q;
    assert !IsSpace(line[0]);
    assert line[|line| - 1] == q[|q| - 1];
    CleanIffStripped(line);
    assert Numbered(line);
    QuestionOfNumbered(d, q);
    assert QuestionOf(line) == q;
    assert LineQuestion(line) == [QuestionOf(Strip(line))];
  }

  lemma {:induction false} QuestionsOfNumbered(lines: seq<string>, qs: seq<string>, first: nat)
    requires lines == NumberedLines(qs, first)
    requires forall k :: 0 <= k < |qs| ==> Clean(qs[k])
    ensures QuestionsOfLines(lines) == qs
    decreases |qs|
  {
    if qs != [] {
      var head := NumberedLine(first, qs[0]);
      var rest := NumberedLines(qs[1..], first + 1);
      assert lines == [head] + rest;
      assert LineQuestion(head) == [qs[0]] by {
        LineQuestionNumbered(DecimalDigits(first), qs[0]);
      }
      assert QuestionsOfLines(rest) == qs[1..] by {
        QuestionsOfNumbered(rest, qs[1..], first + 1);
      }
      QuestionsOfCons(head, rest, qs[0], qs[1..]);
      assert [qs[0]] + qs[1..] == qs;
    }
  }

  /** The questions of a line followed by more lines. */
  lemma QuestionsOfCons(head: string, rest: seq<string>, q: string, more: seq<string>)
    requires LineQuestion(head) == [q] && QuestionsOfLines(rest) == more
    ensures QuestionsOfLines([head] + rest) == [q] + more
  {
    var lines := [head] + rest;
    FlatMapCons(LineQuestion, lines);
    assert lines[0] == head && lines[1..] == rest;
  }
}
