/** The career-assistant chat page (chatbot.py `chatbot_page`): the reply
    of the language model is cleaned of markup, replaced by a fixed refusal
    when it reads as off-topic, and logged after the user's message in a
    history that starts with one system message. The model call itself is
    a `Reply` parameter. */
module Chatbot {
  import opened Common
  import opened Text

  const SystemPrompt: string :=
    "You are a professional career assistant that only answers questions about: "
    + "1. Job search strategies and techniques "
    + "2. Study methods and educational topics "
    + "3. Interview preparation and techniques "
    + "4. Resume and cover letter writing "
    + "5. Career development and advancement "
    + "6. Workplace skills and professional growth "
    + "7. Technical skills for specific job roles "
    + "8. Salary negotiation and benefits "
    + "9. Networking and professional relationships "
    + "10. Industry trends and insights "
    + "For any other topics, respond with: "
    + "'I specialize in career and education-related topics. "
    + "How can I help you with job search, studies, or interview preparation?' "
    + "Never use asterisks (*) or markdown formatting in responses. "
    + "Provide clear, concise answers without bullet points or numbered lists."

  /** The reply that replaces an off-topic answer. */
  const Refusal: string := RefusalOpening + RefusalSubject + RefusalMiddle + RefusalEnd
  const RefusalOpening: string := "I specialize in career "
  const RefusalSubject: string := "and education-related "
  const RefusalMiddle: string := "topics. How can I help you with job search, "
  const RefusalEnd: string := "studies, or interview preparation?"


  /** What the user sees when the model call raises: this text, the
      exception's message, and a closing parenthesis. */
  const ErrorPrefix: string := "Error processing your request. Please try again later. ("

  /** Phrases that mark a reply as off-topic, matched in its lower-cased form. */
  const OffTopicKeywords: seq<string> := ["sorry", "can't help", "don't know", "not qualified", "not my area"]

  // ---------------------------------------------------------------------
  // Cleaning

  /** Where a match of `\d+\.\s` that starts at `i` ends, if there is one.
      A shorter run of digits cannot help, since a digit is not a dot. */
  function NumberingAt(s: string, i: nat): (e: Option<nat>)
    requires i <= |s|
    ensures e.Some? ==> i + 3 <= e.value <= |s| && s[e.value - 2] == '.' && IsSpace(s[e.value - 1])
    ensures e.Some? ==> forall m :: i <= m < e.value - 2 ==> IsDigit(s[m])
    ensures forall m {:trigger Digits(s, i, m)} :: i < m && m + 1 < |s| && Digits(s, i, m) && s[m] == '.' && IsSpace(s[m + 1]) ==>
      e == Some(m + 2)
  {
    DigitRunEndsAtDot(s, i);
    var k := RunEnd(s, i, Digit);
    if i < k && k + 1 < |s| && s[k] == '.' && IsSpace(s[k + 1]) then Some(k + 2) else None
  }

  /** `s[i..m]` is all digits. */
  predicate Digits(s: string, i: nat, m: nat)
    requires i <= m <= |s|
  {
    forall j :: i <= j < m ==> IsDigit(s[j])
  }

  /** A run of digits from `i` followed by a dot ends at that dot. */
  lemma DigitRunEndsAtDot(s: string, i: nat)
    requires i <= |s|
    ensures forall m {:trigger Digits(s, i, m)} :: i < m < |s| && Digits(s, i, m) && s[m] == '.' ==> RunEnd(s, i, Digit) == m
  {
    forall m | i < m < |s| && Digits(s, i, m) && s[m] == '.' {
      RunEndIs(s, i, Digit, m);
    }
  }

  /** The characters a numbering marker is made of: digits, the dot and
      white space. */
  const MarkerChars: set<char> := (set c: char | '0' <= c <= '9') + {'.'} + Whitespace

  /** `re.sub(r'\d+\.\s', '', s)`: one pass from left to right that drops
      each leftmost, non-overlapping match. What remains is a subsequence
      of `s` that keeps every character a marker cannot contain, in order. */
  function StripNumbering(s: string): (r: string)
    ensures |r| <= |s|
    ensures forall x :: x in r ==> x in s
    ensures Subsequence(r, s)
    ensures Without(r, MarkerChars) == Without(s, MarkerChars)
    decreases |s|
  {
    if s == [] then []
    else match NumberingAt(s, 0)
      case Some(e) =>
        var r := StripNumbering(s[e..]);
        MarkerCharsOnly(s, e);
        DropIgnored(s, r, e, MarkerChars);
        r
      case None =>
        var r := StripNumbering(s[1..]);
        KeepFirst(s, r, MarkerChars);
        [s[0]] + r
  }

  /** A marker at the start of `s` is made of marker characters. */
  lemma MarkerCharsOnly(s: string, e: nat)
    requires NumberingAt(s, 0) == Some(e)
    ensures forall i :: 0 <= i < e ==> s[i] in MarkerChars
  {
    forall i | 0 <= i < e
      ensures s[i] in MarkerChars
    {
      assert IsDigit(s[i]) || s[i] == '.' || IsSpace(s[i]);
    }
  }

  /** The three substitutions applied to a successful reply, in order:
      asterisks, bullet characters, list numbering. */
  function CleanReply(text: string): (r: string)
    ensures '*' !in r && '•' !in r
    ensures forall x :: x in r ==> x in text
    ensures Subsequence(r, text)
    ensures Without(r, CleanedChars) == Without(text, CleanedChars)
  {
    var stars := DeleteAll(text, "*");
    var bullets := DeleteAll(stars, "•");
    var r := StripNumbering(bullets);
    CleanSteps(text, stars, bullets, r);
    r
  }

  /** The three substitutions, each a removal of its own characters, add
      up to a removal of the characters of all three. */
  lemma CleanSteps(text: string, stars: string, bullets: string, r: string)
    requires Subsequence(stars, text) && Without(stars, Chars("*")) == Without(text, Chars("*"))
    requires Subsequence(bullets, stars) && Without(bullets, Chars("•")) == Without(stars, Chars("•"))
    requires Subsequence(r, bullets) && Without(r, MarkerChars) == Without(bullets, MarkerChars)
    ensures Subsequence(r, text) && Without(r, CleanedChars) == Without(text, CleanedChars)
  {
    SubsequenceTrans(bullets, stars, text);
    SubsequenceTrans(r, bullets, text);
    ThreeStepsAgree(text, stars, bullets, r, Chars("*"), Chars("•"), MarkerChars);
    assert Chars("*") + Chars("•") + MarkerChars == CleanedChars by {
      assert Chars("*") == {'*'};
      assert Chars("•") == {'•'};
    }
  }

  /** Every character the cleaning may take out: '*', '•' and the
      characters of a numbering marker. */
  const CleanedChars: set<char> := {'*', '•'} + MarkerChars

  /** `any(keyword in reply.lower() for keyword in off_topic_keywords)`. */
  predicate OffTopic(reply: string)
  {
    exists k :: 0 <= k < |OffTopicKeywords| && Contains(Lower(reply), OffTopicKeywords[k])
  }

  /** The assistant's entry for one user message, given the outcome of the
      model call. */
  function Respond(reply: Reply): (r: string)
    ensures reply.Ok? ==> '*' !in r && '•' !in r
    ensures reply.Ok? ==> (r == Refusal || r == CleanReply(reply.text))
    ensures reply.Ok? && OffTopic(CleanReply(reply.text)) ==> r == Refusal
    ensures reply.Ok? && !OffTopic(CleanReply(reply.text)) ==> r == CleanReply(reply.text)
    ensures reply.Raised? ==> |r| > |ErrorPrefix| && r[..|ErrorPrefix|] == ErrorPrefix && r[|r| - 1] == ')'
    ensures reply.Raised? ==> r[|ErrorPrefix|..|r| - 1] == reply.message
  {
    match reply
    case Ok(text) =>
      var clean := CleanReply(text);
      RefusalPlain();
      if OffTopic(clean) then Refusal else clean
    case Raised(message) => ErrorPrefix + message + ")"
  }

  /** The refusal holds neither character the cleaning removes. */
  lemma RefusalPlain()
    ensures '*' !in Refusal && '•' !in Refusal
  {
    RefusalOpeningPlain();
    RefusalSubjectPlain();
    RefusalMiddlePlain();
    RefusalEndPlain();
  }

  lemma RefusalOpeningPlain()
    ensures '*' !in RefusalOpening && '•' !in RefusalOpening
  {
  }

  lemma RefusalSubjectPlain()
    ensures '*' !in RefusalSubject && '•' !in RefusalSubject
  {
  }

  lemma RefusalMiddlePlain()
    ensures '*' !in RefusalMiddle && '•' !in RefusalMiddle
  {
  }

  lemma RefusalEndPlain()
    ensures '*' !in RefusalEnd && '•' !in RefusalEnd
  {
  }

  // ---------------------------------------------------------------------
  // Laws of cleaning

  /** A leading "N. " marker is dropped whole, whatever its number. */
  lemma NumberMarkerDropped(d: string, x: string)
    requires d != [] && AllDigits(d)
    ensures StripNumbering(d + ". " + x) == StripNumbering(x)
  {
    var s := d + ". " + x;
    RunEndIs(s, 0, Digit, |d|);
    assert NumberingAt(s, 0) == Some(|d| + 2);
    assert s[|d| + 2..] == x;
  }

  /** Text without digits passes the numbering substitution unchanged. */
  lemma {:induction false} NoDigitsUnchanged(s: string)
    requires forall i :: 0 <= i < |s| ==> !IsDigit(s[i])
    ensures StripNumbering(s) == s
    decreases |s|
  {
    if s != [] {
      RunEndIs(s, 0, Digit, 0);
      NoDigitsUnchanged(s[1..]);
      assert [s[0]] + s[1..] == s;
    }
  }

  /** The substitution makes a single pass: removing "b. " from
      "a.b.  " (with digits `a`, `b` and white space `w` for the spaces)
      brings "a." next to a space, and that new marker stays. */
  lemma SinglePass(a: char, b: char, w: char)
    requires IsDigit(a) && IsDigit(b) && IsSpace(w)
    ensures StripNumbering([a, '.', b, '.', w, w]) == [a, '.', w]
    ensures NumberingAt([a, '.', w], 0) == Some(3)
  {
    var t := ['.', b, '.', w, w];
    LeadingDigitKept(a, t);
    assert [a] + t == [a, '.', b, '.', w, w];
    AfterFirstDigit(b, w);
    assert [a] + ['.', w] == [a, '.', w];
    RunEndIs([a, '.', w], 0, Digit, 1);
  }

  /** A digit followed by a dot that is not followed by white space starts
      no marker, so it is kept. */
  lemma LeadingDigitKept(a: char, t: string)
    requires IsDigit(a) && |t| >= 2 && t[0] == '.' && !IsSpace(t[1])
    ensures StripNumbering([a] + t) == [a] + StripNumbering(t)
  {
    var s := [a] + t;
    RunEndIs(s, 0, Digit, 1);
    assert s[1..] == t;
    KeptFirst(s, StripNumbering(t));
  }

  /** The rest of `SinglePass`: ".b.  " keeps its dot and loses "b. ". */
  lemma AfterFirstDigit(b: char, w: char)
    requires IsDigit(b) && IsSpace(w)
    ensures StripNumbering(['.', b, '.', w, w]) == ['.', w]
  {
    var t := ['.', b, '.', w, w];
    MarkerThenSpace(b, w);
    RunEndIs(t, 0, Digit, 0);
    assert t[1..] == [b, '.', w, w];
    KeptFirst(t, [w]);
  }

  /** "b.  " is a marker followed by one white-space character. */
  lemma MarkerThenSpace(b: char, w: char)
    requires IsDigit(b) && IsSpace(w)
    ensures StripNumbering([b, '.', w, w]) == [w]
  {
    var u := [b, '.', w, w];
    RunEndIs([w], 0, Digit, 0);
    assert [w][1..] == [];
    KeptFirst([w], []);
    RunEndIs(u, 0, Digit, 1);
    assert u[3..] == [w];
    SkippedMarker(u, 3, [w]);
  }

  /** Without a marker at its start, the first character is kept. */
  lemma KeptFirst(s: string, r: string)
    requires s != [] && NumberingAt(s, 0).None? && StripNumbering(s[1..]) == r
    ensures StripNumbering(s) == [s[0]] + r
  {
  }

  /** A marker at the start is dropped whole. */
  lemma SkippedMarker(s: string, e: nat, r: string)
    requires s != [] && NumberingAt(s, 0) == Some(e) && StripNumbering(s[e..]) == r
    ensures StripNumbering(s) == r
  {
  }

  /** An on-topic reply without asterisks, bullets or digits is shown as
      the model wrote it. */
  lemma PlainReplyKept(text: string)
    requires '*' !in text && '•' !in text
    requires forall i :: 0 <= i < |text| ==> !IsDigit(text[i])
    requires !OffTopic(text)
    ensures Respond(Ok(text)) == text
  {
    DeleteAbsent(text, "*");
    DeleteAbsent(text, "•");
    NoDigitsUnchanged(text);
  }

  /** Every off-topic reply collapses to the same refusal. */
  lemma OffTopicReplaced(a: string, b: string)
    ensures OffTopic(CleanReply(a)) && OffTopic(CleanReply(b)) ==>
      Respond(Ok(a)) == Respond(Ok(b)) == Refusal
  {
  }

  // ---------------------------------------------------------------------
  // History

  datatype Role = System | User | Assistant

  datatype Message = Message(role: Role, content: string)

  const SystemMessage := Message(System, SystemPrompt)

  /** The history a session ever holds: the system message, then user and
      assistant entries in alternation, ending with an assistant entry. */
  predicate WellFormed(h: seq<Message>)
  {
    |h| % 2 == 1 && h[0] == SystemMessage &&
    forall k :: 1 <= k < |h| ==> h[k].role == (if k % 2 == 1 then User else Assistant)
  }

  /** The history as the page finds it: seeded with the system message
      the first time the page runs, kept as it is afterwards. */
  function Seeded(history: Option<seq<Message>>): (h: seq<Message>)
    ensures history.None? ==> h == [SystemMessage]
    ensures history.Some? ==> h == history.value
  {
    match history
    case None => [SystemMessage]
    case Some(h) => h
  }

  /** One run of the chat page: an empty input leaves the history as it
      finds it, any other input adds the user's entry and then the
      assistant's. */
  function ChatTurn(history: Option<seq<Message>>, input: string, reply: Reply): (h: seq<Message>)
    ensures |Seeded(history)| <= |h| && h[..|Seeded(history)|] == Seeded(history)
    ensures input == [] ==> h == Seeded(history)
    ensures input != [] ==>
              |h| == |Seeded(history)| + 2 &&
              h[|h| - 2] == Message(User, input) && h[|h| - 1] == Message(Assistant, Respond(reply))
  {
    var seeded := Seeded(history);
    if input == [] then seeded
    else seeded + [Message(User, input), Message(Assistant, Respond(reply))]
  }

  /** The entries the page shows: everything after the system message. */
  function Shown(h: seq<Message>): (r: seq<Message>)
    requires h != []
    ensures |r| == |h| - 1 && forall k :: 0 <= k < |r| ==> r[k] == h[k + 1]
  {
    h[1..]
  }

  /** A run of the page keeps the history well formed, from its first run on. */
  lemma ChatTurnWellFormed(history: Option<seq<Message>>, input: string, reply: Reply)
    requires history.Some? ==> WellFormed(history.value)
    ensures WellFormed(ChatTurn(history, input, reply))
  {
    if input != [] {
      var user, assistant := Message(User, input), Message(Assistant, Respond(reply));
      assert ChatTurn(history, input, reply) == Seeded(history) + [user, assistant];
      ExchangeWellFormed(Seeded(history), user, assistant);
    }
  }

  /** A well-formed history stays well formed when one user entry and
      one assistant entry are added. */
  lemma ExchangeWellFormed(h: seq<Message>, user: Message, assistant: Message)
    requires WellFormed(h) && user.role == User && assistant.role == Assistant
    ensures WellFormed(h + [user, assistant])
  {
    var h' := h + [user, assistant];
    forall k | 1 <= k < |h'|
      ensures h'[k].role == (if k % 2 == 1 then User else Assistant)
    {
      if k < |h| {
        assert h'[k] == h[k];
      }
    }
  }

  /** The shown entries of a well-formed history come in user-assistant
      pairs and never include the system message. */
  lemma ShownPairs(h: seq<Message>)
    requires WellFormed(h)
    ensures |Shown(h)| % 2 == 0
    ensures forall k :: 0 <= k < |Shown(h)| ==> Shown(h)[k].role != System
  {
  }
}
