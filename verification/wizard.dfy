/** The interview wizard of app.py (main.py is the same file): the session
    keys `initialize_session_state` fills in, the job-description checks,
    and one run of the script for each user action, dispatched on
    `current_round`. Every service the script calls (domain prediction,
    question generation, transcription, evaluation, the chat model) is a
    parameter of the action that triggers the call. */
module Wizard {
  import opened Common
  import opened Text
  import opened Questions
  import opened Evaluation
  import opened Chatbot

  /** `current_round`: `None` on the home page, otherwise the page shown. */
  datatype Round = Start | DomainConfirmation | DomainEdit | HrRound | TechRound | Dashboard | ChatbotPage

  /** One answered question of a round. */
  datatype Record = Record(question: string, answer: string, evaluation: Evaluation)

  /** The `results` dictionary. */
  datatype Results = Results(
    domain: string,
    hrQuestions: seq<string>,
    techQuestions: seq<string>,
    hrResults: seq<Record>,
    techResults: seq<Record>)

  /** The session with every key present. `audio` says whether
      `audio_data` holds a recording; the recording itself is never read
      back. */
  datatype Session = Session(
    results: Results,
    round: Round,
    idx: nat,
    audio: bool,
    show: bool,
    history: Option<seq<Message>>)

  /** `st.session_state` as the script finds it: any key may be missing. */
  datatype Store = Store(
    results: Option<Results>,
    round: Option<Round>,
    idx: Option<nat>,
    audio: Option<bool>,
    show: Option<bool>,
    history: Option<seq<Message>>)

  const EmptyResults := Results("", [], [], [], [])

  /** The store after "Start New Interview" deletes every key, and before
      the first run. */
  const Cleared := Store(None, None, None, None, None, None)

  /** The session a first run starts from. */
  const Fresh := Session(EmptyResults, Start, 0, false, false, None)

  // ---------------------------------------------------------------------
  // Session keys

  /** initialize_session_state: each missing key gets its default, and a
      key already present keeps its value. The chat history is not one of
      these keys; the chat page seeds it. */
  function Initialize(st: Store): (s: Session)
    ensures st.results.Some? ==> s.results == st.results.value
    ensures st.round.Some? ==> s.round == st.round.value
    ensures st.idx.Some? ==> s.idx == st.idx.value
    ensures st.audio.Some? ==> s.audio == st.audio.value
    ensures st.show.Some? ==> s.show == st.show.value
    ensures st.results.None? ==> s.results == Fresh.results
    ensures st.round.None? ==> s.round == Fresh.round
    ensures st.idx.None? ==> s.idx == Fresh.idx
    ensures st.audio.None? ==> s.audio == Fresh.audio
    ensures st.show.None? ==> s.show == Fresh.show
    ensures s.history == st.history
  {
    Session(
      if st.results.Some? then st.results.value else EmptyResults,
      if st.round.Some? then st.round.value else Start,
      if st.idx.Some? then st.idx.value else 0,
      if st.audio.Some? then st.audio.value else false,
      if st.show.Some? then st.show.value else false,
      st.history)
  }

  /** The store holding every key of a session. */
  function Save(s: Session): (st: Store)
    ensures st.results.Some? && st.round.Some? && st.idx.Some? && st.audio.Some? && st.show.Some?
  {
    Store(Some(s.results), Some(s.round), Some(s.idx), Some(s.audio), Some(s.show), s.history)
  }

  /** Initializing a store that holds every key overwrites nothing. */
  lemma InitializeKeepsSaved(s: Session)
    ensures Initialize(Save(s)) == s
  {
  }

  /** Initializing twice is initializing once. */
  lemma InitializeIdempotent(st: Store)
    ensures Initialize(Save(Initialize(st))) == Initialize(st)
  {
  }

  /** After every key is deleted, initializing gives the first-run session:
      empty domain and lists, the home page, index 0, nothing shown. */
  lemma ClearedStartsFresh()
    ensures Initialize(Cleared) == Fresh
    ensures var s := Initialize(Cleared);
      s.results == Results("", [], [], [], []) && s.round == Start && s.idx == 0 && !s.audio && !s.show && s.history.None?
  {
  }

  // ---------------------------------------------------------------------
  // Job-description checks

  /** The messages the home page can show instead of moving on. */
  datatype Notice =
    | EnterDescription      // blank description
    | TooFewWords           // fewer than five words
    | NoLetters             // no alphabetic character
    | TooShort              // fewer than thirty characters
    | NoDomain              // empty or "unknown" prediction
    | AnalysisFailed(message: string)

  const MinWords: nat := 5
  const MinLength: nat := 30

  predicate HasLetter(s: string)
  {
    exists i :: 0 <= i < |s| && IsAlpha(s[i])
  }

  /** The four checks, in the order the page applies them; `None` when the
      description passes all of them. */
  function Validate(jd: string): (n: Option<Notice>)
    ensures n.None? <==> Strip(jd) != [] && |Words(jd)| >= MinWords && HasLetter(jd) && |jd| >= MinLength
    ensures n == Some(EnterDescription) <==> Strip(jd) == []
    ensures n == Some(TooFewWords) <==> Strip(jd) != [] && |Words(jd)| < MinWords
    ensures n == Some(NoLetters) <==> Strip(jd) != [] && |Words(jd)| >= MinWords && !HasLetter(jd)
    ensures n == Some(TooShort) <==> Strip(jd) != [] && |Words(jd)| >= MinWords && HasLetter(jd) && |jd| < MinLength
  {
    if Strip(jd) == [] then Some(EnterDescription)
    else if |Words(jd)| < MinWords then Some(TooFewWords)
    else if !HasLetter(jd) then Some(NoLetters)
    else if |jd| < MinLength then Some(TooShort)
    else None
  }

  /** The blank check only chooses the message: a blank description has no
      words, so the word count would reject it too. */
  lemma BlankHasTooFewWords(jd: string)
    requires forall i :: 0 <= i < |jd| ==> IsSpace(jd[i])
    ensures |Words(jd)| < MinWords
  {
    StripEmptyIffBlank(jd);
    NoWordsIffBlank(jd);
  }

  /** What the home page makes of a description and of the prediction made
      for it. */
  datatype Analysis = Rejected(notice: Notice) | Identified(domain: string)

  /** The analysis behind "Analyze Job Description": the prediction is
      consulted only for a description that passes the checks, and an
      empty or "unknown" prediction identifies nothing. */
  function Analyze(jd: string, prediction: Reply): (a: Analysis)
    ensures Validate(jd).Some? ==> a == Rejected(Validate(jd).value)
    ensures a.Identified? <==> Validate(jd).None? && prediction.Ok? && prediction.text != [] && Lower(prediction.text) != "unknown"
    ensures a.Identified? ==> a.domain == prediction.text
    ensures Validate(jd).None? && prediction.Raised? ==> a == Rejected(AnalysisFailed(prediction.message))
  {
    match Validate(jd)
    case Some(n) => Rejected(n)
    case None =>
      match prediction
      case Raised(message) => Rejected(AnalysisFailed(message))
      case Ok(domain) =>
        if domain == [] || Lower(domain) == "unknown" then Rejected(NoDomain) else Identified(domain)
  }

  /** A description that fails a check never reaches the predictor: the
      outcome is the same whatever the prediction would have been. */
  lemma RejectedIgnoresPrediction(jd: string, p: Reply, q: Reply)
    requires Validate(jd).Some?
    ensures Analyze(jd, p) == Analyze(jd, q)
  {
  }

  /** "Unknown" in any letter case is no domain. */
  lemma UnknownIsNoDomain(jd: string, prediction: string)
    requires Validate(jd).None? && Lower(prediction) == "unknown"
    ensures Analyze(jd, Ok(prediction)) == Rejected(NoDomain)
  {
    assert |prediction| == |"unknown"|;
  }

  // ---------------------------------------------------------------------
  // One run of the script

  /** What the user does on the question screen during one run. */
  datatype Press =
    | NoPress
    | SubmitAnswer(transcript: string, verdict: Reply)   // the transcription, and the evaluator's reply
    | ReRecord

  /** The user action that triggers a run, with the outcome of every
      service the run calls. */
  datatype Event =
    | Idle                                                 // a run in which no button is pressed
    | AnalyzeDescription(jd: string, prediction: Reply)
    | ConfirmDomain(hrReply: Reply, techReply: Reply)
    | EditDomain
    | SubmitDomain(entry: string, hrReply: Reply, techReply: Reply)
    | Answer(recorded: bool, press: Press)                 // `recorded`: the recorder returned audio this run
    | NextQuestion
    | Continue                                             // on a completed round
    | StartNew
    | TalkToEvalia
    | Chat(input: string, reply: Reply)
    | BackToInterview

  /** `round_type.lower() == "technical"`: which pair of keys a round uses. */
  predicate TechnicalKeys(roundType: string)
  {
    Lower(roundType) == "technical"
  }

  function QuestionsFor(r: Results, technical: bool): seq<string>
  {
    if technical then r.techQuestions else r.hrQuestions
  }

  function RecordsFor(r: Results, technical: bool): seq<Record>
  {
    if technical then r.techResults else r.hrResults
  }

  /** The results with the records of one round replaced. */
  function WithRecords(r: Results, technical: bool, rs: seq<Record>): (r': Results)
    ensures RecordsFor(r', technical) == rs && RecordsFor(r', !technical) == RecordsFor(r, !technical)
    ensures r'.domain == r.domain && r'.hrQuestions == r.hrQuestions && r'.techQuestions == r.techQuestions
  {
    if technical then r.(techResults := rs) else r.(hrResults := rs)
  }

  /** The evaluator a round uses: HRInterview for exactly "HR", the
      technical one for anything else. */
  function Grade(roundType: string, verdict: Reply): (e: Evaluation)
    ensures roundType == "HR" ==> e.gaps.None?
    ensures roundType != "HR" ==> e.gaps.Some?
  {
    if roundType == "HR" then EvaluateHr(verdict) else EvaluateTech(verdict)
  }

  /** The fraction `st.progress(evaluation['score'] / 10)` is given. */
  function Progress(score: nat): real
  {
    score as real / 10.0
  }

  /** `st.progress` takes a fraction between 0.0 and 1.0 and raises for
      any other value. */
  predicate ProgressAccepts(v: real)
  {
    0.0 <= v <= 1.0
  }

  /** The progress bar of a shown score is drawn exactly when the score is
      at most 10. */
  lemma ProgressAcceptsIff(score: nat)
    ensures ProgressAccepts(Progress(score)) <==> score <= 10
  {
  }

  /** The screen after an answer is evaluated, drawn with `progress` as the
      progress bar's fraction: it reads the round's last record (an empty
      list raises), and a fraction `st.progress` refuses raises before the
      "Next Question" button is drawn. A raising run changes nothing. */
  function EvaluationScreen(s: Session, rs: seq<Record>, ev: Event, progress: nat -> real): (r: Session)
    ensures r.results == s.results && r.round == s.round && r.history == s.history
    ensures |rs| > 0 && ProgressAccepts(progress(rs[|rs| - 1].evaluation.score)) && ev.NextQuestion? ==>
      r == s.(idx := s.idx + 1, audio := false, show := false)
    ensures !(|rs| > 0 && ProgressAccepts(progress(rs[|rs| - 1].evaluation.score)) && ev.NextQuestion?) ==> r == s
  {
    if |rs| == 0 || !ProgressAccepts(progress(rs[|rs| - 1].evaluation.score)) then s
    else
      match ev
      case NextQuestion => s.(idx := s.idx + 1, audio := false, show := false)
      case _ => s
  }

  /** conduct_round: one run of an interview round, as app.py draws it. */
  function ConductRound(s: Session, roundType: string, ev: Event): (r: Session)
    ensures r.results.domain == s.results.domain
    ensures r.results.hrQuestions == s.results.hrQuestions && r.results.techQuestions == s.results.techQuestions
    ensures RecordsFor(r.results, !TechnicalKeys(roundType)) == RecordsFor(s.results, !TechnicalKeys(roundType))
    ensures var before, after := RecordsFor(s.results, TechnicalKeys(roundType)), RecordsFor(r.results, TechnicalKeys(roundType));
      after == before || (|after| == |before| + 1 && after[..|before|] == before)
    ensures r.history == s.history
  {
    RoundWith(s, roundType, ev, Progress)
  }

  /** conduct_round with the progress bar's fraction given by `progress`. */
  function RoundWith(s: Session, roundType: string, ev: Event, progress: nat -> real): (r: Session)
    ensures r.results.domain == s.results.domain
    ensures r.results.hrQuestions == s.results.hrQuestions && r.results.techQuestions == s.results.techQuestions
    ensures RecordsFor(r.results, !TechnicalKeys(roundType)) == RecordsFor(s.results, !TechnicalKeys(roundType))
    ensures var before, after := RecordsFor(s.results, TechnicalKeys(roundType)), RecordsFor(r.results, TechnicalKeys(roundType));
      after == before || (|after| == |before| + 1 && after[..|before|] == before)
    ensures r.history == s.history
  {
    var technical := TechnicalKeys(roundType);
    var qs := QuestionsFor(s.results, technical);
    var rs := RecordsFor(s.results, technical);
    if s.idx < |qs| then
      if !s.show then
        match ev
        case Answer(recorded, press) =>
          if !recorded then s
          else
            var held := s.(audio := true);
            (match press
             case NoPress => held
             case ReRecord => held.(audio := false)
             case SubmitAnswer(transcript, verdict) =>
               if transcript == [] then held
               else
                 var record := Record(qs[s.idx], transcript, Grade(roundType, verdict));
                 assert (rs + [record])[..|rs|] == rs;
                 held.(results := WithRecords(s.results, technical, rs + [record]), show := true))
        case _ => s
      else EvaluationScreen(s, rs, ev, progress)
    else
      match ev
      case Continue =>
        if roundType == "HR" then s.(round := TechRound, idx := 0, show := false)
        else s.(round := Dashboard)
      case _ => s
  }

  /** Submitting a transcribed answer to the question on screen appends
      exactly one record, for that question, graded by the round's
      evaluator, and shows its evaluation without moving on. */
  lemma SubmitAppendsRecord(s: Session, roundType: string, transcript: string, verdict: Reply)
    requires s.idx < |QuestionsFor(s.results, TechnicalKeys(roundType))| && !s.show && transcript != []
    ensures var technical := TechnicalKeys(roundType);
      var r := ConductRound(s, roundType, Answer(true, SubmitAnswer(transcript, verdict)));
      RecordsFor(r.results, technical) ==
        RecordsFor(s.results, technical) + [Record(QuestionsFor(s.results, technical)[s.idx], transcript, Grade(roundType, verdict))] &&
      r.show && r.idx == s.idx && r.round == s.round && r.audio
  {
  }

  /** A submission whose transcription is empty, or a run without a
      recording, changes nothing but the held recording. */
  lemma NothingToSubmit(s: Session, roundType: string, ev: Event)
    requires !s.show
    requires ev.Answer? && (!ev.recorded || ev.press.NoPress? || (ev.press.SubmitAnswer? && ev.press.transcript == []))
    ensures var r := ConductRound(s, roundType, ev);
      r.results == s.results && r.idx == s.idx && !r.show && r.round == s.round
  {
  }

  /** "Re-record" drops the held recording and nothing else. */
  lemma ReRecordDropsAudio(s: Session, roundType: string)
    requires s.idx < |QuestionsFor(s.results, TechnicalKeys(roundType))| && !s.show
    ensures ConductRound(s, roundType, Answer(true, ReRecord)) == s.(audio := false)
  {
  }

  /** "Next Question" moves to the following question with a clean
      screen, keeping every record. */
  lemma NextQuestionAdvances(s: Session, roundType: string)
    requires s.idx < |QuestionsFor(s.results, TechnicalKeys(roundType))| && s.show
    requires var rs := RecordsFor(s.results, TechnicalKeys(roundType)); |rs| > 0 && rs[|rs| - 1].evaluation.score <= 10
    ensures ConductRound(s, roundType, NextQuestion) == s.(idx := s.idx + 1, audio := false, show := false)
  {
    ProgressAcceptsIff(RecordsFor(s.results, TechnicalKeys(roundType))[|RecordsFor(s.results, TechnicalKeys(roundType))| - 1].evaluation.score);
  }

  /** A shown score above 10 makes `st.progress` raise on every run of the
      evaluation screen, so no event moves the round on: the session stays
      as it is for good. */
  lemma OverTenScoreStalls(s: Session, roundType: string, ev: Event)
    requires s.idx < |QuestionsFor(s.results, TechnicalKeys(roundType))| && s.show
    requires var rs := RecordsFor(s.results, TechnicalKeys(roundType)); |rs| > 0 && rs[|rs| - 1].evaluation.score > 10
    ensures ConductRound(s, roundType, ev) == s
  {
    ProgressAcceptsIff(RecordsFor(s.results, TechnicalKeys(roundType))[|RecordsFor(s.results, TechnicalKeys(roundType))| - 1].evaluation.score);
  }

  /** The progress fraction with the score clamped to 10, which
      `st.progress` always accepts and which agrees with the unclamped one
      wherever that one is accepted. */
  function ClampedProgress(score: nat): (v: real)
    ensures ProgressAccepts(v)
    ensures score <= 10 ==> v == Progress(score)
  {
    Progress(Min(score, 10))
  }

  /** conduct_round with the clamped progress bar. */
  function ConductRoundClamped(s: Session, roundType: string, ev: Event): (r: Session)
    ensures r.history == s.history
    ensures var technical := TechnicalKeys(roundType);
      s.idx < |QuestionsFor(s.results, technical)| && s.show && |RecordsFor(s.results, technical)| > 0 && ev.NextQuestion? ==>
        r == s.(idx := s.idx + 1, audio := false, show := false)
  {
    RoundWith(s, roundType, ev, ClampedProgress)
  }

  /** With the clamped bar, "Next Question" advances whatever the shown
      score, and on every score the bar accepts the round runs as app.py
      runs it. */
  lemma ClampedNextQuestionAdvances(s: Session, roundType: string, ev: Event)
    requires s.idx < |QuestionsFor(s.results, TechnicalKeys(roundType))| && s.show
    requires |RecordsFor(s.results, TechnicalKeys(roundType))| > 0
    ensures ConductRoundClamped(s, roundType, NextQuestion) == s.(idx := s.idx + 1, audio := false, show := false)
    ensures RecordsFor(s.results, TechnicalKeys(roundType))[|RecordsFor(s.results, TechnicalKeys(roundType))| - 1].evaluation.score <= 10 ==>
      ConductRoundClamped(s, roundType, ev) == ConductRound(s, roundType, ev)
  {
    var rs := RecordsFor(s.results, TechnicalKeys(roundType));
    var score := rs[|rs| - 1].evaluation.score;
    assert ProgressAccepts(ClampedProgress(score));
    if score <= 10 {
      ProgressAcceptsIff(score);
      assert ClampedProgress(score) == Progress(score);
    }
  }

  /** A completed round waits for its button: any other action changes
      nothing. */
  lemma CompletedRoundWaits(s: Session, roundType: string, ev: Event)
    requires s.idx >= |QuestionsFor(s.results, TechnicalKeys(roundType))| && !ev.Continue?
    ensures ConductRound(s, roundType, ev) == s
  {
  }

  /** The home page: "Analyze Job Description" stores an identified domain
      and moves to its confirmation; anything else leaves the session as
      it is. */
  function HomePage(s: Session, ev: Event): (r: Session)
    ensures r.results.hrResults == s.results.hrResults && r.results.techResults == s.results.techResults
    ensures r.idx == s.idx && r.show == s.show && r.history == s.history
    ensures r.round == DomainConfirmation || r == s
  {
    match ev
    case AnalyzeDescription(jd, prediction) =>
      (match Analyze(jd, prediction)
       case Identified(domain) => s.(results := s.results.(domain := domain), round := DomainConfirmation)
       case Rejected(_) => s)
    case _ => s
  }

  /** The confirmation page: confirming fills both question lists and
      starts the HR round; "No, let me edit" changes only the page. */
  function ConfirmPage(s: Session, ev: Event): (r: Session)
    ensures r.results.hrResults == s.results.hrResults && r.results.techResults == s.results.techResults
    ensures r.idx == s.idx && r.show == s.show && r.history == s.history
    ensures ev.ConfirmDomain? ==>
      r.round == HrRound && r.results.domain == s.results.domain &&
      r.results.hrQuestions == GenerateHr(ev.hrReply) && r.results.techQuestions == GenerateTech(ev.techReply)
    ensures ev.EditDomain? ==> r == s.(round := DomainEdit)
    ensures !ev.ConfirmDomain? && !ev.EditDomain? ==> r == s
  {
    match ev
    case ConfirmDomain(hrReply, techReply) =>
      s.(results := s.results.(hrQuestions := GenerateHr(hrReply), techQuestions := GenerateTech(techReply)),
         round := HrRound)
    case EditDomain => s.(round := DomainEdit)
    case _ => s
  }

  /** A rejected description leaves the home page as it was, domain
      included; an identified one stores the prediction and asks for its
      confirmation. */
  lemma AnalyzeOutcome(s: Session, jd: string, prediction: Reply)
    ensures var r := HomePage(s, AnalyzeDescription(jd, prediction));
      (Analyze(jd, prediction).Rejected? ==> r == s) &&
      (Analyze(jd, prediction).Identified? ==>
         r == s.(results := s.results.(domain := prediction.text), round := DomainConfirmation))
  {
  }

  /** Confirming generates both question lists for the stored domain and
      starts the HR round; nothing else changes. */
  lemma ConfirmStartsHrRound(s: Session, hrReply: Reply, techReply: Reply)
    ensures ConfirmPage(s, ConfirmDomain(hrReply, techReply)) ==
      s.(results := s.results.(hrQuestions := GenerateHr(hrReply), techQuestions := GenerateTech(techReply)),
         round := HrRound)
  {
  }

  /** "No, let me edit" changes the page and nothing else. */
  lemma EditChangesOnlyRound(s: Session)
    ensures ConfirmPage(s, EditDomain) == s.(round := DomainEdit)
  {
  }

  /** A blank domain entry is refused without any change. */
  lemma BlankEntryRefused(s: Session, entry: string, hrReply: Reply, techReply: Reply)
    requires forall i :: 0 <= i < |entry| ==> IsSpace(entry[i])
    ensures EditPage(s, SubmitDomain(entry, hrReply, techReply)) == s
  {
    StripEmptyIffBlank(entry);
  }

  /** A non-blank entry (one with a non-space character at some `i`) is
      stored as typed, not stripped; both lists are generated, the index is
      reset and the HR round starts. */
  lemma EntryStartsHrRound(s: Session, entry: string, i: nat, hrReply: Reply, techReply: Reply)
    requires i < |entry| && !IsSpace(entry[i])
    ensures EditPage(s, SubmitDomain(entry, hrReply, techReply)) ==
      s.(results := s.results.(domain := entry, hrQuestions := GenerateHr(hrReply), techQuestions := GenerateTech(techReply)),
         round := HrRound, idx := 0)
  {
    StripEmptyIffBlank(entry);
  }

  /** The domain editor: a non-blank entry is stored as typed, both lists
      are generated for it, the index is reset and the HR round starts. */
  function EditPage(s: Session, ev: Event): (r: Session)
    ensures r.results.hrResults == s.results.hrResults && r.results.techResults == s.results.techResults
    ensures r.show == s.show && r.history == s.history
    ensures ev.SubmitDomain? && Strip(ev.entry) != [] ==>
      r.round == HrRound && r.idx == 0 && r.results.domain == ev.entry &&
      r.results.hrQuestions == GenerateHr(ev.hrReply) && r.results.techQuestions == GenerateTech(ev.techReply)
    ensures !(ev.SubmitDomain? && Strip(ev.entry) != []) ==> r == s
  {
    match ev
    case SubmitDomain(entry, hrReply, techReply) =>
      if Strip(entry) == [] then s
      else
        s.(results := s.results.(domain := entry, hrQuestions := GenerateHr(hrReply), techQuestions := GenerateTech(techReply)),
           round := HrRound, idx := 0)
    case _ => s
  }

  /** The dashboard: "Start New Interview" deletes every key, "Talk to
      Evalia" opens the chat page. */
  function DashboardPage(s: Session, ev: Event): (r: Store)
    ensures ev.StartNew? ==> r == Cleared
    ensures !ev.StartNew? ==> r == Save(if ev.TalkToEvalia? then s.(round := ChatbotPage) else s)
  {
    match ev
    case StartNew => Cleared
    case TalkToEvalia => Save(s.(round := ChatbotPage))
    case _ => Save(s)
  }

  /** The chat page: the history is seeded and extended by the turn, and
      "Back to Interview" returns to the dashboard. */
  function ChatPage(s: Session, ev: Event): (r: Session)
    requires s.round == ChatbotPage
    ensures r == s.(history := r.history, round := r.round)
    ensures r.history.Some? && r.round in {ChatbotPage, Dashboard}
    ensures r.round == Dashboard <==> ev.BackToInterview?
  {
    match ev
    case Chat(input, reply) => s.(history := Some(ChatTurn(s.history, input, reply)))
    case BackToInterview => s.(history := Some(ChatTurn(s.history, [], Ok([]))), round := Dashboard)
    case _ => s.(history := Some(ChatTurn(s.history, [], Ok([]))))
  }

  /** One run of `main` on the store it finds; `st.rerun()` only starts the
      next run, which is the next event. */
  function Run(st: Store, ev: Event): Store
  {
    var s := Initialize(st);
    match s.round
    case Start => Save(HomePage(s, ev))
    case DomainConfirmation => Save(ConfirmPage(s, ev))
    case DomainEdit => Save(EditPage(s, ev))
    case HrRound => Save(ConductRound(s, "HR", ev))
    case TechRound => Save(ConductRound(s, "Technical", ev))
    case Dashboard => DashboardPage(s, ev)
    case ChatbotPage => Save(ChatPage(s, ev))
  }

  /** The store after a sequence of runs. */
  function Runs(st: Store, evs: seq<Event>): Store
    decreases |evs|
  {
    if evs == [] then st else Runs(Run(st, evs[0]), evs[1..])
  }

  // ---------------------------------------------------------------------
  // Reachable sessions

  /** Records taken in question order, one per question at most, each
      with a non-empty answer. */
  predicate Answered(qs: seq<string>, rs: seq<Record>)
  {
    |rs| <= |qs| && forall k :: 0 <= k < |rs| ==> rs[k].question == qs[k] && rs[k].answer != []
  }

  /** A round in progress: one record per passed question, plus one for
      the question whose evaluation is on screen. */
  predicate InProgress(qs: seq<string>, rs: seq<Record>, idx: nat, show: bool)
  {
    Answered(qs, rs) && idx <= |qs| && |rs| == idx + (if show then 1 else 0)
  }

  predicate Completed(qs: seq<string>, rs: seq<Record>)
  {
    Answered(qs, rs) && |rs| == |qs|
  }

  /** The HR records carry no knowledge gaps, the technical ones do. */
  predicate Graded(rs: seq<Record>, technical: bool)
  {
    forall k :: 0 <= k < |rs| ==> rs[k].evaluation.gaps.Some? == technical
  }

  /** What holds of every session the wizard reaches. */
  predicate Consistent(s: Session)
  {
    var r := s.results;
    Graded(r.hrResults, false) && Graded(r.techResults, true) &&
    (s.history.Some? ==> WellFormed(s.history.value)) &&
    match s.round
    case Start => r.hrResults == [] && r.techResults == [] && s.idx == 0 && !s.show
    case DomainConfirmation => r.hrResults == [] && r.techResults == [] && s.idx == 0 && !s.show
    case DomainEdit => r.hrResults == [] && r.techResults == [] && s.idx == 0 && !s.show
    case HrRound => r.techResults == [] && InProgress(r.hrQuestions, r.hrResults, s.idx, s.show)
    case TechRound => Completed(r.hrQuestions, r.hrResults) && InProgress(r.techQuestions, r.techResults, s.idx, s.show)
    case Dashboard => Completed(r.hrQuestions, r.hrResults) && Completed(r.techQuestions, r.techResults)
    case ChatbotPage => Completed(r.hrQuestions, r.hrResults) && Completed(r.techQuestions, r.techResults)
  }

  lemma FreshConsistent()
    ensures Consistent(Initialize(Cleared))
  {
  }

  /** "HR" uses the HR keys and "Technical" the technical ones. */
  lemma RoundKeys()
    ensures !TechnicalKeys("HR") && TechnicalKeys("Technical")
  {
    assert Lower("HR")[0] == 'h';
    assert Lower("Technical") == "technical";
  }

  /** A run of a round keeps its records in step with the index. */
  lemma RoundStepInProgress(s: Session, roundType: string, technical: bool, ev: Event)
    requires technical == TechnicalKeys(roundType) && (technical <==> roundType != "HR")
    requires s.round == (if technical then TechRound else HrRound)
    requires InProgress(QuestionsFor(s.results, technical), RecordsFor(s.results, technical), s.idx, s.show)
    requires Graded(RecordsFor(s.results, technical), technical)
    ensures var r := ConductRound(s, roundType, ev);
      r.round == s.round ==>
        InProgress(QuestionsFor(r.results, technical), RecordsFor(r.results, technical), r.idx, r.show) &&
        Graded(RecordsFor(r.results, technical), technical)
  {
    var qs := QuestionsFor(s.results, technical);
    var rs := RecordsFor(s.results, technical);
    var r := ConductRound(s, roundType, ev);
    var rs' := RecordsFor(r.results, technical);
    assert QuestionsFor(r.results, technical) == qs;
    if s.idx < |qs| && !s.show && ev.Answer? && ev.recorded && ev.press.SubmitAnswer? && ev.press.transcript != [] {
      var record := Record(qs[s.idx], ev.press.transcript, Grade(roundType, ev.press.verdict));
      SubmitAppendsRecord(s, roundType, ev.press.transcript, ev.press.verdict);
      assert ev == Answer(true, SubmitAnswer(ev.press.transcript, ev.press.verdict));
      assert rs' == rs + [record];
      AppendKeepsInProgress(qs, rs, s.idx, record, technical);
    } else if s.idx < |qs| && s.show && ev.NextQuestion? {
      assert r.results == s.results && (r == s || (r.idx == s.idx + 1 && !r.show));
    } else if s.idx < |qs| {
      assert r.results == s.results && r.idx == s.idx && r.show == s.show;
    }
  }

  /** Recording the answer to the question on screen keeps the round in
      progress, now with that answer's evaluation shown. */
  lemma AppendKeepsInProgress(qs: seq<string>, rs: seq<Record>, idx: nat, record: Record, technical: bool)
    requires InProgress(qs, rs, idx, false) && Graded(rs, technical) && idx < |qs|
    requires record.question == qs[idx] && record.answer != [] && record.evaluation.gaps.Some? == technical
    ensures InProgress(qs, rs + [record], idx, true) && Graded(rs + [record], technical)
  {
    var rs' := rs + [record];
    forall k | 0 <= k < |rs'|
      ensures rs'[k].question == qs[k] && rs'[k].answer != [] && rs'[k].evaluation.gaps.Some? == technical
    {
      if k < |rs| {
        assert rs'[k] == rs[k];
      }
    }
  }

  /** Leaving a round happens only once every question has its record. */
  lemma RoundExitComplete(s: Session, roundType: string, technical: bool, ev: Event)
    requires technical == TechnicalKeys(roundType)
    requires InProgress(QuestionsFor(s.results, technical), RecordsFor(s.results, technical), s.idx, s.show)
    ensures var r := ConductRound(s, roundType, ev);
      r.round != s.round ==>
        Completed(QuestionsFor(r.results, technical), RecordsFor(r.results, technical)) &&
        r.round == (if roundType == "HR" then TechRound else Dashboard) &&
        (roundType == "HR" ==> r.idx == 0 && !r.show)
  {
  }

  lemma HrRunConsistent(s: Session, ev: Event)
    requires Consistent(s) && s.round == HrRound
    ensures Consistent(ConductRound(s, "HR", ev))
  {
    RoundKeys();
    RoundStepInProgress(s, "HR", false, ev);
    RoundExitComplete(s, "HR", false, ev);
  }

  lemma TechRunConsistent(s: Session, ev: Event)
    requires Consistent(s) && s.round == TechRound
    ensures Consistent(ConductRound(s, "Technical", ev))
  {
    RoundKeys();
    RoundStepInProgress(s, "Technical", true, ev);
    RoundExitComplete(s, "Technical", true, ev);
  }

  lemma ChatRunConsistent(s: Session, ev: Event)
    requires Consistent(s) && s.round == ChatbotPage
    ensures Consistent(ChatPage(s, ev))
  {
    match ev {
      case Chat(input, reply) => ChatTurnWellFormed(s.history, input, reply);
      case _ => ChatTurnWellFormed(s.history, [], Ok([]));
    }
  }

  /** Every run keeps the session consistent. */
  lemma RunConsistent(st: Store, ev: Event)
    requires Consistent(Initialize(st))
    ensures Consistent(Initialize(Run(st, ev)))
  {
    var s := Initialize(st);
    if s.round == Start || s.round == DomainConfirmation || s.round == DomainEdit {
      EntryRunConsistent(st, ev);
    } else if s.round == HrRound || s.round == TechRound {
      RoundRunConsistent(st, ev);
    } else {
      ResultsRunConsistent(st, ev);
    }
  }

  /** The runs of the home page, the confirmation and the editor. */
  lemma EntryRunConsistent(st: Store, ev: Event)
    requires Consistent(Initialize(st))
    requires Initialize(st).round in {Start, DomainConfirmation, DomainEdit}
    ensures Consistent(Initialize(Run(st, ev)))
  {
    var s := Initialize(st);
    match s.round {
      case Start =>
        assert Run(st, ev) == Save(HomePage(s, ev));
        SavedConsistent(HomePage(s, ev));
      case DomainConfirmation =>
        assert Run(st, ev) == Save(ConfirmPage(s, ev));
        SavedConsistent(ConfirmPage(s, ev));
      case DomainEdit =>
        assert Run(st, ev) == Save(EditPage(s, ev));
        SavedConsistent(EditPage(s, ev));
    }
  }

  /** The runs of the two interview rounds. */
  lemma RoundRunConsistent(st: Store, ev: Event)
    requires Consistent(Initialize(st))
    requires Initialize(st).round in {HrRound, TechRound}
    ensures Consistent(Initialize(Run(st, ev)))
  {
    var s := Initialize(st);
    if s.round == HrRound {
      assert Run(st, ev) == Save(ConductRound(s, "HR", ev));
      HrRunConsistent(s, ev);
      SavedConsistent(ConductRound(s, "HR", ev));
    } else {
      assert Run(st, ev) == Save(ConductRound(s, "Technical", ev));
      TechRunConsistent(s, ev);
      SavedConsistent(ConductRound(s, "Technical", ev));
    }
  }

  /** The runs of the dashboard and the chat page. */
  lemma ResultsRunConsistent(st: Store, ev: Event)
    requires Consistent(Initialize(st))
    requires Initialize(st).round in {Dashboard, ChatbotPage}
    ensures Consistent(Initialize(Run(st, ev)))
  {
    var s := Initialize(st);
    if s.round == Dashboard {
      assert Run(st, ev) == DashboardPage(s, ev);
      DashboardRunConsistent(s, ev);
    } else {
      assert Run(st, ev) == Save(ChatPage(s, ev));
      ChatRunConsistent(s, ev);
      SavedConsistent(ChatPage(s, ev));
    }
  }

  /** A consistent session is still consistent once saved and read back. */
  lemma SavedConsistent(s: Session)
    requires Consistent(s)
    ensures Consistent(Initialize(Save(s)))
  {
    InitializeKeepsSaved(s);
  }

  lemma DashboardRunConsistent(s: Session, ev: Event)
    requires Consistent(s) && s.round == Dashboard
    ensures Consistent(Initialize(DashboardPage(s, ev)))
  {
    if !ev.StartNew? {
      SavedConsistent(if ev.TalkToEvalia? then s.(round := ChatbotPage) else s);
    }
  }

  /** "Start New Interview" forgets everything: the next run is a first
      run. */
  lemma StartNewForgets(st: Store)
    requires Initialize(st).round == Dashboard
    ensures Run(st, StartNew) == Cleared
    ensures Initialize(Run(st, StartNew)) == Fresh
  {
  }

  /** Moving between the dashboard and the chat page keeps the interview
      results, and the chat history survives the round trip. */
  lemma ChatKeepsResults(st: Store, input: string, reply: Reply)
    requires Initialize(st).round == Dashboard
    ensures var chat := Run(st, TalkToEvalia);
      var talked := Run(chat, Chat(input, reply));
      var back := Run(talked, BackToInterview);
      Initialize(back).results == Initialize(st).results &&
      Initialize(back).round == Dashboard &&
      Initialize(back).history == Initialize(talked).history
  {
    var s := Initialize(st);
    InitializeKeepsSaved(s.(round := ChatbotPage));
    var t := ChatPage(s.(round := ChatbotPage), Chat(input, reply));
    InitializeKeepsSaved(t);
    InitializeKeepsSaved(ChatPage(t, BackToInterview));
  }

  /** The main invariant: in every session reachable from the first run,
      each round holds one record per question passed (plus the one on
      screen), in question order, and the index never passes the end. */
  lemma {:induction false} ReachableConsistent(st: Store, evs: seq<Event>)
    requires Consistent(Initialize(st))
    ensures Consistent(Initialize(Runs(st, evs)))
    decreases |evs|
  {
    if evs != [] {
      RunConsistent(st, evs[0]);
      ReachableConsistent(Run(st, evs[0]), evs[1..]);
    }
  }

  lemma FromFirstRun(evs: seq<Event>)
    ensures Consistent(Initialize(Runs(Cleared, evs)))
  {
    FreshConsistent();
    ReachableConsistent(Cleared, evs);
  }
}
