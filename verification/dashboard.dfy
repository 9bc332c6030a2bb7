/** The deterministic parts of the results dashboard (dashboard.py): the
    score summary `calculate_scores` computes from a results dictionary,
    and the job search of `search_job_portals` — the cleaning of the job
    titles the language model suggests and the capped, ordered list of
    search links built from them. */
module Dashboard {
  import opened Common
  import opened Text
  import opened Evaluation
  import opened Wizard

  // ---------------------------------------------------------------------
  // Results as JSON values

  /** The JSON values a results dictionary can hold. Numbers are exact:
      an integer, or a float taken as the real it denotes. */
  datatype Value =
    | Null
    | Bool(b: bool)
    | Int(i: int)
    | Float(f: real)
    | Str(s: string)
    | List(items: seq<Value>)
    | Dict(entries: seq<Entry>)

  datatype Entry = Entry(key: string, value: Value)

  /** Python truthiness. */
  predicate Truthy(v: Value)
  {
    match v
    case Null => false
    case Bool(b) => b
    case Int(i) => i != 0
    case Float(f) => f != 0.0
    case Str(s) => s != []
    case List(items) => items != []
    case Dict(entries) => entries != []
  }

  /** `d.get(key)`: the value stored under `key`. The keys of a dictionary
      are distinct, so the first entry with the key is the only one. */
  function Lookup(entries: seq<Entry>, key: string): (r: Option<Value>)
    ensures r.Some? <==> exists k :: 0 <= k < |entries| && entries[k].key == key
    ensures r.Some? ==> exists k :: 0 <= k < |entries| && entries[k] == Entry(key, r.value)
  {
    if entries == [] then None
    else if entries[0].key == key then Some(entries[0].value)
    else
      var r := Lookup(entries[1..], key);
      assert forall k :: 1 <= k < |entries| ==> entries[k] == entries[1..][k - 1];
      r
  }

  /** `d.get(key, default)`. */
  function Get(entries: seq<Entry>, key: string, default: Value): Value
  {
    match Lookup(entries, key)
    case Some(v) => v
    case None => default
  }

  /** What `for q in v` visits: the items of a list, the keys of a
      dictionary, the characters of a string; `None` where iterating
      raises TypeError. */
  function Iterate(v: Value): Option<seq<Value>>
  {
    match v
    case List(items) => Some(items)
    case Dict(entries) => Some(seq(|entries|, k requires 0 <= k < |entries| => Str(entries[k].key)))
    case Str(s) => Some(seq(|s|, k requires 0 <= k < |s| => Str([s[k]])))
    case _ => None
  }

  /** `isinstance(score, (int, float))`, with `bool` a subclass of `int`,
      and the number it stands for. */
  function Numeric(v: Value): Option<real>
  {
    match v
    case Int(i) => Some(i as real)
    case Float(f) => Some(f)
    case Bool(b) => Some(if b then 1.0 else 0.0)
    case _ => None
  }

  /** The body of the score loop for one item: a dictionary with an
      `evaluation` key contributes its score (0 when the score is missing)
      if that score is a number; any other item contributes nothing. An
      evaluation that is not a dictionary has no `.get`, which raises. */
  function ItemScores(q: Value): (r: Option<seq<real>>)
    ensures r.Some? ==> |r.value| <= 1
  {
    if !q.Dict? then Some([])
    else match Lookup(q.entries, "evaluation")
      case None => Some([])
      case Some(evaluation) =>
        if !evaluation.Dict? then None
        else match Numeric(Get(evaluation.entries, "score", Int(0)))
          case Some(x) => Some([x])
          case None => Some([])
  }

  /** The scores of a sequence of items, in order; `None` once one raises. */
  function CollectScores(items: seq<Value>): (r: Option<seq<real>>)
    ensures r.Some? ==> |r.value| <= |items|
  {
    if items == [] then Some([])
    else match ItemScores(items[0])
      case None => None
      case Some(xs) =>
        match CollectScores(items[1..])
        case None => None
        case Some(ys) => Some(xs + ys)
  }

  /** `for q in results.get(key, [])`: the scores under one key. */
  function ScoresUnder(entries: seq<Entry>, key: string): Option<seq<real>>
  {
    match Iterate(Get(entries, key, List([])))
    case None => None
    case Some(items) => CollectScores(items)
  }

  function Sum(xs: seq<real>): real
  {
    if xs == [] then 0.0 else xs[0] + Sum(xs[1..])
  }

  /** `safe_avg`: the mean, or 0 for no scores. */
  function Average(xs: seq<real>): real
  {
    if xs == [] then 0.0 else Sum(xs) / (|xs| as real)
  }

  datatype Scores = Scores(hrTotal: real, techTotal: real, hrAvg: real, techAvg: real, overallAvg: real, domain: Value)

  /** calculate_scores: `None` for a falsy or non-dictionary argument and
      whenever the loops raise. */
  function CalculateScores(results: Value): (r: Option<Scores>)
    ensures !results.Dict? || results.entries == [] ==> r.None?
    ensures r.Some? ==> r.value.domain == Get(results.entries, "domain", Str("Unknown"))
    ensures r.Some? <==>
              results.Dict? && results.entries != [] &&
              ScoresUnder(results.entries, "hr_results").Some? && ScoresUnder(results.entries, "tech_results").Some?
  {
    if !Truthy(results) || !results.Dict? then None
    else
      match ScoresUnder(results.entries, "hr_results")
      case None => None
      case Some(hr) =>
        match ScoresUnder(results.entries, "tech_results")
        case None => None
        case Some(tech) =>
          Some(Scores(Sum(hr), Sum(tech), Average(hr), Average(tech), Average(hr + tech),
                      Get(results.entries, "domain", Str("Unknown"))))
  }

  // ---------------------------------------------------------------------
  // Laws of the score summary

  lemma {:induction false} SumAppend(xs: seq<real>, ys: seq<real>)
    ensures Sum(xs + ys) == Sum(xs) + Sum(ys)
  {
    if xs != [] {
      SumAppend(xs[1..], ys);
      assert (xs + ys)[1..] == xs[1..] + ys;
    } else {
      assert xs + ys == ys;
    }
  }

  /** The overall average pools both rounds: the two totals over the
      number of scores of both, and 0 when there are none. */
  lemma OverallIsPooled(results: Value)
    requires CalculateScores(results).Some?
    ensures var r := CalculateScores(results).value;
            var n := |ScoresUnder(results.entries, "hr_results").value| + |ScoresUnder(results.entries, "tech_results").value|;
            r.overallAvg == if n == 0 then 0.0 else (r.hrTotal + r.techTotal) / (n as real)
  {
    var hr := ScoresUnder(results.entries, "hr_results").value;
    var tech := ScoresUnder(results.entries, "tech_results").value;
    SumAppend(hr, tech);
  }

  /** One item whose evaluation is not a dictionary (a null, say) makes
      the whole list raise. */
  lemma {:induction false} BrokenItemFails(items: seq<Value>, k: nat)
    requires k < |items| && ItemScores(items[k]).None?
    ensures CollectScores(items) == None
    decreases k
  {
    if k > 0 {
      assert items[1..][k - 1] == items[k];
      BrokenItemFails(items[1..], k - 1);
    }
  }

  /** A null evaluation anywhere in the HR results leaves no summary at all. */
  lemma NullEvaluationFails(entries: seq<Entry>, items: seq<Value>, k: nat, q: seq<Entry>)
    requires entries != [] && Lookup(entries, "hr_results") == Some(List(items))
    requires k < |items| && items[k] == Dict(q) && Lookup(q, "evaluation") == Some(Null)
    ensures CalculateScores(Dict(entries)) == None
  {
    BrokenItemFails(items, k);
  }

  /** An evaluation without a score counts as a score of 0, and still
      counts towards the number of scores. */
  lemma MissingScoreIsZero(q: seq<Entry>, e: seq<Entry>)
    requires Lookup(q, "evaluation") == Some(Dict(e)) && Lookup(e, "score") == None
    ensures ItemScores(Dict(q)) == Some([0.0])
  {
  }

  // ---------------------------------------------------------------------
  // The results the wizard produces

  function StrList(xs: seq<string>): (v: Value)
    ensures v.List? && |v.items| == |xs|
  {
    List(seq(|xs|, k requires 0 <= k < |xs| => Str(xs[k])))
  }

  /** An evaluation dictionary: a technical one also has knowledge gaps. */
  function EvaluationValue(e: Evaluation): Value
  {
    var common := [Entry("score", Int(e.score)), Entry("feedback", Str(e.feedback)),
                   Entry("improvement_tips", StrList(e.tips))];
    match e.gaps
    case None => Dict(common)
    case Some(gaps) => Dict(common + [Entry("knowledge_gaps", StrList(gaps))])
  }

  function RecordValue(r: Record): Value
  {
    Dict([Entry("question", Str(r.question)), Entry("answer", Str(r.answer)),
          Entry("evaluation", EvaluationValue(r.evaluation))])
  }

  function RecordsValue(rs: seq<Record>): (v: Value)
    ensures v.List? && |v.items| == |rs|
    ensures forall k :: 0 <= k < |rs| ==> v.items[k] == RecordValue(rs[k])
  {
    List(seq(|rs|, k requires 0 <= k < |rs| => RecordValue(rs[k])))
  }

  /** The `results` dictionary of a session, key by key. */
  function ResultsValue(r: Results): Value
  {
    Dict([Entry("domain", Str(r.domain)),
          Entry("hr_questions", StrList(r.hrQuestions)),
          Entry("tech_questions", StrList(r.techQuestions)),
          Entry("hr_results", RecordsValue(r.hrResults)),
          Entry("tech_results", RecordsValue(r.techResults))])
  }

  /** The scores of a round's records, in order. */
  function RecordScores(rs: seq<Record>): (xs: seq<real>)
    ensures |xs| == |rs| && forall k :: 0 <= k < |rs| ==> xs[k] == rs[k].evaluation.score as real
  {
    seq(|rs|, k requires 0 <= k < |rs| => rs[k].evaluation.score as real)
  }

  lemma RecordItemScore(r: Record)
    ensures ItemScores(RecordValue(r)) == Some([r.evaluation.score as real])
  {
    var ev := EvaluationValue(r.evaluation);
    assert RecordValue(r).entries[2] == Entry("evaluation", ev);
    assert Lookup(RecordValue(r).entries, "evaluation") == Some(ev);
    assert ev.entries[0] == Entry("score", Int(r.evaluation.score));
  }

  lemma CollectRecordScores(rs: seq<Record>)
    ensures CollectScores(RecordsValue(rs).items) == Some(RecordScores(rs))
  {
    var items := RecordsValue(rs).items;
    var xs := RecordScores(rs);
    forall k | 0 <= k < |items|
      ensures ItemScores(items[k]) == Some([xs[k]])
    {
      RecordItemScore(rs[k]);
    }
    CollectSingleScores(items, xs);
  }

  /** Items that each carry one score collect to those scores, in order. */
  lemma {:induction false} CollectSingleScores(items: seq<Value>, xs: seq<real>)
    requires |items| == |xs|
    requires forall k :: 0 <= k < |items| ==> ItemScores(items[k]) == Some([xs[k]])
    ensures CollectScores(items) == Some(xs)
  {
    if items != [] {
      assert ItemScores(items[0]) == Some([xs[0]]);
      CollectSingleScores(items[1..], xs[1..]);
      assert [xs[0]] + xs[1..] == xs;
    }
  }

  /** Entries before the first with the key do not affect the lookup. */
  lemma {:induction false} LookupSkip(entries: seq<Entry>, n: nat, key: string)
    requires n <= |entries| && forall k :: 0 <= k < n ==> entries[k].key != key
    ensures Lookup(entries, key) == Lookup(entries[n..], key)
    decreases n
  {
    if n > 0 {
      assert entries[1..][n - 1..] == entries[n..];
      LookupSkip(entries[1..], n - 1, key);
    }
  }

  /** The results the wizard saves always summarise: each total is the sum
      of that round's scores and the domain is the one stored. */
  lemma WizardResultsSummarise(r: Results)
    ensures CalculateScores(ResultsValue(r)) ==
      Some(Scores(Sum(RecordScores(r.hrResults)), Sum(RecordScores(r.techResults)),
                  Average(RecordScores(r.hrResults)), Average(RecordScores(r.techResults)),
                  Average(RecordScores(r.hrResults) + RecordScores(r.techResults)), Str(r.domain)))
  {
    HrScoresFound(r);
    TechScoresFound(r);
    DomainFound(r);
  }

  lemma DomainFound(r: Results)
    ensures Get(ResultsValue(r).entries, "domain", Str("Unknown")) == Str(r.domain)
  {
    assert Lookup(ResultsValue(r).entries, "domain") == Some(Str(r.domain));
  }

  lemma HrScoresFound(r: Results)
    ensures ScoresUnder(ResultsValue(r).entries, "hr_results") == Some(RecordScores(r.hrResults))
  {
    var entries := ResultsValue(r).entries;
    assert Lookup(entries[3..], "hr_results") == Some(RecordsValue(r.hrResults));
    LookupSkip(entries, 3, "hr_results");
    CollectRecordScores(r.hrResults);
  }

  lemma TechScoresFound(r: Results)
    ensures ScoresUnder(ResultsValue(r).entries, "tech_results") == Some(RecordScores(r.techResults))
  {
    var entries := ResultsValue(r).entries;
    assert Lookup(entries[4..], "tech_results") == Some(RecordsValue(r.techResults));
    LookupSkip(entries, 4, "tech_results");
    CollectRecordScores(r.techResults);
  }

  // ---------------------------------------------------------------------
  // Job titles

  /** The titles used when the model call fails or yields none. */
  const FallbackTitles: seq<string> := ["Junior Data Analyst", "Business Analyst Intern", "Data Reporting Assistant"]

  /** The deletions applied to the stripped reply, in order. */
  function Unmark(raw: string): (r: string)
    ensures '\n' !in r && '•' !in r
    ensures forall x :: x in r ==> x in raw
  {
    var a := DeleteAll(Strip(raw), "\n");
    var b := DeleteAll(a, "•");
    var c := DeleteAll(DeleteAll(DeleteAll(b, "1."), "2."), "3.");
    StripChars(raw);
    c
  }

  lemma StripChars(s: string)
    ensures forall x :: x in Strip(s) ==> x in s
  {
    StripSetShape(s, Whitespace);
  }

  /** The pieces longer than two characters once stripped, stripped, in
      order. */
  function Kept(pieces: seq<string>): (ts: seq<string>)
    ensures |ts| <= |pieces|
    ensures forall k :: 0 <= k < |ts| ==> |ts[k]| > 2
  {
    if pieces == [] then []
    else
      var t := Strip(pieces[0]);
      if |t| > 2 then [t] + Kept(pieces[1..]) else Kept(pieces[1..])
  }

  /** No character of `s` is in `cs`. */
  predicate Avoids(s: string, cs: set<char>)
  {
    forall x :: x in s ==> x !in cs
  }

  /** Keeping and stripping pieces adds no character. */
  lemma {:induction false} KeptAvoids(pieces: seq<string>, cs: set<char>)
    requires forall j :: 0 <= j < |pieces| ==> Avoids(pieces[j], cs)
    ensures forall k :: 0 <= k < |Kept(pieces)| ==> Avoids(Kept(pieces)[k], cs)
  {
    if pieces != [] {
      var t := Strip(pieces[0]);
      var tail := pieces[1..];
      var rest := Kept(tail);
      assert forall k :: 0 <= k < |rest| ==> Avoids(rest[k], cs) by {
        forall j | 0 <= j < |tail|
          ensures Avoids(tail[j], cs)
        {
          assert tail[j] == pieces[j + 1];
        }
        KeptAvoids(tail, cs);
      }
      if |t| > 2 {
        assert Avoids(t, cs) by {
          assert Avoids(pieces[0], cs);
          StripChars(pieces[0]);
        }
        assert Kept(pieces) == [t] + rest;
        forall k | 0 <= k < |[t] + rest|
          ensures Avoids(([t] + rest)[k], cs)
        {
          if k > 0 {
            assert ([t] + rest)[k] == rest[k - 1];
          }
        }
      } else {
        assert Kept(pieces) == rest;
      }
    }
  }

  /** The titles a search uses, given the outcome of the model call. */
  function Titles(reply: Reply): (ts: seq<string>)
    ensures ts != []
    ensures forall k :: 0 <= k < |ts| ==> |ts[k]| > 2 && Avoids(ts[k], {',', '\n', '•'})
    ensures reply.Raised? ==> ts == FallbackTitles
  {
    match reply
    case Raised(_) => FallbackTitlesPlain(); FallbackTitles
    case Ok(raw) =>
      var kept := Kept(Split(Unmark(raw), ','));
      TitlesAvoid(Unmark(raw));
      FallbackTitlesPlain();
      if kept == [] then FallbackTitles else kept
  }

  lemma FallbackTitlesPlain()
    ensures forall k :: 0 <= k < |FallbackTitles| ==> |FallbackTitles[k]| > 2 && Avoids(FallbackTitles[k], {',', '\n', '•'})
  {
    AnalystPlain();
    InternPlain();
    AssistantPlain();
  }

  lemma AnalystPlain()
    ensures Avoids("Junior Data Analyst", {',', '\n', '•'})
  {
  }

  lemma InternPlain()
    ensures Avoids("Business Analyst Intern", {',', '\n', '•'})
  {
  }

  lemma AssistantPlain()
    ensures Avoids("Data Reporting Assistant", {',', '\n', '•'})
  {
  }

  lemma TitlesAvoid(text: string)
    requires '\n' !in text && '•' !in text
    ensures forall k :: 0 <= k < |Kept(Split(text, ','))| ==> Avoids(Kept(Split(text, ','))[k], {',', '\n', '•'})
  {
    var pieces := Split(text, ',');
    SplitChars(text, ',');
    KeptAvoids(pieces, {',', '\n', '•'});
  }

  /** A title list the cleaning reads back unchanged: each title is clean,
      longer than two characters, and holds no comma, newline, bullet or
      dot (a dot could form one of the deleted "1.", "2.", "3."). */
  predicate Listable(ts: seq<string>)
  {
    ts != [] &&
    forall k :: 0 <= k < |ts| ==> Clean(ts[k]) && |ts[k]| > 2 && Avoids(ts[k], {',', '\n', '•', '.'})
  }

  /** A comma-separated reply of listable titles yields exactly those
      titles, in order. */
  lemma TitlesRoundTrip(ts: seq<string>)
    requires Listable(ts)
    ensures Titles(Ok(Join(ts, ','))) == ts
  {
    var text := Join(ts, ',');
    ListableText(ts);
    CleanIffStripped(text);
    DeleteAbsent(text, "\n");
    DeleteAbsent(text, "•");
    DeleteAbsent(text, "1.");
    DeleteAbsent(text, "2.");
    DeleteAbsent(text, "3.");
    assert Unmark(text) == text;
    SplitJoin(ts, ',');
    KeptClean(ts);
  }

  /** The joined text is clean and holds no newline, bullet or dot. */
  lemma ListableText(ts: seq<string>)
    requires Listable(ts)
    ensures Clean(Join(ts, ','))
    ensures Avoids(Join(ts, ','), {'\n', '•', '.'})
  {
    JoinClean(ts, ',');
    forall x | x in Join(ts, ',')
      ensures x !in {'\n', '•', '.'}
    {
      if x != ',' {
        JoinChars(ts, ',', x);
      }
    }
  }

  /** Clean pieces longer than two characters are all kept as they are. */
  lemma {:induction false} KeptClean(pieces: seq<string>)
    requires forall k :: 0 <= k < |pieces| ==> Clean(pieces[k]) && |pieces[k]| > 2
    ensures Kept(pieces) == pieces
  {
    if pieces != [] {
      CleanIffStripped(pieces[0]);
      KeptClean(pieces[1..]);
      assert [pieces[0]] + pieces[1..] == pieces;
    }
  }

  /** Pieces of white space or of at most two characters are dropped, so a
      reply made of them falls back to the default titles. */
  lemma {:induction false} ShortPiecesDropped(pieces: seq<string>)
    requires forall k :: 0 <= k < |pieces| ==> |Strip(pieces[k])| <= 2
    ensures Kept(pieces) == []
  {
    if pieces != [] {
      ShortPiecesDropped(pieces[1..]);
    }
  }

  /** Every character of a piece of a split comes from the text. */
  lemma {:induction false} SplitChars(s: string, sep: char)
    ensures forall j, x :: 0 <= j < |Split(s, sep)| && x in Split(s, sep)[j] ==> x in s
  {
    if s != [] {
      SplitChars(s[1..], sep);
      var rest := Split(s[1..], sep);
      forall j, x | 0 <= j < |Split(s, sep)| && x in Split(s, sep)[j]
        ensures x in s
      {
        if s[0] != sep && j == 0 {
          assert x in [s[0]] + rest[0];
          if x != s[0] {
            assert x in rest[0];
            assert x in s[1..];
          }
        } else if s[0] != sep {
          assert Split(s, sep)[j] == rest[j];
          assert x in s[1..];
        } else {
          if j > 0 {
            assert Split(s, sep)[j] == rest[j - 1];
            assert x in s[1..];
          }
        }
      }
    }
  }

  // ---------------------------------------------------------------------
  // Job links

  const MaxJobs: nat := 6

  datatype Platform = LinkedIn | Indeed | Glassdoor | Naukri | Monster

  /** The platforms in the order the search visits them. */
  const Platforms: seq<Platform> := [LinkedIn, Indeed, Glassdoor, Naukri, Monster]

  function PlatformName(p: Platform): string
  {
    match p
    case LinkedIn => "LinkedIn"
    case Indeed => "Indeed"
    case Glassdoor => "Glassdoor"
    case Naukri => "Naukri"
    case Monster => "Monster"
  }

  /** The platform's URL template filled with a quoted query and location;
      Glassdoor's template has no location. */
  function Url(p: Platform, query: string, location: string): string
  {
    match p
    case LinkedIn => "https://www.linkedin.com/jobs/search/?keywords=" + query + "&location=" + location
    case Indeed => "https://www.indeed.com/jobs?q=" + query + "&l=" + location
    case Glassdoor => "https://www.glassdoor.com/Job/jobs.htm?sc.keyword=" + query
    case Naukri => "https://www.naukri.com/" + query + "-jobs-in-" + location
    case Monster => "https://www.monster.com/jobs/search/?q=" + query + "&where=" + location
  }

  datatype Link = Link(caption: string, url: string)

  /** The link for one title on one platform. `quote` stands for
      `urllib.parse.quote_plus`; an empty location stays empty. */
  function LinkFor(title: string, p: Platform, location: string, quote: string -> string): Link
  {
    Link(title + " (" + PlatformName(p) + ")", Url(p, quote(title), if location == [] then [] else quote(location)))
  }

  /** Every link, title by title and, for each title, platform by
      platform: link `n` is for title `n / 5` on platform `n % 5`. */
  function AllLinks(titles: seq<string>, location: string, quote: string -> string): (links: seq<Link>)
    ensures |links| == 5 * |titles|
  {
    seq(5 * |titles|, n requires 0 <= n < 5 * |titles| => LinkFor(titles[n / 5], Platforms[n % 5], location, quote))
  }

  /** search_job_portals from the titles on: the first MaxJobs links, the
      loops stopping as soon as that many are collected. */
  method SearchJobPortals(titles: seq<string>, location: string, quote: string -> string) returns (links: seq<Link>)
    ensures |links| == Min(MaxJobs, 5 * |titles|)
    ensures links == AllLinks(titles, location, quote)[..|links|]
  {
    ghost var all := AllLinks(titles, location, quote);
    links := [];
    var i := 0;
    while i < |titles|
      invariant 0 <= i <= |titles|
      invariant 5 * i < MaxJobs && links == all[..5 * i]
      decreases |titles| - i
    {
      var title := titles[i];
      var j := 0;
      while j < |Platforms|
        invariant 0 <= j <= 5
        invariant 5 * i + j < MaxJobs && links == all[..5 * i + j]
        decreases 5 - j
      {
        LinkIndex(titles, location, quote, i, j);
        links := links + [LinkFor(title, Platforms[j], location, quote)];
        j := j + 1;
        if |links| >= MaxJobs {
          break;
        }
      }
      i := i + 1;
      if |links| >= MaxJobs {
        break;
      }
    }
    links := links[..Min(|links|, MaxJobs)];
  }

  /** Link `5 * i + j` is title `i` on platform `j`. */
  lemma LinkIndex(titles: seq<string>, location: string, quote: string -> string, i: nat, j: nat)
    requires i < |titles| && j < 5
    ensures var all := AllLinks(titles, location, quote);
            all[..5 * i + j + 1] == all[..5 * i + j] + [LinkFor(titles[i], Platforms[j], location, quote)]
  {
    var n := 5 * i + j;
    var all := AllLinks(titles, location, quote);
    assert n / 5 == i && n % 5 == j;
    assert all[n] == LinkFor(titles[i], Platforms[j], location, quote);
    PrefixGrows(all, n);
  }

  lemma PrefixGrows<T>(s: seq<T>, n: nat)
    requires n < |s|
    ensures s[..n + 1] == s[..n] + [s[n]]
  {
  }

  /** A search always offers five or six links: at least one title, five
      platforms each, at most six links. */
  method FindJobs(reply: Reply, location: string, quote: string -> string) returns (links: seq<Link>)
    ensures |links| == 5 || |links| == 6
    ensures |links| <= |AllLinks(Titles(reply), location, quote)|
    ensures links == AllLinks(Titles(reply), location, quote)[..|links|]
  {
    links := SearchJobPortals(Titles(reply), location, quote);
  }
}
