/** Fetching the latest prices: the scraper's output is parsed strictly, and
    when that fails a candidate JSON text is cut out of it with the regular
    expression `/(\$$[\s\S]*\$|{[\s\S]*})/` and parsed in turn. */
module Extraction {
  import opened Snapshots

  // ---------------------------------------------------------------------------
  // What the regular expression matches

  /** The first alternative `\$$[\s\S]*\$` matches s[p..e]: a '$' at p, the
      end-of-input anchor right after it, any run of characters s[p+1..e-1],
      then a '$' at e-1. */
  predicate DollarAlternative(s: string, p: int, e: int)
  {
    0 <= p < |s| && s[p] == '$' && p + 1 == |s|
    && p + 1 <= e - 1 && e <= |s| && s[e - 1] == '$'
  }

  /** The second alternative `{[\s\S]*}` matches s[p..e]: a '{' at p, any run
      of characters, then a '}' at e-1. */
  predicate BraceAlternative(s: string, p: int, e: int)
  {
    0 <= p && p + 2 <= e <= |s| && s[p] == '{' && s[e - 1] == '}'
  }

  predicate MatchesAt(s: string, p: int, e: int)
  {
    DollarAlternative(s, p, e) || BraceAlternative(s, p, e)
  }

  /** s[p..e] is the match `String.prototype.match` reports: no match starts
      before p; at p the first alternative is preferred to the second; within
      an alternative the greedy `[\s\S]*` makes the longest match win. */
  ghost predicate IsFirstMatch(s: string, p: int, e: int)
  {
    MatchesAt(s, p, e)
    && (forall q, f :: 0 <= q < p ==> !MatchesAt(s, q, f))
    && (if exists f :: DollarAlternative(s, p, f)
        then DollarAlternative(s, p, e) && forall f :: DollarAlternative(s, p, f) ==> f <= e
        else BraceAlternative(s, p, e) && forall f :: BraceAlternative(s, p, f) ==> f <= e)
  }

  /** The first alternative needs a '$' after the end of the input: it never
      matches. */
  lemma DollarAlternativeNeverMatches(s: string, p: int, e: int)
    ensures !DollarAlternative(s, p, e)
  {
  }

  // ---------------------------------------------------------------------------
  // Computing the match

  /** The position of the first c in s, or |s| when there is none. */
  function IndexOf(s: string, c: char): (k: nat)
    ensures k <= |s|
    ensures k < |s| ==> s[k] == c
    ensures forall j :: 0 <= j < k ==> s[j] != c
  {
    if s == [] then 0
    else if s[0] == c then 0
    else 1 + IndexOf(s[1..], c)
  }

  /** The position of the last c in s, or -1 when there is none. */
  function LastIndexOf(s: string, c: char): (k: int)
    ensures -1 <= k < |s|
    ensures k >= 0 ==> s[k] == c
    ensures forall j :: k < j < |s| ==> s[j] != c
  {
    if s == [] then -1
    else if s[|s| - 1] == c then |s| - 1
    else LastIndexOf(s[..|s| - 1], c)
  }

  /** `stdout.match(...)`, reduced to the alternative that can match: the
      text from the first '{' to the last '}', when a '}' follows the first
      '{'; no match otherwise. */
  function Candidate(stdout: string): (r: Option<string>)
    ensures r.Some? ==> |r.value| >= 2 && r.value[0] == '{' && r.value[|r.value| - 1] == '}'
    ensures r.None? <==> forall i, j :: 0 <= i < j < |stdout| && stdout[i] == '{' ==> stdout[j] != '}'
  {
    var first := IndexOf(stdout, '{');
    var last := LastIndexOf(stdout, '}');
    if first < last then Some(stdout[first..last + 1]) else None
  }

  /** When there is a candidate, it is exactly the first match of the regular
      expression. */
  lemma CandidateIsFirstMatch(s: string)
    requires Candidate(s).Some?
    ensures var p, e := IndexOf(s, '{'), LastIndexOf(s, '}') + 1;
            IsFirstMatch(s, p, e) && Candidate(s).value == s[p..e]
  {
  }

  /** When there is no candidate, the regular expression matches nowhere. */
  lemma NoCandidateNoMatch(s: string)
    requires Candidate(s).None?
    ensures forall p, e :: !MatchesAt(s, p, e)
  {
  }

  /** The first match is unique, so it is the candidate whenever it exists. */
  lemma FirstMatchIsCandidate(s: string, p: int, e: int)
    requires IsFirstMatch(s, p, e)
    ensures Candidate(s) == Some(s[p..e])
  {
    forall f ensures !DollarAlternative(s, p, f) {
      DollarAlternativeNeverMatches(s, p, f);
    }
    assert BraceAlternative(s, p, e);
    var first, last := IndexOf(s, '{'), LastIndexOf(s, '}');
    assert first <= p && e - 1 <= last;
    assert MatchesAt(s, first, e);
    assert BraceAlternative(s, p, last + 1);
  }

  /** A scraper diagnostic before and after the JSON object is cut away. */
  lemma CandidateSkipsDiagnostics()
    ensures Candidate("Loading...\n" + "{\"stations\":[]}" + "\nDone") == Some("{\"stations\":[]}")
  {
    var before, json, after := "Loading...\n", "{\"stations\":[]}", "\nDone";
    var s := before + json + after;
    assert |before| == 11 && |json| == 15 && |after| == 5;
    assert s[11] == '{' && forall j :: 0 <= j < 11 ==> s[j] == before[j];
    assert IndexOf(s, '{') == 11;
    assert s[25] == '}' && forall j :: 25 < j < |s| ==> s[j] == after[j - 26];
    assert LastIndexOf(s, '}') == 25;
    assert s[11..26] == json;
  }

  // ---------------------------------------------------------------------------
  // getLatestPrices

  /** How the scraper subprocess ended: with an error (a non-zero exit status
      among others), or with its standard output. */
  datatype ScraperRun = ScraperError(message: string) | Output(stdout: string)

  /** Why the fetch is rejected. */
  datatype FetchError =
    | ScraperFailed(message: string)  // the subprocess reported an error
    | NoJsonFound                     // strict parse failed and the regular expression did not match
    | CandidateUnparseable            // the matched candidate did not parse either

  /** `getLatestPrices`: `parse` stands for `JSON.parse`, None when it throws. */
  function Fetch(run: ScraperRun, parse: string -> Option<Parsed>): (r: Result<Parsed, FetchError>)
    ensures run.ScraperError? ==> r == Err(ScraperFailed(run.message))
    ensures run.Output? && parse(run.stdout).Some? ==> r == Ok(parse(run.stdout).value)
    ensures run.Output? && parse(run.stdout).None? && Candidate(run.stdout).Some? ==>
              r == match parse(Candidate(run.stdout).value)
                   case Some(value) => Ok(value)
                   case None => Err(CandidateUnparseable)
    ensures r == Err(NoJsonFound) <==>
              run.Output? && parse(run.stdout).None? && forall p, e :: !MatchesAt(run.stdout, p, e)
  {
    match run
    case ScraperError(message) => Err(ScraperFailed(message))
    case Output(stdout) =>
      match parse(stdout)
      case Some(value) => Ok(value)
      case None =>
        match Candidate(stdout)
        case None =>
          NoCandidateNoMatch(stdout);
          Err(NoJsonFound)
        case Some(text) =>
          CandidateIsFirstMatch(stdout);
          match parse(text)
          case Some(value) => Ok(value)
          case None => Err(CandidateUnparseable)
  }

  /** After a failed strict parse, the fetch resolves to the parse of the
      regular expression's first match, or is rejected when that throws. */
  lemma FetchParsesFirstMatch(run: ScraperRun, parse: string -> Option<Parsed>, p: int, e: int)
    requires run.Output? && parse(run.stdout).None? && IsFirstMatch(run.stdout, p, e)
    ensures Fetch(run, parse) == match parse(run.stdout[p..e])
                                 case Some(value) => Ok(value)
                                 case None => Err(CandidateUnparseable)
  {
    FirstMatchIsCandidate(run.stdout, p, e);
  }

  /** What JSON.parse guarantees of a text that opens with '{': if it parses
      at all, it is an object, never a list. */
  ghost predicate ParsesBracesAsObjects(parse: string -> Option<Parsed>)
  {
    forall t :: |t| > 0 && t[0] == '{' && parse(t).Some? ==> parse(t).value.NotAList?
  }

  /** The fallback can only ever produce an object, never a list of stations:
      the array alternative of the regular expression is dead. */
  lemma FallbackNeverYieldsStations(run: ScraperRun, parse: string -> Option<Parsed>)
    requires ParsesBracesAsObjects(parse)
    requires run.Output? && parse(run.stdout).None?
    ensures Fetch(run, parse).Ok? ==> Fetch(run, parse).value.NotAList?
  {
  }
}
