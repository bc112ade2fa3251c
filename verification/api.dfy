/** The HTTP endpoints (main.py): the research endpoint's guard, lookup by
    id with its not-found error, and the chat endpoint's keyword router. */
module Api {
  import opened Wrappers
  import opened Text
  import opened Seqs
  import opened Dicts
  import opened Truthiness
  import opened StartupModel
  import opened Scraper
  import opened Database
  import opened Research

  /** An endpoint's outcome: the response body, or an HTTP error. */
  datatype Response<+T> = Ok(body: T) | HttpError(status: int, detail: string)

  // ---------------------------------------------------------------------
  // POST /api/research

  /** The research endpoint: an empty name list is rejected with 400 before
      any research runs; otherwise the batch's records and the table after
      it. */
  function ResearchEndpoint(db: Store, names: seq<string>, srcs: seq<Sources>): (r: (Response<seq<Startup>>, Store))
    requires ValidStore(db) && |srcs| == |names|
    ensures ValidStore(r.1)
    ensures r.0.HttpError? <==> |names| == 0
    ensures r.0.HttpError? ==> r.0 == HttpError(400, "No startups provided") && r.1 == db
    ensures r.0.Ok? ==>
      (&& |r.0.body| == |names|
       && forall i :: 0 <= i < |names| ==> r.0.body[i] == ResearchRecord(names[i], srcs[i]))
  {
    if |names| == 0 then (HttpError(400, "No startups provided"), db)
    else
      var (records, after) := ResearchMany(db, names, srcs);
      (Ok(records), after)
  }

  // ---------------------------------------------------------------------
  // GET /api/startups/{startup_id}

  /** Lookup by id: 404 exactly when no row's id or name is the key. */
  function GetEndpoint(db: Store, key: string): (r: Response<Startup>)
    ensures r.HttpError? <==> forall i :: 0 <= i < |db| ==> !Answers(db[i], key)
    ensures r.HttpError? ==> r == HttpError(404, "Startup not found")
    ensures r.Ok? ==> r.body in db && Answers(r.body, key)
    ensures r.Ok? ==> exists i :: (0 <= i < |db| && db[i] == r.body
      && forall j :: 0 <= j < i ==> !Answers(db[j], key))
  {
    match GetStartup(db, key)
    case None => HttpError(404, "Startup not found")
    case Some(s) => Ok(s)
  }

  /** A record just saved is found under its id. */
  lemma GetEndpointAfterSave(db: Store, row: Startup)
    requires ValidStore(db) && row.id.Some?
    ensures GetEndpoint(Upsert(db, row), row.id.value).Ok?
  {
    GetAfterUpsert(db, row);
  }

  // ---------------------------------------------------------------------
  // POST /api/chat

  const IndustryWords: seq<string> := ["industry", "sector", "industries"]
  const FundingWords: seq<string> := ["funding", "investment", "money", "raised"]
  const FounderWords: seq<string> := ["founder", "started", "created"]
  const LocationWords: seq<string> := ["location", "headquarter", "based", "where"]

  /** The chat query's intent, in order of precedence. */
  datatype Intent = AskIndustries | AskFunding | AskFounders | AskLocations | AskSearch

  /** Position of an intent in the precedence order (0 is checked first). */
  function Rank(i: Intent): nat {
    match i
    case AskIndustries => 0
    case AskFunding => 1
    case AskFounders => 2
    case AskLocations => 3
    case AskSearch => 4
  }

  /** The lower-cased query is matched against each keyword group, by
      substring, in turn; the first group that occurs decides. */
  function Route(query: string): (r: Intent)
    ensures MentionsAny(Lower(query), IndustryWords) <==> r == AskIndustries
    ensures r == AskSearch <==>
      !MentionsAny(Lower(query), IndustryWords) && !MentionsAny(Lower(query), FundingWords)
      && !MentionsAny(Lower(query), FounderWords) && !MentionsAny(Lower(query), LocationWords)
  {
    var q := Lower(query);
    if MentionsAny(q, IndustryWords) then AskIndustries
    else if MentionsAny(q, FundingWords) then AskFunding
    else if MentionsAny(q, FounderWords) then AskFounders
    else if MentionsAny(q, LocationWords) then AskLocations
    else AskSearch
  }

  /** The intent is the highest-precedence group that the query mentions:
      it mentions the routed group and none of those ranked before it. */
  predicate Mentions(query: string, i: Intent) {
    match i
    case AskIndustries => MentionsAny(Lower(query), IndustryWords)
    case AskFunding => MentionsAny(Lower(query), FundingWords)
    case AskFounders => MentionsAny(Lower(query), FounderWords)
    case AskLocations => MentionsAny(Lower(query), LocationWords)
    case AskSearch => true
  }

  lemma RouteIsFirstMentioned(query: string)
    ensures Mentions(query, Route(query))
    ensures forall i: Intent :: Rank(i) < Rank(Route(query)) ==> !Mentions(query, i)
  {
  }

  /** Routing ignores ASCII letter case. */
  lemma RouteIgnoresCase(a: string, b: string)
    requires Lower(a) == Lower(b)
    ensures Route(a) == Route(b)
  {
  }

  /** A mention survives adding text around the query. */
  lemma MentionsWiden(query: string, before: string, after: string, words: seq<string>)
    requires MentionsAny(Lower(query), words)
    ensures MentionsAny(Lower(before + query + after), words)
  {
    var w :| w in words && Contains(Lower(query), w);
    LowerConcat(before + query, after);
    LowerConcat(before, query);
    ContainsWiden(Lower(query), w, Lower(before), Lower(after));
  }

  /** Adding text around a query never moves it to a later group. */
  lemma RouteWiden(query: string, before: string, after: string)
    ensures Rank(Route(before + query + after)) <= Rank(Route(query))
  {
    var words := match Route(query)
      case AskIndustries => IndustryWords
      case AskFunding => FundingWords
      case AskFounders => FounderWords
      case AskLocations => LocationWords
      case AskSearch => [];
    if Route(query) != AskSearch {
      MentionsWiden(query, before, after, words);
    }
  }

  /** Industry words are checked before funding words. */
  lemma SectorBeforeFunding()
    ensures Route("Funding by sector") == AskIndustries
  {
    assert Lower("Funding by sector") == "funding by sector";
    assert MatchAt("funding by sector", "sector", 11);
    assert "sector" in IndustryWords;
  }

  /** The entry a row adds to the founders map: its name and founders, when
      the founders list is non-empty. */
  function FounderEntry(s: Startup): Option<(string, seq<string>)> {
    if Truthy(s.founders) then Some((s.name, s.founders.value)) else None
  }

  /** The entry a row adds to the locations map: its name and headquarters,
      when the headquarters are non-empty. */
  function LocationEntry(s: Startup): Option<(string, string)> {
    if Truthy(s.headquarters) then Some((s.name, s.headquarters.value)) else None
  }

  /** The chat endpoint's reply. */
  datatype ChatReply =
    | Report(analytics: Analytics)
    | FoundersByName(founders: Dict<string, seq<string>>)
    | LocationsByName(locations: Dict<string, string>)
    | SearchResults(results: seq<Startup>)

  /** `chat_query`: the routed intent's reply. */
  function ChatQuery(db: Store, query: string): (r: ChatReply)
    ensures Route(query) == AskIndustries <==> r.Report? && r.analytics.IndustryCount?
    ensures Route(query) == AskFunding <==> r.Report? && r.analytics.FundingSummary?
    ensures r.Report? ==> !r.analytics.StartupCount?
    ensures r.FoundersByName? <==> Route(query) == AskFounders
    ensures r.LocationsByName? <==> Route(query) == AskLocations
    ensures r.SearchResults? <==> Route(query) == AskSearch
    ensures r.SearchResults? ==>
      (&& Subseq(r.results, db)
       && forall x :: x in r.results <==> x in db && Matches(x, Lower(query)))
    ensures r.Report? && Route(query) == AskIndustries ==> r.analytics == RunAnalytics(db, "industry_count")
    ensures r.Report? && Route(query) == AskFunding ==> r.analytics == RunAnalytics(db, "funding_stats")
    ensures r.FoundersByName? ==> r.founders == Collect(db, FounderEntry)
    ensures r.LocationsByName? ==> r.locations == Collect(db, LocationEntry)
  {
    match Route(query)
    case AskIndustries => Report(RunAnalytics(db, "industry_count"))
    case AskFunding => Report(RunAnalytics(db, "funding_stats"))
    case AskFounders => FoundersByName(Collect(db, FounderEntry))
    case AskLocations => LocationsByName(Collect(db, LocationEntry))
    case AskSearch =>
      LowerIdempotent(query);
      SearchResults(SearchStartups(db, Lower(query)))
  }

  /** Searching from the chat lower-cases the query twice, which is the same
      as the search endpoint's single lower-casing. */
  lemma ChatSearchIsSearch(db: Store, query: string)
    requires Route(query) == AskSearch
    ensures ChatQuery(db, query) == SearchResults(SearchStartups(db, query))
  {
    LowerIdempotent(query);
  }

  /** Row `s` is called `name` and lists founders. */
  predicate ListsFounders(s: Startup, name: string) {
    s.name == name && Truthy(s.founders)
  }

  /** Row `s` is called `name` and names its headquarters. */
  predicate ListsLocation(s: Startup, name: string) {
    s.name == name && Truthy(s.headquarters)
  }

  /** The founders map holds a name exactly when some row with that name has
      non-empty founders, and then the last such row's founders. */
  lemma FoundersByNameLastWins(db: Store, name: string)
    ensures var m := Collect(db, FounderEntry);
      && (Lookup(m, name).None? <==> forall i :: 0 <= i < |db| ==> !ListsFounders(db[i], name))
      && (Lookup(m, name).Some? ==> exists i :: (0 <= i < |db| && ListsFounders(db[i], name)
            && db[i].founders.value == Lookup(m, name).value
            && forall j :: i < j < |db| ==> !ListsFounders(db[j], name)))
  {
    forall i | 0 <= i < |db|
      ensures KeyedAt(db, FounderEntry, name, i) <==> ListsFounders(db[i], name)
    {
    }
    CollectAbsent(db, FounderEntry, name);
    if Lookup(Collect(db, FounderEntry), name).Some? {
      CollectLastWins(db, FounderEntry, name);
    }
  }

  /** The locations map holds a name exactly when some row with that name
      has a non-empty headquarters, and then the last such row's. */
  lemma LocationsByNameLastWins(db: Store, name: string)
    ensures var m := Collect(db, LocationEntry);
      && (Lookup(m, name).None? <==> forall i :: 0 <= i < |db| ==> !ListsLocation(db[i], name))
      && (Lookup(m, name).Some? ==> exists i :: (0 <= i < |db| && ListsLocation(db[i], name)
            && db[i].headquarters.value == Lookup(m, name).value
            && forall j :: i < j < |db| ==> !ListsLocation(db[j], name)))
  {
    forall i | 0 <= i < |db|
      ensures KeyedAt(db, LocationEntry, name, i) <==> ListsLocation(db[i], name)
    {
    }
    CollectAbsent(db, LocationEntry, name);
    if Lookup(Collect(db, LocationEntry), name).Some? {
      CollectLastWins(db, LocationEntry, name);
    }
  }
}
