/** The research pipeline (app/services/research_service.py): one company's
    four lookups merged into a `Startup` record with defaults, saved, and
    returned; a batch researches each name of a list.

    Each lookup is an input `Call`: Raised when the scraper call raised
    (caught and replaced by an empty value), otherwise what it returned.
    Opening and closing the scraper session, and opening the database, are
    outside those per-lookup handlers: when one of them raises, the outer
    handler returns the bare record `Startup(name=...)` and nothing is saved. */
module Research {
  import opened Wrappers
  import opened Seqs
  import opened Text
  import opened Dicts
  import opened Truthiness
  import opened StartupModel
  import opened Scraper
  import opened Database

  /** Everything one research run observes. `session` is false when opening
      or closing the scraper session raises. `scrape` is only consulted when
      the discovered URL is truthy. */
  datatype Sources = Sources(
    session: bool,
    discovery: Call<Option<string>>,
    scrape: Call<WebsiteData>,
    profile: Call<CompanyData>,
    news: Call<seq<NewsItem>>,
    store: StoreMode)

  /** The website guessed from the name: an https URL ending in ".com"
      whose host is built from the name's characters, lower-cased, without
      its spaces. */
  function DefaultWebsite(name: string): (r: string)
    ensures |r| >= 12 && ' ' !in r
    ensures r[..8] == "https://" && r[|r| - 4..] == ".com"
    ensures forall x :: x in r[8..|r| - 4] <==> x in Lower(name) && x != ' '
    ensures Subseq(r[8..|r| - 4], Lower(name)) && |r| == 12 + |name| - multiset(name)[' ']
  {
    var host := Delete(Lower(name), ' ');
    LowerSpaces(name);
    var r := "https://" + host + ".com";
    assert r[8..|r| - 4] == host;
    r
  }

  /** The host guessed for "Acme Robotics". */
  lemma AcmeRoboticsHost()
    ensures Delete(Lower("Acme Robotics"), ' ') == "acme" + "robotics"
  {
    assert Lower("Acme Robotics") == "acme" + [' '] + "robotics";
    DeleteOneSpace("acme", "robotics", ' ');
  }

  /** The website guessed for "Acme Robotics". */
  lemma AcmeRoboticsWebsite()
    ensures DefaultWebsite("Acme Robotics") == "https://acmerobotics.com"
  {
    AcmeRoboticsHost();
    var host := "acme" + "robotics";
    assert DefaultWebsite("Acme Robotics") == "https://" + host + ".com";
    AcmeRoboticsUrl(host);
  }

  lemma AcmeRoboticsUrl(host: string)
    requires host == "acme" + "robotics"
    ensures "https://" + host + ".com" == "https://acmerobotics.com"
  {
  }

  function DefaultDescription(name: string): string {
    name + " is a company in the technology sector."
  }

  const NotAvailable: string := "N/A"
  const DefaultIndustry: seq<string> := ["Technology"]
  const DefaultFunding: Dict<string, Amount> := [("Estimated", AmountText("Unknown"))]

  /** Every field of the record is filled in, except possibly the employee
      count, and the text fields and the industry and funding are non-empty. */
  predicate Complete(r: Startup) {
    && r.id.Some? && Truthy(r.website) && Truthy(r.description)
    && r.foundedYear.Some? && r.foundedYear.value.YearText? && |r.foundedYear.value.text| > 0
    && Truthy(r.headquarters) && Truthy(r.industry) && Truthy(r.funding)
    && r.founders.Some? && r.products.Some? && r.socialMedia.Some? && r.news.Some?
  }

  /** The record built from the lookups' results: each value taken when
      truthy, otherwise its default; the employee count and the news are
      taken as they are. */
  function Merge(name: string, url: Option<string>, wd: WebsiteData, cd: CompanyData, news: seq<NewsItem>)
    : (r: Startup)
    ensures Complete(r) && r.name == name && r.id == Some(Slug(name))
    ensures r.employeesCount == cd.employeesCount && r.news == Some(news)
  {
    Startup(
      id := Some(Slug(name)),
      name := name,
      website := Some(Or(url, Or(wd.website, DefaultWebsite(name)))),
      description := Some(Or(wd.description, DefaultDescription(name))),
      foundedYear := Some(YearText(Or(cd.foundedYear, NotAvailable))),
      headquarters := Some(Or(cd.headquarters, NotAvailable)),
      industry := Some(Or(cd.industry, DefaultIndustry)),
      funding := Some(Or(cd.funding, DefaultFunding)),
      founders := Some(Or(cd.founders, [])),
      employeesCount := cd.employeesCount,
      products := Some(Or(wd.products, [])),
      socialMedia := Some(Or(wd.socialMedia, [])),
      news := Some(news))
  }

  /** Python `x or default` sees no difference between a falsy value and None. */
  function Norm<T>(o: Option<seq<T>>): (r: Option<seq<T>>)
    ensures Truthy(r) == Truthy(o)
    ensures r.None? || r == o
  {
    if Truthy(o) then o else None
  }

  function NormWebsite(wd: WebsiteData): WebsiteData {
    WebsiteData(Norm(wd.website), Norm(wd.description), Norm(wd.products), Norm(wd.socialMedia))
  }

  function NormCompany(cd: CompanyData): CompanyData {
    CompanyData(Norm(cd.foundedYear), Norm(cd.headquarters), Norm(cd.industry), Norm(cd.funding),
                Norm(cd.founders), cd.employeesCount)
  }

  /** Only truthiness matters: replacing every falsy value by None leaves the
      record unchanged. */
  lemma MergeIgnoresFalsy(name: string, url: Option<string>, wd: WebsiteData, cd: CompanyData, news: seq<NewsItem>)
    ensures Merge(name, Norm(url), NormWebsite(wd), NormCompany(cd), news) == Merge(name, url, wd, cd, news)
  {
  }

  /** A falsy value is replaced by its default. */
  lemma MergeFallbacks(name: string, url: Option<string>, wd: WebsiteData, cd: CompanyData, news: seq<NewsItem>)
    ensures var r := Merge(name, url, wd, cd, news);
      && (!Truthy(url) && !Truthy(wd.website) ==> r.website == Some(DefaultWebsite(name)))
      && (!Truthy(wd.description) ==> r.description == Some(DefaultDescription(name)))
      && (!Truthy(cd.foundedYear) ==> r.foundedYear == Some(YearText("N/A")))
      && (!Truthy(cd.headquarters) ==> r.headquarters == Some("N/A"))
      && (!Truthy(cd.industry) ==> r.industry == Some(["Technology"]))
      && (!Truthy(cd.funding) ==> r.funding == Some([("Estimated", AmountText("Unknown"))]))
      && (!Truthy(cd.founders) ==> r.founders == Some([]))
      && (!Truthy(wd.products) ==> r.products == Some([]))
      && (!Truthy(wd.socialMedia) ==> r.socialMedia == Some([]))
  {
  }

  /** A truthy value is kept; the discovered URL takes precedence over the
      scraped website. */
  lemma MergeKeeps(name: string, url: Option<string>, wd: WebsiteData, cd: CompanyData, news: seq<NewsItem>)
    ensures var r := Merge(name, url, wd, cd, news);
      && (Truthy(url) ==> r.website == url)
      && (!Truthy(url) && Truthy(wd.website) ==> r.website == wd.website)
      && (Truthy(wd.description) ==> r.description == wd.description)
      && (Truthy(cd.foundedYear) ==> r.foundedYear == Some(YearText(cd.foundedYear.value)))
      && (Truthy(cd.headquarters) ==> r.headquarters == cd.headquarters)
      && (Truthy(cd.industry) ==> r.industry == cd.industry)
      && (Truthy(cd.funding) ==> r.funding == cd.funding)
      && (Truthy(cd.founders) ==> r.founders == cd.founders)
      && (Truthy(wd.products) ==> r.products == wd.products)
      && (Truthy(wd.socialMedia) ==> r.socialMedia == wd.socialMedia)
  {
  }

  /** Merging a record's own fields gives it back: a merged record is a fixed
      point, so the defaults never overwrite a value. */
  lemma MergeStable(name: string, url: Option<string>, wd: WebsiteData, cd: CompanyData, news: seq<NewsItem>)
    ensures var r := Merge(name, url, wd, cd, news);
      Merge(name, r.website, WebsiteData(r.website, r.description, r.products, r.socialMedia),
            CompanyData(Some(r.foundedYear.value.text), r.headquarters, r.industry, r.funding,
                        r.founders, r.employeesCount),
            r.news.value) == r
  {
  }

  /** The record when every lookup raised: all defaults, no news. */
  function Defaults(name: string): (r: Startup)
    ensures Complete(r)
  {
    Merge(name, None, NoWebsiteData, NoCompanyData, [])
  }

  /** What one lookup contributes after its handler: its value, or the empty
      value when it raised. */
  function Caught<T>(c: Call<T>, empty: T): T {
    match c
    case Raised => empty
    case Returned(v) => v
  }

  /** The website data: scraped only when the discovered URL is truthy. */
  function WebsiteOf(url: Option<string>, scrape: Call<WebsiteData>): (r: WebsiteData)
    ensures !Truthy(url) ==> r == NoWebsiteData
    ensures Truthy(url) && scrape.Returned? ==> r == scrape.value
    ensures Truthy(url) && scrape.Raised? ==> r == NoWebsiteData
  {
    if Truthy(url) then Caught(scrape, NoWebsiteData) else NoWebsiteData
  }

  /** `research_startup`'s returned record. */
  function ResearchRecord(name: string, src: Sources): (r: Startup)
    ensures r.name == name
    ensures !src.session || src.store.Unreachable? <==> r == NamedOnly(name)
    ensures src.session && !src.store.Unreachable? ==> Complete(r) && r.id == Some(Slug(name))
  {
    if !src.session || src.store.Unreachable? then NamedOnly(name)
    else
      var url := Caught(src.discovery, None);
      Merge(name, url, WebsiteOf(url, src.scrape), Caught(src.profile, NoCompanyData), Caught(src.news, []))
  }

  /** `research_startup`: the returned record and the table afterwards. The
      record is saved only when the session worked and the store accepted
      the write; its row then replaces any row with the same id and goes
      last. */
  function ResearchStartup(db: Store, name: string, src: Sources): (r: (Startup, Store))
    requires ValidStore(db)
    ensures r.0 == ResearchRecord(name, src)
    ensures ValidStore(r.1)
    ensures !(src.session && src.store.Writable?) ==> r.1 == db
    ensures src.session && src.store.Writable? ==>
      (&& |r.1| > 0 && r.1[|r.1| - 1] == r.0
       && r.0.id == Some(Slug(name))
       && Subseq(r.1[..|r.1| - 1], db)
       && forall x :: x in r.1[..|r.1| - 1] <==> x in db && x.id != Some(Slug(name)))
  {
    var record := ResearchRecord(name, src);
    if !src.session then (record, db)
    else
      match SaveStartup(db, record, src.store)
      case Raised => (record, db)
      case Returned((_, after)) => (record, after)
  }

  /** A lookup that raised counts as one that returned its empty value. */
  lemma RaisedIsEmpty(name: string, src: Sources)
    ensures ResearchRecord(name, src.(discovery := Raised)) == ResearchRecord(name, src.(discovery := Returned(None)))
    ensures ResearchRecord(name, src.(scrape := Raised)) == ResearchRecord(name, src.(scrape := Returned(NoWebsiteData)))
    ensures ResearchRecord(name, src.(profile := Raised)) == ResearchRecord(name, src.(profile := Returned(NoCompanyData)))
    ensures ResearchRecord(name, src.(news := Raised)) == ResearchRecord(name, src.(news := Returned([])))
  {
  }

  /** Without a truthy URL the scrape is never consulted. */
  lemma ScrapeNeedsUrl(name: string, src: Sources, other: Call<WebsiteData>)
    requires !Truthy(Caught(src.discovery, None))
    ensures ResearchRecord(name, src.(scrape := other)) == ResearchRecord(name, src)
  {
  }

  /** When every lookup raises, the record holds only defaults. */
  lemma AllRaisedGivesDefaults(name: string, store: StoreMode)
    requires !store.Unreachable?
    ensures ResearchRecord(name, Sources(true, Raised, Raised, Raised, Raised, store)) == Defaults(name)
  {
  }

  /** The defaults for "Acme Robotics". */
  lemma AcmeRoboticsDefaults()
    ensures var r := Defaults("Acme Robotics");
      && r.id == Some("acme-robotics")
      && r.foundedYear == Some(YearText("N/A")) && r.headquarters == Some("N/A")
      && r.industry == Some(["Technology"]) && r.funding == Some([("Estimated", AmountText("Unknown"))])
      && r.founders == Some([]) && r.products == Some([]) && r.socialMedia == Some([])
      && r.employeesCount == None && r.news == Some([])
      && r.website == Some("https://acmerobotics.com")
  {
    SlugCollision();
    AcmeRoboticsWebsite();
  }

  // ---------------------------------------------------------------------
  // The lookups of the scraper

  /** A discovered URL becomes the website, and the scrape of it supplies
      the description; without one the website is guessed from the name. */
  lemma RecordWebsite(name: string, src: Sources)
    requires src.session && !src.store.Unreachable?
    ensures var r := ResearchRecord(name, src);
      && (Truthy(Caught(src.discovery, None)) ==> r.website == Caught(src.discovery, None))
      && (Truthy(Caught(src.discovery, None)) && src.scrape.Returned? && Truthy(src.scrape.value.description)
          ==> r.description == src.scrape.value.description)
      && (!Truthy(Caught(src.discovery, None)) ==> r.website == Some(DefaultWebsite(name)))
  {
  }

  /** The company profile reaches the record: the employee count as it is,
      every other field when truthy and its default otherwise; a profile
      lookup that raised leaves only defaults. */
  lemma RecordProfile(name: string, src: Sources)
    requires src.session && !src.store.Unreachable?
    ensures var r := ResearchRecord(name, src);
      src.profile.Returned? ==>
        var cd := src.profile.value;
        && r.employeesCount == cd.employeesCount
        && r.foundedYear == Some(YearText(if Truthy(cd.foundedYear) then cd.foundedYear.value else "N/A"))
        && r.headquarters == (if Truthy(cd.headquarters) then cd.headquarters else Some("N/A"))
        && r.industry == (if Truthy(cd.industry) then cd.industry else Some(["Technology"]))
        && r.funding == (if Truthy(cd.funding) then cd.funding else Some([("Estimated", AmountText("Unknown"))]))
        && r.founders == (if Truthy(cd.founders) then cd.founders else Some([]))
    ensures var r := ResearchRecord(name, src);
      src.profile.Raised? ==>
        && r.employeesCount == None && r.foundedYear == Some(YearText("N/A"))
        && r.headquarters == Some("N/A") && r.industry == Some(["Technology"])
        && r.funding == Some([("Estimated", AmountText("Unknown"))]) && r.founders == Some([])
  {
    var url := Caught(src.discovery, None);
    var wd := WebsiteOf(url, src.scrape);
    var cd := Caught(src.profile, NoCompanyData);
    MergeKeeps(name, url, wd, cd, Caught(src.news, []));
    MergeFallbacks(name, url, wd, cd, Caught(src.news, []));
  }

  /** The scrape of a discovered website reaches the record: its products,
      social links and description when truthy, their defaults otherwise;
      a scrape that raised leaves only defaults. */
  lemma RecordScrape(name: string, src: Sources)
    requires src.session && !src.store.Unreachable? && Truthy(Caught(src.discovery, None))
    ensures var r := ResearchRecord(name, src);
      src.scrape.Returned? ==>
        var wd := src.scrape.value;
        && r.products == (if Truthy(wd.products) then wd.products else Some([]))
        && r.socialMedia == (if Truthy(wd.socialMedia) then wd.socialMedia else Some([]))
        && r.description == (if Truthy(wd.description) then wd.description else Some(DefaultDescription(name)))
    ensures var r := ResearchRecord(name, src);
      src.scrape.Raised? ==>
        && r.products == Some([]) && r.socialMedia == Some([])
        && r.description == Some(DefaultDescription(name))
  {
    var url := Caught(src.discovery, None);
    var wd := WebsiteOf(url, src.scrape);
    var cd := Caught(src.profile, NoCompanyData);
    MergeKeeps(name, url, wd, cd, Caught(src.news, []));
    MergeFallbacks(name, url, wd, cd, Caught(src.news, []));
  }

  /** With the scraper's discovery and scrape (which catch their own
      exceptions), the website is the discovered one, or the guess from the
      name when none was found; the description is the page's meta
      description when the website was found and the page had a non-empty
      one. */
  lemma LiveWebsite(name: string, search: Reply<seq<OrganicResult>>, page: Reply<Page>, src: Sources)
    requires src.session && !src.store.Unreachable?
    requires src.discovery == Returned(DiscoverWebsite(name, search))
    requires src.scrape == Returned(ScrapeWebsite(DiscoverWebsite(name, search).GetOr(""), page))
    ensures DiscoverWebsite(name, search).Some? ==>
      ResearchRecord(name, src).website == DiscoverWebsite(name, search)
    ensures DiscoverWebsite(name, search).None? ==>
      ResearchRecord(name, src).website == Some(DefaultWebsite(name))
    ensures (&& DiscoverWebsite(name, search).Some?
             && page.Answered? && page.body.meta.MetaContent? && page.body.meta.content != "")
      ==> ResearchRecord(name, src).description == Some(page.body.meta.content)
  {
    RecordWebsite(name, src);
  }

  /** With the scraper's profile lookup, the industries are the profile's
      whenever the lookup ran to its end. */
  lemma LiveIndustry(name: string, wiki: WikiSource, src: Sources)
    requires src.session && !src.store.Unreachable?
    requires src.profile == Returned(SearchProfile(name, wiki))
    ensures Completes(wiki) ==> ResearchRecord(name, src).industry == SearchProfile(name, wiki).industry
  {
  }

  /** With the scraper's news lookup, the news are its three placeholder
      entries. */
  lemma LiveNews(name: string, src: Sources)
    requires src.session && !src.store.Unreachable? && src.news.Returned?
    ensures src.news.value == SearchNews(name) ==>
      ResearchRecord(name, src).news == Some(SearchNews(name)) && |ResearchRecord(name, src).news.value| == 3
  {
  }

  // ---------------------------------------------------------------------
  // research_startups

  /** The batch, one name after the other: the records in input order and
      the table after every save. */
  function ResearchMany(db: Store, names: seq<string>, srcs: seq<Sources>): (r: (seq<Startup>, Store))
    requires ValidStore(db) && |srcs| == |names|
    ensures ValidStore(r.1)
    ensures |r.0| == |names|
    ensures forall i :: 0 <= i < |names| ==> r.0[i] == ResearchRecord(names[i], srcs[i])
    decreases |names|
  {
    if |names| == 0 then ([], db)
    else
      var n := |names| - 1;
      var (records, mid) := ResearchMany(db, names[..n], srcs[..n]);
      var (record, after) := ResearchStartup(mid, names[n], srcs[n]);
      (records + [record], after)
  }

  /** A name whose research was saved has a row afterwards, whatever is
      researched later; a later name with the same slug replaces the row. */
  lemma {:induction false} ResearchManyKeepsRows(db: Store, names: seq<string>, srcs: seq<Sources>, i: int)
    requires ValidStore(db) && |srcs| == |names|
    requires 0 <= i < |names| && srcs[i].session && srcs[i].store.Writable?
    ensures exists x :: x in ResearchMany(db, names, srcs).1 && x.id == Some(Slug(names[i]))
    decreases |names|
  {
    var n := |names| - 1;
    var mid := ResearchMany(db, names[..n], srcs[..n]).1;
    var after := ResearchStartup(mid, names[n], srcs[n]).1;
    if i == n {
      assert after[|after| - 1] in after;
    } else {
      ResearchManyKeepsRows(db, names[..n], srcs[..n], i);
      var x :| x in mid && x.id == Some(Slug(names[..n][i]));
      if srcs[n].session && srcs[n].store.Writable? && x.id == Some(Slug(names[n])) {
        assert after[|after| - 1] in after;
      } else if srcs[n].session && srcs[n].store.Writable? {
        assert x in after[..|after| - 1];
      }
    }
  }
}
