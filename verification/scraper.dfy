/** The scraper's deterministic logic (app/services/scraper_service.py).
    Every HTTP request is an input `Reply`; JSON and HTML decoding are
    abstracted into the already-extracted values the code goes on to use. */
module Scraper {
  import opened Wrappers
  import opened Seqs
  import opened Text
  import opened Dicts
  import opened Truthiness
  import opened StartupModel

  // ---------------------------------------------------------------------
  // Website discovery (search_company_website)

  /** One organic search result. `link` is None when the key is absent or
      null; `title` is "" when the key is absent and None when it is null. */
  datatype OrganicResult = OrganicResult(link: Option<string>, title: Option<string>)

  /** The result the discovery loop accepts: a truthy link and a title that
      contains the name, both lower-cased. */
  predicate Accepts(name: string, r: OrganicResult) {
    r.title.Some? && Truthy(r.link) && Contains(Lower(r.title.value), Lower(name))
  }

  /** How the loop over the organic results ends: with an accepted link,
      without one, or by raising (lower-casing a null title). */
  datatype Scan = Found(link: string) | NotFound | Crashed

  function ScanResults(name: string, results: seq<OrganicResult>): (r: Scan)
    ensures r.Found? ==>
      exists j :: 0 <= j < |results| && Accepts(name, results[j])
        && r.link == results[j].link.value
        && forall k :: 0 <= k < j ==> results[k].title.Some? && !Accepts(name, results[k])
    ensures r.NotFound? <==>
      forall k :: 0 <= k < |results| ==> results[k].title.Some? && !Accepts(name, results[k])
    ensures r.Crashed? ==>
      exists j :: 0 <= j < |results| && results[j].title.None?
        && forall k :: 0 <= k < j ==> results[k].title.Some? && !Accepts(name, results[k])
  {
    if |results| == 0 then NotFound
    else if results[0].title.None? then Crashed
    else if Accepts(name, results[0]) then Found(results[0].link.value)
    else
      var r := ScanResults(name, results[1..]);
      assert forall k :: 0 < k < |results| ==> results[k] == results[1..][k - 1];
      r
  }

  /** Disambiguation for names with several meanings (exact, case-sensitive keys). */
  const WikiTerms: Dict<string, string> := [
    ("Apple", "Inc. technology company"),
    ("Microsoft", "Corporation software company"),
    ("Google", "technology company"),
    ("Amazon", "company Jeff Bezos"),
    ("Tesla", "electric vehicle company Elon Musk"),
    ("Shell", "oil company"),
    ("Target", "retail corporation"),
    ("Orange", "telecommunications company"),
    ("Disney", "entertainment company"),
    ("Delta", "airline company"),
    ("General", "Electric company"),
    ("Ford", "Motor Company"),
    ("Nike", "sportswear company"),
    ("Uber", "ride-sharing company"),
    ("Lyft", "ride-sharing company"),
    ("Oracle", "software company"),
    ("Intel", "semiconductor company"),
    ("Coca-Cola", "beverage company"),
    ("OpenAI", "AI research company"),
    ("Stripe", "payment processing company")
  ]

  /** Lower-cased single-word names that get no generic suffix. */
  const SuffixExclusions: seq<string> :=
    ["microsoft", "google", "facebook", "netflix", "stripe", "airbnb", "uber"]

  const WikiBase: string := "https://en.wikipedia.org/wiki/"

  /** " " followed by the table entry for `name`, or "" when it has none. */
  function TableSuffix(name: string): (r: string)
    ensures Lookup(WikiTerms, name).None? ==> r == ""
    ensures Lookup(WikiTerms, name).Some? ==> r == " " + Lookup(WikiTerms, name).value
  {
    match Lookup(WikiTerms, name)
    case Some(term) => " " + term
    case None => ""
  }

  /** The suffix of the fallback article title: the table entry, else
      " company" for a single word that is not excluded, else nothing. */
  function FallbackSuffix(name: string): (r: string)
    ensures Lookup(WikiTerms, name).Some? ==> r == " " + Lookup(WikiTerms, name).value
    ensures Lookup(WikiTerms, name).None? && WordCount(name) == 1 && Lower(name) !in SuffixExclusions
      ==> r == " company"
    ensures Lookup(WikiTerms, name).None? && !(WordCount(name) == 1 && Lower(name) !in SuffixExclusions)
      ==> r == ""
  {
    if Lookup(WikiTerms, name).Some? then TableSuffix(name)
    else if WordCount(name) == 1 && Lower(name) !in SuffixExclusions then " company"
    else ""
  }

  /** The Wikipedia article URL tried when no search result is accepted. */
  function WikiFallback(name: string): (r: string)
    ensures ' ' !in r
    ensures Lookup(WikiTerms, name).Some? ==>
      r == WikiBase + Replace(name, ' ', '_') + "_" + Replace(Lookup(WikiTerms, name).value, ' ', '_')
    ensures Lookup(WikiTerms, name).None? && WordCount(name) == 1 && Lower(name) !in SuffixExclusions
      ==> r == WikiBase + Replace(name, ' ', '_') + "_company"
    ensures Lookup(WikiTerms, name).None? && !(WordCount(name) == 1 && Lower(name) !in SuffixExclusions)
      ==> r == WikiBase + Replace(name, ' ', '_')
  {
    assert ' ' !in WikiBase;
    var head := WikiBase + Replace(name, ' ', '_');
    var suffix := FallbackSuffix(name);
    SuffixUnderscored(head, suffix, Lookup(WikiTerms, name).GetOr(""));
    CompanyUnderscored(head);
    NothingUnderscored(head);
    head + Replace(suffix, ' ', '_')
  }

  lemma NothingUnderscored(head: string)
    ensures head + Replace("", ' ', '_') == head
  {
    assert Replace("", ' ', '_') == [];
  }

  lemma CompanyUnderscored(head: string)
    ensures head + Replace(" company", ' ', '_') == head + "_company"
  {
    assert Replace(" company", ' ', '_') == "_company";
  }

  /** A suffix " t" appended with its spaces underscored is "_" and `t`
      underscored. */
  lemma SuffixUnderscored(head: string, suffix: string, tail: string)
    ensures suffix == " " + tail ==> head + Replace(suffix, ' ', '_') == head + "_" + Replace(tail, ' ', '_')
  {
    ReplaceConcat(" ", tail, ' ', '_');
    assert Replace(" ", ' ', '_') == "_";
    ConcatAssoc(head, "_", Replace(tail, ' ', '_'));
  }

  /** The company website found by the search API, or the Wikipedia fallback,
      or None when the request or the loop raised. */
  function DiscoverWebsite(name: string, search: Reply<seq<OrganicResult>>): (r: Option<string>)
    ensures r.None? <==> search.Failed? || (search.Answered? && ScanResults(name, search.body).Crashed?)
    ensures r.Some? ==> |r.value| > 0
    ensures search.Answered? && ScanResults(name, search.body).Found?
      ==> r == Some(ScanResults(name, search.body).link)
    ensures (search.Refused? || (search.Answered? && ScanResults(name, search.body).NotFound?))
      ==> r == Some(WikiFallback(name))
  {
    match search
    case Failed => None
    case Refused => Some(WikiFallback(name))
    case Answered(results) =>
      match ScanResults(name, results)
      case Found(link) => Some(link)
      case NotFound => Some(WikiFallback(name))
      case Crashed => None
  }

  /** The term searched on Wikipedia by the structured-profile lookup: the
      name plus its table suffix, without the single-word rule. */
  function SearchQuery(name: string): (r: string)
    ensures Lookup(WikiTerms, name).None? ==> r == name
    ensures Lookup(WikiTerms, name).Some? ==> r == name + " " + Lookup(WikiTerms, name).value
  {
    ConcatAssoc(name, " ", Lookup(WikiTerms, name).GetOr(""));
    name + TableSuffix(name)
  }

  /** For a name in the table, the fallback article title is the structured
      lookup's query with spaces turned into underscores. */
  lemma FallbackFollowsQuery(name: string)
    ensures Lookup(WikiTerms, name).Some? ==> WikiFallback(name) == WikiBase + Replace(SearchQuery(name), ' ', '_')
  {
    if Lookup(WikiTerms, name).Some? {
      assert FallbackSuffix(name) == TableSuffix(name);
      ReplaceConcat(name, TableSuffix(name), ' ', '_');
    }
  }

  // ---------------------------------------------------------------------
  // Website scrape (scrape_company_website)

  datatype MetaTag = NoMetaTag | MetaWithoutContent | MetaContent(content: string)

  /** What the HTML parser extracts from a page: the description meta tag,
      every anchor's href in document order, and the heading texts of the
      product sections. Those are gathered section by section: for each
      section or div whose class mentions product, solutions or offering, in
      document order, the text of every h2, h3 and h4 inside it. A heading
      inside nested matching sections therefore appears once per enclosing
      section. */
  datatype Page = Page(meta: MetaTag, hrefs: seq<string>, headings: seq<string>)

  /** The dictionary returned by the scrape; all None is the empty dict. */
  datatype WebsiteData = WebsiteData(
    website: Option<string>,
    description: Option<string>,
    products: Option<seq<string>>,
    socialMedia: Option<Dict<string, string>>)

  const NoWebsiteData: WebsiteData := WebsiteData(None, None, None, None)

  datatype Platform = Twitter | LinkedIn | Facebook | Instagram

  /** The platforms in the order their patterns are tried. */
  const Platforms: seq<Platform> := [Twitter, LinkedIn, Facebook, Instagram]

  function PlatformKey(p: Platform): string {
    match p
    case Twitter => "twitter"
    case LinkedIn => "linkedin"
    case Facebook => "facebook"
    case Instagram => "instagram"
  }

  lemma PlatformKeyInjective(p: Platform, q: Platform)
    requires PlatformKey(p) == PlatformKey(q)
    ensures p == q
  {
  }

  /** The platform's pattern is found anywhere in the href (case-sensitive). */
  predicate MatchesPlatform(p: Platform, href: string) {
    match p
    case Twitter => Contains(href, "twitter.com") || Contains(href, "x.com")
    case LinkedIn => Contains(href, "linkedin.com")
    case Facebook => Contains(href, "facebook.com")
    case Instagram => Contains(href, "instagram.com")
  }

  /** The first platform, in the fixed order, whose pattern matches. */
  function Classify(href: string): (r: Option<Platform>)
    ensures r.None? <==> forall p :: !MatchesPlatform(p, href)
    ensures r.Some? ==> exists i :: (0 <= i < |Platforms| && Platforms[i] == r.value
      && MatchesPlatform(Platforms[i], href)
      && forall k :: 0 <= k < i ==> !MatchesPlatform(Platforms[k], href))
  {
    assert Platforms[0] == Twitter && Platforms[1] == LinkedIn;
    assert Platforms[2] == Facebook && Platforms[3] == Instagram;
    if MatchesPlatform(Twitter, href) then Some(Twitter)
    else if MatchesPlatform(LinkedIn, href) then Some(LinkedIn)
    else if MatchesPlatform(Facebook, href) then Some(Facebook)
    else if MatchesPlatform(Instagram, href) then Some(Instagram)
    else None
  }

  /** The `x.com` pattern is not anchored to a host name. */
  lemma DropboxLinkCountsAsTwitter()
    ensures Classify("https://www.dropbox.com/team") == Some(Twitter)
  {
    assert MatchAt("https://www.dropbox.com/team", "x.com", 18);
  }

  /** The dictionary entry an href contributes: its first matching platform's
      key, mapped to the href itself. */
  function SocialEntry(href: string): Option<(string, string)> {
    match Classify(href)
    case Some(q) => Some((PlatformKey(q), href))
    case None => None
  }

  /** The social-media dictionary of a page whose anchors have `hrefs`; a
      later href overwrites an earlier one for the same platform. */
  function SocialLinks(hrefs: seq<string>): Dict<string, string> {
    Collect(hrefs, SocialEntry)
  }

  lemma SocialEntryKey(hrefs: seq<string>, p: Platform, i: int)
    requires 0 <= i < |hrefs|
    ensures KeyedAt(hrefs, SocialEntry, PlatformKey(p), i) <==> Classify(hrefs[i]) == Some(p)
  {
    if KeyedAt(hrefs, SocialEntry, PlatformKey(p), i) {
      PlatformKeyInjective(p, Classify(hrefs[i]).value);
    }
  }

  /** The social-media dictionary maps each platform key to the last href
      whose first matching pattern is that platform's, and has no other keys. */
  lemma SocialLinksLastWins(hrefs: seq<string>, p: Platform, k: string)
    ensures Lookup(SocialLinks(hrefs), k).Some? ==> exists q :: k == PlatformKey(q)
    ensures Lookup(SocialLinks(hrefs), PlatformKey(p)).None? <==>
      forall i :: 0 <= i < |hrefs| ==> Classify(hrefs[i]) != Some(p)
    ensures Lookup(SocialLinks(hrefs), PlatformKey(p)).Some? ==>
      exists i :: (0 <= i < |hrefs| && Classify(hrefs[i]) == Some(p)
        && hrefs[i] == Lookup(SocialLinks(hrefs), PlatformKey(p)).value
        && forall j :: i < j < |hrefs| ==> Classify(hrefs[j]) != Some(p))
  {
    var key := PlatformKey(p);
    forall i | 0 <= i < |hrefs|
      ensures KeyedAt(hrefs, SocialEntry, key, i) <==> Classify(hrefs[i]) == Some(p)
    {
      SocialEntryKey(hrefs, p, i);
    }
    CollectAbsent(hrefs, SocialEntry, key);
    if Lookup(SocialLinks(hrefs), key).Some? {
      CollectLastWins(hrefs, SocialEntry, key);
    }
    if Lookup(SocialLinks(hrefs), k).Some? {
      CollectAbsent(hrefs, SocialEntry, k);
      var i :| 0 <= i < |hrefs| && KeyedAt(hrefs, SocialEntry, k, i);
      assert k == PlatformKey(Classify(hrefs[i]).value);
    }
  }

  /** A stripped heading kept as a product name. */
  predicate IsProductName(t: string) {
    0 < |t| < 50
  }

  /** Python `[s.strip() for s in xs]`. */
  function StripAll(xs: seq<string>): (r: seq<string>)
    ensures |r| == |xs|
    ensures forall i :: 0 <= i < |xs| ==> r[i] == Strip(xs[i])
  {
    seq(|xs|, i requires 0 <= i < |xs| => Strip(xs[i]))
  }

  /** The product names: stripped headings of fewer than 50 characters,
      empty ones dropped, in document order. */
  function ProductNames(headings: seq<string>): (r: seq<string>)
    ensures |r| <= |headings|
    ensures Subseq(r, StripAll(headings))
    ensures forall t :: t in r <==> t in StripAll(headings) && IsProductName(t)
    ensures forall t :: multiset(r)[t] == if IsProductName(t) then multiset(StripAll(headings))[t] else 0
  {
    Filter(StripAll(headings), IsProductName)
  }

  /** Every product name is a heading's stripped text, so it has no
      whitespace at either end; every heading whose stripped text is short
      enough is kept. */
  lemma ProductNamesFromHeadings(headings: seq<string>)
    ensures forall t :: t in ProductNames(headings) ==>
      exists i :: 0 <= i < |headings| && t == Strip(headings[i]) && !IsSpace(t[0]) && !IsSpace(t[|t| - 1])
    ensures forall i :: 0 <= i < |headings| && IsProductName(Strip(headings[i])) ==>
      Strip(headings[i]) in ProductNames(headings)
  {
    var stripped := StripAll(headings);
    forall i | 0 <= i < |headings| && IsProductName(Strip(headings[i]))
      ensures Strip(headings[i]) in ProductNames(headings)
    {
      assert stripped[i] in stripped;
    }
  }

  /** The scrape of the discovered URL: `website` is always the URL; the
      description, products and social links come from a page answered with
      status 200, unless a meta tag without content makes the logging line
      raise, which leaves them at their defaults. */
  function ScrapeWebsite(url: string, page: Reply<Page>): (r: WebsiteData)
    ensures r.website == Some(url)
    ensures r.products.Some? && r.socialMedia.Some?
    ensures !(page.Answered? && !page.body.meta.MetaWithoutContent?) ==>
      r.description.None? && r.products == Some([]) && r.socialMedia == Some([])
    ensures page.Answered? && page.body.meta.MetaContent? ==>
      r.description == Some(page.body.meta.content)
    ensures page.Answered? && page.body.meta.NoMetaTag? ==> r.description.None?
    ensures page.Answered? && !page.body.meta.MetaWithoutContent? ==>
      r.products == Some(ProductNames(page.body.headings))
      && r.socialMedia == Some(SocialLinks(page.body.hrefs))
  {
    var initial := WebsiteData(Some(url), None, Some([]), Some([]));
    match page
    case Answered(Page(meta, hrefs, headings)) =>
      (match meta
       case MetaWithoutContent => initial
       case NoMetaTag =>
         initial.(products := Some(ProductNames(headings)), socialMedia := Some(SocialLinks(hrefs)))
       case MetaContent(content) =>
         WebsiteData(Some(url), Some(content), Some(ProductNames(headings)), Some(SocialLinks(hrefs))))
    case _ => initial
  }

  // ---------------------------------------------------------------------
  // Structured profile (search_crunchbase)

  /** The infobox figures the wikitext regexes yield (the regexes themselves
      are not modelled). */
  datatype Infobox = Infobox(revenue: Option<string>, employees: Option<int>)

  /** The three Wikipedia requests: the search (its hits' page ids), the
      intro extract of the top hit ("" when missing) and its wikitext. */
  datatype WikiSource = WikiSource(
    search: Reply<seq<int>>,
    extract: Reply<string>,
    wikitext: Reply<Infobox>)

  /** The dictionary returned by the profile lookup; all None is the empty dict. */
  datatype CompanyData = CompanyData(
    foundedYear: Option<string>,
    headquarters: Option<string>,
    industry: Option<seq<string>>,
    funding: Option<Dict<string, Amount>>,
    founders: Option<seq<string>>,
    employeesCount: Option<int>)

  const NoCompanyData: CompanyData := CompanyData(None, None, None, None, None, None)

  /** The lookup's initial result, returned as-is when a request raises. */
  const BlankProfile: CompanyData := CompanyData(None, None, Some([]), Some([]), Some([]), None)

  /** `founded in ` (any letter case) at `i`, followed by four digits. */
  predicate FoundedInAt(text: string, i: int) {
    && 0 <= i && i + 15 <= |text|
    && Lower(text[i..i + 11]) == "founded in "
    && forall k :: i + 11 <= k < i + 15 ==> IsDigit(text[k])
  }

  /** The year captured by the leftmost `founded in (\d{4})` match. */
  function FoundedIn(text: string): (r: Option<string>)
    ensures r.None? <==> forall i :: !FoundedInAt(text, i)
    ensures r.Some? ==> exists i :: (FoundedInAt(text, i) && r.value == text[i + 11..i + 15]
      && forall j :: 0 <= j < i ==> !FoundedInAt(text, j))
    ensures r.Some? ==> |r.value| == 4 && forall k :: 0 <= k < 4 ==> IsDigit(r.value[k])
  {
    var p: nat -> bool := i => FoundedInAt(text, i);
    var found := FirstIndex(p, 0, |text|);
    assert forall i :: 0 <= i <= |text| ==> p(i) == FoundedInAt(text, i);
    match found
    case None => None
    case Some(i) =>
      var year := text[i + 11..i + 15];
      assert forall k :: 0 <= k < 4 ==> year[k] == text[i + 11 + k];
      Some(year)
  }

  /** The lower-case literal `lit` (any letter case in `text`) at `i`,
      followed by a character other than '.'. */
  predicate LiteralRunAt(text: string, lit: string, i: int) {
    0 <= i && i + |lit| < |text| && Lower(text[i..i + |lit|]) == lit && text[i + |lit|] != '.'
  }

  /** The longest prefix of `s` without a '.'. */
  function UpToDot(s: string): (r: string)
    ensures |r| <= |s| && r == s[..|r|]
    ensures '.' !in r
    ensures |r| < |s| ==> s[|r|] == '.'
  {
    if |s| == 0 || s[0] == '.' then "" else [s[0]] + UpToDot(s[1..])
  }

  /** The group of the leftmost match of `lit([^\.]+)` (case-insensitive). */
  function CaptureAfter(text: string, lit: string): (r: Option<string>)
    ensures r.None? <==> forall i :: !LiteralRunAt(text, lit, i)
    ensures r.Some? ==> |r.value| > 0 && '.' !in r.value
    ensures r.Some? ==> exists i :: (LiteralRunAt(text, lit, i)
      && r.value == UpToDot(text[i + |lit|..])
      && forall j :: 0 <= j < i ==> !LiteralRunAt(text, lit, j))
  {
    var p: nat -> bool := i => LiteralRunAt(text, lit, i);
    var found := FirstIndex(p, 0, |text|);
    assert forall i :: 0 <= i <= |text| ==> p(i) == LiteralRunAt(text, lit, i);
    match found
    case None => None
    case Some(i) => Some(UpToDot(text[i + |lit|..]))
  }

  /** The vocabulary scanned for industry tags, in scanning order. */
  const IndustryTerms: seq<string> := [
    "technology", "software", "artificial intelligence", "AI", "machine learning",
    "finance", "fintech", "healthcare", "biotech", "automotive",
    "retail", "media", "telecommunications", "e-commerce"]

  /** `term` occurs at `i` as a whole word, ignoring letter case (every term
      begins and ends with a letter, so `\b` reduces to these neighbour tests). */
  predicate WordAt(text: string, term: string, i: int) {
    && 0 <= i && i + |term| <= |text|
    && Lower(text[i..i + |term|]) == Lower(term)
    && (i == 0 || !IsWordChar(text[i - 1]))
    && (i + |term| == |text| || !IsWordChar(text[i + |term|]))
  }

  predicate HasWord(text: string, term: string) {
    exists i :: 0 <= i <= |text| && WordAt(text, term, i)
  }

  function CapitalizeAll(terms: seq<string>): (r: seq<string>)
    ensures |r| == |terms|
    ensures forall i :: 0 <= i < |terms| ==> r[i] == Capitalize(terms[i])
  {
    seq(|terms|, i requires 0 <= i < |terms| => Capitalize(terms[i]))
  }

  /** Capitalized terms found in `text`, in vocabulary order. */
  function TagsFor(text: string, terms: seq<string>): (r: seq<string>)
    ensures Subseq(r, CapitalizeAll(terms))
    ensures forall k :: 0 <= k < |terms| && HasWord(text, terms[k]) ==> Capitalize(terms[k]) in r
    ensures forall t :: t in r ==>
      exists k :: 0 <= k < |terms| && HasWord(text, terms[k]) && t == Capitalize(terms[k])
  {
    if |terms| == 0 then []
    else
      var rest := TagsFor(text, terms[1..]);
      assert CapitalizeAll(terms)[1..] == CapitalizeAll(terms[1..]);
      assert forall k :: 0 < k < |terms| ==> terms[k] == terms[1..][k - 1];
      if HasWord(text, terms[0]) then [Capitalize(terms[0])] + rest
      else
        SubseqTail(rest, CapitalizeAll(terms));
        rest
  }

  /** The capitalized vocabulary has no repeated tag: the terms differ in
      length, in their first letter or in their fourth, and capitalizing
      keeps all three apart. */
  lemma IndustryTagsDistinct()
    ensures NoDuplicates(CapitalizeAll(IndustryTerms))
  {
    var c := CapitalizeAll(IndustryTerms);
    forall i, j | 0 <= i < j < |c|
      ensures c[i] != c[j]
    {
      var a, b := IndustryTerms[i], IndustryTerms[j];
      if |a| == |b| {
        assert UpperChar(a[0]) != UpperChar(b[0]) || LowerChar(a[3]) != LowerChar(b[3]);
        assert c[i][0] != c[j][0] || c[i][3] != c[j][3];
      }
    }
  }

  /** The term "AI" yields the tag "Ai". */
  lemma AiTag()
    ensures Capitalize("AI") == "Ai"
  {
  }

  /** The industry tags of a summary: each vocabulary term found as a whole
      word contributes its capitalized form, at most once and in vocabulary
      order (the tags form a subsequence of the capitalized vocabulary). */
  function IndustryTags(text: string): seq<string> {
    TagsFor(text, IndustryTerms)
  }

  /** Every vocabulary term found in the summary contributes its tag, and no
      tag is repeated. */
  lemma IndustryTagsOnce(text: string)
    ensures Subseq(IndustryTags(text), CapitalizeAll(IndustryTerms)) && NoDuplicates(IndustryTags(text))
    ensures forall k :: 0 <= k < |IndustryTerms| && HasWord(text, IndustryTerms[k]) ==>
      Capitalize(IndustryTerms[k]) in IndustryTags(text)
  {
    IndustryTagsDistinct();
    SubseqNoDuplicates(IndustryTags(text), CapitalizeAll(IndustryTerms));
  }

  /** `\sand\s` at `i`. */
  predicate AndAt(s: string, i: int) {
    0 <= i && i + 5 <= |s| && IsSpace(s[i]) && s[i + 1] == 'a' && s[i + 2] == 'n' && s[i + 3] == 'd'
    && IsSpace(s[i + 4])
  }

  /** A match inside a slice is a match in the whole text, shifted. */
  lemma AndAtSlice(s: string, lo: int, hi: int, k: int)
    requires 0 <= lo <= hi <= |s| && 0 <= k
    ensures AndAt(s[lo..hi], k) <==> k + 5 <= hi - lo && AndAt(s, lo + k)
  {
  }

  /** A separator the split consumes: a comma, or a `\sand\s` match. */
  predicate IsSeparator(t: string) {
    t == "," || (|t| == 5 && AndAt(t, 0))
  }

  /** `re.split(r',|\sand\s', s[start..])`, scanning from `i`: at each
      position a comma is tried first, then `\sand\s`, and the scan resumes
      after the separator it consumed. */
  function SplitFrom(s: string, start: nat, i: nat): (r: seq<string>)
    requires start <= i <= |s|
    requires forall k :: start <= k < i ==> s[k] != ',' && !AndAt(s, k)
    ensures |r| > 0
    ensures forall p :: p in r ==> ',' !in p
    ensures forall p, k :: p in r ==> !AndAt(p, k)
    decreases |s| - i
  {
    if i == |s| then
      assert forall k :: !AndAt(s[start..], k) by {
        forall k | 0 <= k
          ensures !AndAt(s[start..], k)
        {
          AndAtSlice(s, start, |s|, k);
        }
      }
      [s[start..]]
    else if s[i] == ',' || AndAt(s, i) then
      var next := if s[i] == ',' then i + 1 else i + 5;
      assert forall k :: !AndAt(s[start..i], k) by {
        forall k | 0 <= k
          ensures !AndAt(s[start..i], k)
        {
          AndAtSlice(s, start, i, k);
        }
      }
      [s[start..i]] + SplitFrom(s, next, next)
    else SplitFrom(s, start, i + 1)
  }

  /** The separators `SplitFrom` consumes, in order. */
  function SeparatorsFrom(s: string, start: nat, i: nat): seq<string>
    requires start <= i <= |s|
    decreases |s| - i
  {
    if i == |s| then []
    else if s[i] == ',' then [","] + SeparatorsFrom(s, i + 1, i + 1)
    else if AndAt(s, i) then [s[i..i + 5]] + SeparatorsFrom(s, i + 5, i + 5)
    else SeparatorsFrom(s, start, i + 1)
  }

  /** The pieces with the separators between them. */
  function Join(pieces: seq<string>, seps: seq<string>): string
    requires |pieces| == |seps| + 1
    decreases |seps|
  {
    if |seps| == 0 then pieces[0] else pieces[0] + seps[0] + Join(pieces[1..], seps[1..])
  }

  lemma JoinCons(p: string, ps: seq<string>, q: string, qs: seq<string>)
    requires |ps| == |qs| + 1
    ensures Join([p] + ps, [q] + qs) == p + q + Join(ps, qs)
  {
    assert ([p] + ps)[1..] == ps && ([q] + qs)[1..] == qs;
  }

  /** Splitting loses nothing: the pieces, joined with the separators the
      scan consumed, give back the text. */
  lemma {:induction false} SplitRejoin(s: string, start: nat, i: nat)
    requires start <= i <= |s|
    requires forall k :: start <= k < i ==> s[k] != ',' && !AndAt(s, k)
    ensures |SeparatorsFrom(s, start, i)| + 1 == |SplitFrom(s, start, i)|
    ensures forall t :: t in SeparatorsFrom(s, start, i) ==> IsSeparator(t)
    ensures Join(SplitFrom(s, start, i), SeparatorsFrom(s, start, i)) == s[start..]
    decreases |s| - i
  {
    if i == |s| {
    } else if s[i] == ',' || AndAt(s, i) {
      var next := if s[i] == ',' then i + 1 else i + 5;
      SplitRejoin(s, next, next);
      var sep := s[i..next];
      assert s[i] == ',' ==> sep == ",";
      var rest, seps := SplitFrom(s, next, next), SeparatorsFrom(s, next, next);
      JoinCons(s[start..i], rest, sep, seps);
      assert s[start..] == s[start..i] + sep + s[next..];
    } else {
      SplitRejoin(s, start, i + 1);
    }
  }

  /** `re.split(r',|\sand\s', clause)`. */
  function SplitFounderClause(s: string): (r: seq<string>)
    ensures |r| > 0
    ensures forall p :: p in r ==> ',' !in p
    ensures forall p, k :: p in r ==> !AndAt(p, k)
  {
    SplitFrom(s, 0, 0)
  }

  /** The clause is its pieces joined by separators. */
  lemma FounderClauseRejoin(s: string)
    ensures |SeparatorsFrom(s, 0, 0)| + 1 == |SplitFounderClause(s)|
    ensures forall t :: t in SeparatorsFrom(s, 0, 0) ==> IsSeparator(t)
    ensures Join(SplitFounderClause(s), SeparatorsFrom(s, 0, 0)) == s
  {
    SplitRejoin(s, 0, 0);
    assert s[0..] == s;
  }

  /** A clause without separators is one piece. */
  lemma {:induction false} SplitWithoutSeparator(s: string, start: nat, i: nat)
    requires start <= i <= |s|
    requires forall k :: start <= k < |s| ==> s[k] != ',' && !AndAt(s, k)
    ensures SplitFrom(s, start, i) == [s[start..]]
    decreases |s| - i
  {
    if i < |s| {
      SplitWithoutSeparator(s, start, i + 1);
    }
  }

  /** Scanning past positions that hold no separator. */
  lemma {:induction false} SplitSkip(s: string, start: nat, i: nat, j: nat)
    requires start <= i <= j <= |s|
    requires forall k :: start <= k < j ==> s[k] != ',' && !AndAt(s, k)
    ensures SplitFrom(s, start, i) == SplitFrom(s, start, j)
    decreases j - i
  {
    if i < j {
      SplitSkip(s, start, i + 1, j);
    }
  }

  lemma SplitClauseWithoutSeparator(s: string)
    ensures (forall k :: 0 <= k < |s| ==> s[k] != ',' && !AndAt(s, k)) ==> SplitFounderClause(s) == [s]
  {
    if forall k :: 0 <= k < |s| ==> s[k] != ',' && !AndAt(s, k) {
      SplitWithoutSeparator(s, 0, 0);
      assert s[0..] == s;
    }
  }

  /** The split cuts at the leftmost separator: the first piece runs up to
      the least position holding a comma or a `\sand\s` match, and the
      rest is split again after that separator. Together with
      `SplitWithoutSeparator` this fixes every split, overlapping matches
      included. */
  lemma SplitLeftmost(s: string, start: nat, p: nat)
    requires start <= p < |s|
    requires forall k :: start <= k < p ==> s[k] != ',' && !AndAt(s, k)
    requires s[p] == ',' || AndAt(s, p)
    ensures var next := if s[p] == ',' then p + 1 else p + 5;
      next <= |s| && SplitFrom(s, start, start) == [s[start..p]] + SplitFrom(s, next, next)
  {
    SplitSkip(s, start, start, p);
  }

  /** Overlapping matches: in "x and and y" the match at index 1 is taken,
      so the one at index 5, which shares its space, is not. */
  lemma SplitOverlappingAnd()
    ensures SplitFounderClause("x and and y") == ["x", "and y"]
  {
    var s := "x and and y";
    assert AndAt(s, 1) && s[0] != ',' && !AndAt(s, 0);
    SplitLeftmost(s, 0, 1);
    forall k | 6 <= k < |s|
      ensures s[k] != ',' && !AndAt(s, k)
    {
    }
    SplitWithoutSeparator(s, 6, 6);
    assert s[0..1] == "x" && s[6..] == "and y";
  }

  /** "A and B" splits into "A" and "B" when neither holds a separator and
      no `\sand\s` match starts inside "A" other than the joining one. */
  lemma SplitAtAnd(a: string, b: string)
    requires ',' !in a && ',' !in b
    requires forall k :: 0 <= k < |a| ==> !AndAt(a + " and " + b, k)
    requires forall k :: !AndAt(b, k)
    ensures SplitFounderClause(a + " and " + b) == [a, b]
  {
    var s := a + " and " + b;
    var off := |a| + 5;
    SplitBeforeAnd(a, b);
    SplitAfterAnd(a, b);
    assert SplitFrom(s, 0, |a|) == [s[0..|a|]] + SplitFrom(s, off, off);
    assert s[0..|a|] == a;
  }

  lemma SplitBeforeAnd(a: string, b: string)
    requires ',' !in a
    requires forall k :: 0 <= k < |a| ==> !AndAt(a + " and " + b, k)
    ensures SplitFounderClause(a + " and " + b) == SplitFrom(a + " and " + b, 0, |a|)
    ensures AndAt(a + " and " + b, |a|)
  {
    var s := a + " and " + b;
    assert forall k :: 0 <= k < |a| ==> s[k] == a[k];
    SplitSkip(s, 0, 0, |a|);
    assert s[|a|] == ' ' && s[|a| + 1] == 'a' && s[|a| + 2] == 'n' && s[|a| + 3] == 'd' && s[|a| + 4] == ' ';
  }

  lemma SplitAfterAnd(a: string, b: string)
    requires ',' !in b
    requires forall k :: !AndAt(b, k)
    ensures SplitFrom(a + " and " + b, |a| + 5, |a| + 5) == [b]
  {
    var s := a + " and " + b;
    var off := |a| + 5;
    assert s[off..|s|] == b;
    forall k | off <= k < |s|
      ensures s[k] != ',' && !AndAt(s, k)
    {
      assert s[k] == b[k - off];
      assert !AndAt(s[off..|s|], k - off);
      AndAtSlice(s, off, |s|, k - off);
    }
    SplitWithoutSeparator(s, off, off);
  }


  /** Python `[f.strip() for f in pieces if f.strip()]` on the split clause. */
  function FoundersOf(clause: string): (r: seq<string>)
    ensures Subseq(r, StripAll(SplitFounderClause(clause)))
    ensures forall f :: f in r <==> f in StripAll(SplitFounderClause(clause)) && f != ""
    ensures forall f :: multiset(r)[f] == if f != "" then multiset(StripAll(SplitFounderClause(clause)))[f] else 0
  {
    Filter(StripAll(SplitFounderClause(clause)), t => t != "")
  }

  /** Stripping cannot create a `\sand\s` match. */
  lemma StripKeepsNoAnd(p: string)
    requires forall k :: !AndAt(p, k)
    ensures forall k :: !AndAt(Strip(p), k)
  {
    var lead := LeadingSpaces(p);
    forall k | 0 <= k
      ensures !AndAt(Strip(p), k)
    {
      AndAtSlice(p, lead, lead + |Strip(p)|, k);
    }
  }

  /** Every founder name is non-empty, has no whitespace at either end, no
      comma and no `\sand\s`, and every piece of the clause that is not
      blank yields one. */
  lemma FoundersOfPieces(clause: string)
    ensures forall f :: f in FoundersOf(clause) ==>
      |f| > 0 && !IsSpace(f[0]) && !IsSpace(f[|f| - 1]) && ',' !in f
    ensures forall f, k :: f in FoundersOf(clause) ==> !AndAt(f, k)
    ensures forall p :: p in SplitFounderClause(clause) && Strip(p) != "" ==> Strip(p) in FoundersOf(clause)
  {
    var pieces := SplitFounderClause(clause);
    var stripped := StripAll(pieces);
    forall f | f in FoundersOf(clause)
      ensures ',' !in f && forall k :: !AndAt(f, k)
    {
      var i :| 0 <= i < |pieces| && stripped[i] == f;
      StripExcludes(pieces[i], ',');
      StripKeepsNoAnd(pieces[i]);
    }
    forall p | p in pieces && Strip(p) != ""
      ensures Strip(p) in FoundersOf(clause)
    {
      var i :| 0 <= i < |pieces| && pieces[i] == p;
      assert stripped[i] == Strip(p);
    }
  }

  /** A clause without ',' or ' and ' names one founder, its stripped self. */
  lemma FoundersOfSingle(clause: string)
    requires forall k :: 0 <= k < |clause| ==> clause[k] != ',' && !AndAt(clause, k)
    ensures FoundersOf(clause) == if Strip(clause) == "" then [] else [Strip(clause)]
  {
    SplitClauseWithoutSeparator(clause);
    var stripped := StripAll([clause]);
    assert stripped == [Strip(clause)];
    assert Filter(stripped[1..], t => t != "") == [];
  }

  /** The founder names read from a summary: those of the leftmost
      `founded by ([^\.]+)` clause, or none. */
  function FoundersIn(text: string): seq<string> {
    match CaptureAfter(text, "founded by ")
    case Some(clause) => FoundersOf(clause)
    case None => []
  }

  /** A summary without "founded by" names no founder; otherwise every
      founder read from it is a non-empty name free of commas and of
      `\sand\s`. */
  lemma FoundersInNames(text: string)
    ensures CaptureAfter(text, "founded by ").None? ==> FoundersIn(text) == []
    ensures forall f :: f in FoundersIn(text) ==> |f| > 0 && ',' !in f && forall k :: !AndAt(f, k)
  {
    if CaptureAfter(text, "founded by ").Some? {
      FoundersOfPieces(CaptureAfter(text, "founded by ").value);
    }
  }

  /** A summary's profile: tags without repeats, founders without
      separators, and no funding or employee count, which only the infobox
      supplies. */
  lemma SummaryProfileShape(text: string)
    ensures var r := SummaryProfile(text);
      && r.industry.Some? && NoDuplicates(r.industry.value)
      && r.founders.Some? && (forall f :: f in r.founders.value ==> |f| > 0 && ',' !in f)
      && !Truthy(r.funding) && r.employeesCount.None?
  {
    var r := SummaryProfile(text);
    IndustryTagsOnce(text);
    assert r.industry == Some(IndustryTags(text));
    FoundersInNames(text);
    assert r.founders == Some(FoundersIn(text));
    assert r.funding == Some([]);
  }

  /** The headquarters read from a summary: the stripped leftmost
      `headquartered in ([^\.]+)` group. */
  function HeadquartersIn(text: string): (r: Option<string>)
    ensures r.Some? <==> CaptureAfter(text, "headquartered in ").Some?
    ensures r.Some? ==> '.' !in r.value
    ensures r.Some? ==> exists i :: (LiteralRunAt(text, "headquartered in ", i)
      && r.value == Strip(UpToDot(text[i + |"headquartered in "|..]))
      && forall j :: 0 <= j < i ==> !LiteralRunAt(text, "headquartered in ", j))
  {
    match CaptureAfter(text, "headquartered in ")
    case Some(group) =>
      StripExcludes(group, '.');
      Some(Strip(group))
    case None => None
  }

  /** The fields read from a non-empty intro extract. */
  function SummaryProfile(text: string): (r: CompanyData)
  {
    CompanyData(FoundedIn(text), HeadquartersIn(text), Some(IndustryTags(text)),
                Some([]), Some(FoundersIn(text)), None)
  }

  /** The infobox figures added to a profile whose funding is still empty. */
  function WithInfobox(c: CompanyData, box: Infobox): (r: CompanyData)
    ensures r.(funding := c.funding, employeesCount := c.employeesCount) == c
    ensures box.revenue.None? ==> r.funding == c.funding
    ensures box.revenue.Some? ==> Truthy(r.funding) && Lookup(r.funding.value, "Revenue") == Some(AmountText(box.revenue.value))
    ensures r.employeesCount == if box.employees.Some? then box.employees else c.employeesCount
  {
    c.(funding := match box.revenue
                  case Some(v) => Some([("Revenue", AmountText(v))])
                  case None => c.funding,
       employeesCount := if box.employees.Some? then box.employees else c.employeesCount)
  }

  /** Substrings of the lower-cased name that suggest a technology company. */
  const TechHints: seq<string> := ["ai", "intelligence", "tech", "data"]
  /** Substrings of the lower-cased name that suggest a finance company. */
  const FinanceHints: seq<string> := ["pay", "bank", "fin"]

  predicate MentionsAny(s: string, words: seq<string>) {
    exists w :: w in words && Contains(s, w)
  }

  /** The industries guessed from the name when the summary gave none. */
  function NameIndustries(name: string): (r: seq<string>)
    ensures |r| > 0
    ensures MentionsAny(Lower(name), TechHints) ==> r == ["Technology", "Artificial Intelligence"]
    ensures !MentionsAny(Lower(name), TechHints) && MentionsAny(Lower(name), FinanceHints)
      ==> r == ["Fintech", "Financial Services"]
    ensures !MentionsAny(Lower(name), TechHints) && !MentionsAny(Lower(name), FinanceHints)
      ==> r == ["Technology"]
  {
    if MentionsAny(Lower(name), TechHints) then ["Technology", "Artificial Intelligence"]
    else if MentionsAny(Lower(name), FinanceHints) then ["Fintech", "Financial Services"]
    else ["Technology"]
  }

  /** The guess ignores letter case. */
  lemma NameIndustriesIgnoreCase(name: string)
    ensures NameIndustries(Lower(name)) == NameIndustries(name)
  {
    LowerIdempotent(name);
  }

  /** The name heuristic: an empty or missing industry list is replaced by
      the guess from the name; nothing else changes. */
  function WithNameHeuristic(name: string, c: CompanyData): (r: CompanyData)
    ensures Truthy(r.industry)
    ensures r.(industry := c.industry) == c
    ensures Truthy(c.industry) ==> r == c
    ensures !Truthy(c.industry) ==> r.industry == Some(NameIndustries(name))
  {
    if Truthy(c.industry) then c else c.(industry := Some(NameIndustries(name)))
  }

  /** The lookup runs to its end: no request raises before the heuristic. */
  predicate Completes(wiki: WikiSource) {
    && !wiki.search.Failed?
    && (wiki.search.Answered? && |wiki.search.body| > 0 ==>
          !wiki.extract.Failed? && !wiki.wikitext.Failed?)
  }

  /** The top hit's extract request did not raise, so its summary is read. */
  predicate Reads(wiki: WikiSource) {
    wiki.search.Answered? && |wiki.search.body| > 0 && !wiki.extract.Failed?
  }

  /** The profile as it stands just before the name heuristic, or at the
      moment a request raises: the summary fields when the top hit's extract
      was read (empty when refused or blank), the infobox figures when its
      wikitext was answered. */
  function Gathered(wiki: WikiSource): (r: CompanyData)
    ensures r.industry.Some? && r.funding.Some? && r.founders.Some?
    ensures !Reads(wiki) ==> r == BlankProfile
    ensures !wiki.wikitext.Answered? ==> r.funding == Some([]) && r.employeesCount.None?
    ensures r.foundedYear.Some? ==> |r.foundedYear.value| == 4
    ensures r.headquarters.Some? ==> '.' !in r.headquarters.value
    ensures Reads(wiki) && wiki.extract.Answered? && wiki.extract.body != "" ==>
      && r.foundedYear == FoundedIn(wiki.extract.body)
      && r.headquarters == HeadquartersIn(wiki.extract.body)
      && r.industry == Some(IndustryTags(wiki.extract.body))
      && r.founders == Some(FoundersIn(wiki.extract.body))
    ensures Reads(wiki) && !(wiki.extract.Answered? && wiki.extract.body != "") ==>
      && r.foundedYear.None? && r.headquarters.None? && r.industry == Some([]) && r.founders == Some([])
    ensures Reads(wiki) && wiki.wikitext.Answered? ==>
      && r.employeesCount == wiki.wikitext.body.employees
      && r.funding == (if wiki.wikitext.body.revenue.Some?
                       then Some([("Revenue", AmountText(wiki.wikitext.body.revenue.value))])
                       else Some([]))
  {
    if Reads(wiki) then
      var read :=
        if wiki.extract.Answered? && wiki.extract.body != "" then SummaryProfile(wiki.extract.body)
        else BlankProfile;
      match wiki.wikitext
      case Answered(box) => WithInfobox(read, box)
      case _ => read
    else BlankProfile
  }

  /** The structured profile of a company. When the lookup runs to its end
      the name heuristic fills an empty industry list, so the list is never
      empty; when a request raises, what was gathered so far is returned. */
  function SearchProfile(name: string, wiki: WikiSource): (r: CompanyData)
    ensures r.industry.Some? && r.funding.Some? && r.founders.Some?
    ensures Completes(wiki) ==> Truthy(r.industry) && r.(industry := Gathered(wiki).industry) == Gathered(wiki)
    ensures Completes(wiki) && Truthy(Gathered(wiki).industry) ==> r == Gathered(wiki)
    ensures !Completes(wiki) ==> r == Gathered(wiki) && r.funding == Some([]) && r.employeesCount.None?
    ensures wiki.search.Failed? ==> r == BlankProfile
    ensures Completes(wiki) && !Truthy(Gathered(wiki).industry) ==>
      r == Gathered(wiki).(industry := Some(NameIndustries(name)))
  {
    if Completes(wiki) then WithNameHeuristic(name, Gathered(wiki)) else Gathered(wiki)
  }

  /** A name with no summary to read gets its industries from the name. */
  lemma NoHitsUsesName(name: string, wiki: WikiSource)
    requires wiki.search.Refused? || wiki.search == Answered([])
    ensures SearchProfile(name, wiki) == BlankProfile.(industry := Some(NameIndustries(name)))
  {
  }

  // ---------------------------------------------------------------------
  // News (search_news)

  function NewsEntry(title: string, url: string, source: string, date: string): NewsItem {
    [("title", title), ("url", url), ("source", source), ("date", date)]
  }

  /** The item has the four keys of a news entry. */
  predicate IsNewsEntry(item: NewsItem) {
    && Lookup(item, "title").Some? && Lookup(item, "url").Some?
    && Lookup(item, "source").Some? && Lookup(item, "date").Some?
  }

  /** Each field of a news entry reads back as given. */
  lemma NewsEntryFields(title: string, url: string, source: string, date: string)
    ensures var e := NewsEntry(title, url, source, date);
      && Lookup(e, "title") == Some(title) && Lookup(e, "url") == Some(url)
      && Lookup(e, "source") == Some(source) && Lookup(e, "date") == Some(date)
  {
    var e := NewsEntry(title, url, source, date);
    var e1, e2, e3 := e[1..], e[2..], e[3..];
    assert e1[1..] == e2 && e2[1..] == e3;
    assert "url"[0] != "title"[0];
    assert "source"[0] != "title"[0] && "source"[0] != "url"[0];
    assert "date"[0] != "title"[0] && "date"[0] != "url"[0] && "date"[0] != "source"[0];
    assert Lookup(e3, "date") == Some(date);
    assert Lookup(e2, "source") == Some(source) && Lookup(e2, "date") == Some(date);
    assert Lookup(e1, "url") == Some(url);
    assert Lookup(e1, "source") == Some(source) && Lookup(e1, "date") == Some(date);
  }

  /** The item is a news entry about the company `name`, from `source`,
      dated `date`: its title mentions the name and its URL embeds the
      company's identifier. */
  predicate NewsAbout(item: NewsItem, name: string, source: string, date: string) {
    && IsNewsEntry(item)
    && Contains(Lookup(item, "title").value, name)
    && Contains(Lookup(item, "url").value, Slug(name))
    && Lookup(item, "source") == Some(source)
    && Lookup(item, "date") == Some(date)
  }

  /** `s` occurs in `before + s + after`. */
  lemma ContainsMiddle(before: string, s: string, after: string)
    ensures Contains(before + s + after, s)
  {
    assert MatchAt(s, s, 0);
    ContainsWiden(s, s, before, after);
  }

  /** A placeholder entry whose title and URL wrap the name and identifier. */
  lemma PlaceholderAbout(name: string, title: string, prefix: string, suffix: string, source: string, date: string)
    ensures NewsAbout(NewsEntry(name + title, prefix + Slug(name) + suffix, source, date), name, source, date)
  {
    NewsEntryFields(name + title, prefix + Slug(name) + suffix, source, date);
    assert MatchAt(name + title, name, 0);
    ContainsMiddle(prefix, Slug(name), suffix);
  }

  /** The fixed placeholder news: three entries about the company, from
      TechCrunch, VentureBeat and Wired in that order. */
  function SearchNews(name: string): (r: seq<NewsItem>)
    ensures |r| == 3
    ensures NewsAbout(r[0], name, "TechCrunch", "2023-05-01")
    ensures NewsAbout(r[1], name, "VentureBeat", "2023-04-15")
    ensures NewsAbout(r[2], name, "Wired", "2023-04-10")
  {
    var slug := Slug(name);
    PlaceholderAbout(name, " Announces New Investment Round", "https://techcrunch.com/2023/05/", "-funding",
      "TechCrunch", "2023-05-01");
    PlaceholderAbout(name, " Releases Major Product Update", "https://venturebeat.com/2023/04/", "-update",
      "VentureBeat", "2023-04-15");
    PlaceholderAbout(name, " Partners with Industry Leader", "https://www.wired.com/story/", "-partnership",
      "Wired", "2023-04-10");
    [ NewsEntry(name + " Announces New Investment Round",
        "https://techcrunch.com/2023/05/" + slug + "-funding", "TechCrunch", "2023-05-01"),
      NewsEntry(name + " Releases Major Product Update",
        "https://venturebeat.com/2023/04/" + slug + "-update", "VentureBeat", "2023-04-15"),
      NewsEntry(name + " Partners with Industry Leader",
        "https://www.wired.com/story/" + slug + "-partnership", "Wired", "2023-04-10") ]
  }
}
