# Startup research: a Dafny model

This project models the core of a startup-research service. Given company names, the
service does four things:

- It discovers each company's website and scrapes it.
- It reads a structured profile from Wikipedia and produces placeholder news.
- It merges everything into one `Startup` record, filling defaults for whatever is missing.
- It saves the record in an SQLite table keyed by a slug of the name.

An HTTP layer exposes several endpoints:

- a batch research endpoint;
- lookup by id or name;
- a chat endpoint that routes a free-text query to an analytics report, a founders map, a
  locations map or a substring search.

The modules follow the program's structure:

| module | file | models |
|---|---|---|
| `Wrappers` | wrappers.dfy | `Option`; `Call` (the outcome of a call that may raise); `Reply` (an HTTP request that raised, was answered with a non-200 status, or was answered) |
| `Seqs`, `Text`, `Dicts`, `Truthiness` | seqs.dfy, text.dfy, dicts.dfy, truthiness.dfy | the Python semantics the code relies on: `str.lower`, `strip`, `replace`, `in` on strings, insertion-ordered `dict` assignment, truthiness and `x or default` |
| `StartupModel` | startup.dfy | the `Startup` record and the name slug |
| `Scraper` | scraper.dfy | website discovery and the Wikipedia fallback, the page scrape (meta description, social links, product headings), the Wikipedia profile (founded year, headquarters, industry tags, founders, infobox, name heuristic), the news stub |
| `Database` | database.dfy | insert-or-replace save with a defaulted id, lookup by id or name, case-insensitive search, `run_analytics` |
| `Research` | research.dfy | `research_startup` as a function of the lookups' outcomes, and the batch |
| `Api` | api.dfy | the research endpoint's empty-list guard, the 404 on lookup, the chat router |

Each HTTP request, and each call the research pipeline wraps in `try`, is an input of the model. The inputs are:

- `Reply` for the scraper's requests, already decoded;
- `Call` for the four lookups;
- `StoreMode` for whether the database accepts the write.

The SQLite table is a sequence of records in row order. `INSERT OR REPLACE` deletes the row with the same id and appends the new one.

Some behaviours of the code are easy to miss:

- When an exception escapes the research pipeline, the code returns `Startup(name=...)`. That record has no id, and nothing is saved (research_service.py:99-103).
- The scraped social-media map keeps the LAST href per platform (scraper_service.py:123-129): a later href overwrites an earlier one.
- The scraped social-media patterns are unanchored. Any href containing `x.com`, such as `dropbox.com`, counts as twitter (`Scraper.DropboxLinkCountsAsTwitter`).
- The structured-profile lookup returns what it has gathered so far when a request raises. It does so without applying the name heuristic, so the industry list can then be empty.
- A null result title makes lower-casing it raise `AttributeError` inside the website lookup. The lookup's own handler (scraper_service.py:88-90) catches it and returns None, so the record's website is then guessed from the name.
- A description meta tag without `content` makes a logging line raise. The scrape then returns its defaults for the description, products and social links.
- The structured-profile query appends only the table suffix. The single-word `" company"` suffix is used only by the website fallback.

## Model

| member | source | states |
|---|---|---|
| StartupModel.NamedOnly | app/models/startup.py:5-18 | `Startup(name=n)`: the name is set and every other field is absent |
| StartupModel.Slug | app/services/research_service.py:80 | the id has the name's length and no space; each space becomes '-' and each ASCII capital its lower-case letter, position by position |
| StartupModel.SlugIgnoresCase | app/services/research_service.py:80 | names equal up to ASCII letter case get the same id |
| StartupModel.SlugIdempotent | app/services/research_service.py:80 | slugging a slug changes nothing |
| StartupModel.SlugCollision | app/services/database.py:32-33 | "Acme Robotics" and "acme-robotics" share the id "acme-robotics", so saving one replaces the other |
| Scraper.ScanResults | app/services/scraper_service.py:41-51 | the loop returns the first result with a truthy link whose lower-cased title contains the lower-cased name, and every earlier result is rejected; it finds nothing exactly when every result has a title and none is accepted; it raises only at a null title preceded by rejected results |
| Scraper.DiscoverWebsite | app/services/scraper_service.py:34-90 | no URL exactly when the request raised or the loop raised; the accepted link when one is found; the Wikipedia fallback when the status is not 200 or no result is accepted; a URL is never empty |
| Scraper.FallbackSuffix | app/services/scraper_service.py:76-81 | the table entry (case-sensitive key) after a space; else " company" for a single-word name whose lower-case form is not excluded; else nothing |
| Scraper.WikiFallback | app/services/scraper_service.py:76-84 | the fallback URL contains no space; it is the Wikipedia base, the name with spaces as underscores, then "_" and the table entry underscored for a name in the table, "_company" for a single-word name outside the table and not excluded, and nothing else otherwise |
| Scraper.SearchQuery | app/services/scraper_service.py:182-186 | the profile query is the name itself for a name outside the table, and the name, a space and its table entry for a name in it |
| Scraper.FallbackFollowsQuery | app/services/scraper_service.py:182-186 | for a name in the table, the fallback article title is the profile lookup's query with spaces turned into underscores |
| Scraper.PlatformKeyInjective | app/services/scraper_service.py:116-121 | distinct platforms have distinct dictionary keys |
| Scraper.Classify | app/services/scraper_service.py:125-129 | an href gets the first platform, in the order twitter, linkedin, facebook, instagram, whose pattern occurs in it, and no platform exactly when no pattern occurs |
| Scraper.DropboxLinkCountsAsTwitter | app/services/scraper_service.py:117 | a dropbox.com link is classified as twitter |
| Scraper.SocialEntryKey | app/services/scraper_service.py:123-129 | href i writes the key of platform p exactly when it is classified as p |
| Scraper.SocialLinksLastWins | app/services/scraper_service.py:123-129 | the contract of `Scraper.SocialLinks`, the page's social-media map: the map has only platform keys; a platform is absent exactly when no href is classified as it; otherwise its value is the last href classified as it |
| Scraper.ProductNames | app/services/scraper_service.py:133-137 | the product names are, in order, a subsequence of the stripped headings; a text is kept exactly when it is a stripped heading of 1 to 49 characters, and then as many times as it occurs among the stripped headings |
| Scraper.ProductNamesFromHeadings | app/services/scraper_service.py:133-137 | each product name is some heading's stripped text, with no whitespace at either end; every heading whose stripped text is short enough and non-empty is kept |
| Scraper.ScrapeWebsite | app/services/scraper_service.py:92-145 | the website is always the URL; without a 200 answer the description is absent and products and links are empty; with one, the description is the meta content (absent with no tag), and products and links come from the page, except that a tag without content leaves all three at their defaults |
| Scraper.FoundedIn | app/services/scraper_service.py:214-216 | the year is the four digits after the leftmost "founded in " (any case), and absent exactly when there is no such match |
| Scraper.UpToDot | app/services/scraper_service.py:220 | `[^\.]+` stops at the first dot: the result is the longest dot-free prefix |
| Scraper.CaptureAfter | app/services/scraper_service.py:220 | the group of the leftmost `lit([^\.]+)` match, case-insensitive: non-empty and dot-free; absent exactly when no position matches |
| Scraper.HeadquartersIn | app/services/scraper_service.py:220-222 | a headquarters is read exactly when "headquartered in " (any case) is followed by a non-dot; it is then the stripped text after the leftmost such match, up to the first dot |
| Scraper.TagsFor | app/services/scraper_service.py:230-232 | the tags are the capitalized vocabulary terms found as whole words, in vocabulary order, and every term found contributes its tag |
| Scraper.IndustryTagsDistinct | app/services/scraper_service.py:226-228 | no two vocabulary terms capitalize to the same tag |
| Scraper.IndustryTagsOnce | app/services/scraper_service.py:226-232 | the contract of `Scraper.IndustryTags`: the summary's tags follow vocabulary order, none is repeated, and every term found as a whole word contributes its tag |
| Scraper.AiTag | app/services/scraper_service.py:226-232 | the term "AI" yields the tag "Ai" |
| Scraper.SplitFrom | app/services/scraper_service.py:242 | the split never yields an empty list; no piece contains a ',' or a whitespace-"and"-whitespace match |
| Scraper.SplitFounderClause | app/services/scraper_service.py:242 | splitting on ',' or whitespace-"and"-whitespace gives at least one piece, and no piece contains either separator |
| Scraper.SplitRejoin | app/services/scraper_service.py:242 | the split loses nothing: the pieces, joined with the separators the scan consumed (each a ',' or a whitespace-"and"-whitespace match), give back the scanned text |
| Scraper.FounderClauseRejoin | app/services/scraper_service.py:242 | a founders clause is its pieces joined by the separators between them, one fewer separator than pieces |
| Scraper.SplitAtAnd | app/services/scraper_service.py:242 | "A and B" splits into exactly "A" and "B" when neither part holds a comma and no other "and" match starts in A or lies in B |
| Scraper.SplitWithoutSeparator | app/services/scraper_service.py:242 | a range without separators is one piece |
| Scraper.SplitClauseWithoutSeparator | app/services/scraper_service.py:242 | a clause without separators splits into itself |
| Scraper.SplitLeftmost | app/services/scraper_service.py:242 | the first piece ends at the leftmost position holding a comma or an "and" match, and the split resumes after that separator |
| Scraper.SplitOverlappingAnd | app/services/scraper_service.py:242 | of two overlapping "and" matches the leftmost is consumed: "x and and y" gives "x" and "and y" |
| Scraper.SplitSkip | app/services/scraper_service.py:242 | scanning past positions without a separator does not change the split |
| Scraper.FoundersOf | app/services/scraper_service.py:242-243 | the founders are, in order, a subsequence of the stripped pieces: exactly the non-empty ones, each as many times as it occurs among them |
| Scraper.FoundersOfPieces | app/services/scraper_service.py:242-243 | every founder is non-empty, has no whitespace at either end, no ',' and no whitespace-"and"-whitespace; every non-blank piece yields its stripped text |
| Scraper.StripKeepsNoAnd | app/services/scraper_service.py:243 | stripping a piece cannot create an "and" separator |
| Scraper.FoundersOfSingle | app/services/scraper_service.py:242-243 | a clause without separators names one founder, its stripped self, or none when blank |
| Scraper.NameIndustries | app/services/scraper_service.py:264-270 | the guess from the name is never empty: technology and AI for a tech hint, else fintech for a finance hint, else technology |
| Scraper.NameIndustriesIgnoreCase | app/services/scraper_service.py:265-267 | the guess does not depend on the name's letter case |
| Scraper.WithNameHeuristic | app/services/scraper_service.py:264-270 | a non-empty industry list is kept and the record is unchanged; an empty or missing one becomes the guess from the name; no other field changes |
| Scraper.FoundersInNames | app/services/scraper_service.py:238-243 | the contract of `Scraper.FoundersIn`: no "founded by" clause gives no founders; every founder read is non-empty, without a comma and without an "and" separator |
| Scraper.SummaryProfileShape | app/services/scraper_service.py:214-243 | the contract of `Scraper.SummaryProfile`: tags without repeats, founders without separators, and the funding map and employee count left empty |
| Scraper.WithInfobox | app/services/scraper_service.py:251-261 | only funding and employees change; a revenue found becomes the funding map's "Revenue" entry, otherwise the funding stays; a found employee count replaces the old one |
| Scraper.Gathered | app/services/scraper_service.py:190-262 | the initial profile unless the search had hits and the extract request did not raise; then a non-empty extract gives the founded year, headquarters, industry tags and founders read from it, and a refused or blank one leaves them empty; an answered wikitext gives the employee count and a funding map holding only the revenue, if found; without one, funding and employees stay empty |
| Scraper.SearchProfile | app/services/scraper_service.py:147-275 | a run to the end changes only an empty industry list, which becomes the guess from the name, and keeps a non-empty one; a raising request returns what was gathered, with no funding or employees; a failed search returns the initial profile |
| Scraper.NoHitsUsesName | app/services/scraper_service.py:193-270 | with a refused or empty search, the profile is the initial one with the industries guessed from the name |
| Scraper.NewsEntryFields | app/services/scraper_service.py:288-307 | each of a news entry's four keys reads back its value |
| Scraper.PlaceholderAbout | app/services/scraper_service.py:288-307 | an entry whose title starts with the name and whose URL embeds the slug is about the company |
| Scraper.SearchNews | app/services/scraper_service.py:277-310 | exactly three entries, each with a title mentioning the name and a URL embedding its slug, from TechCrunch 2023-05-01, VentureBeat 2023-04-15 and Wired 2023-04-10 in that order |
| Database.WithDefaultId | app/services/database.py:32-33 | a truthy id is kept; a falsy one becomes the name's slug; nothing else changes |
| Database.Without | app/services/database.py:36-37 | the rows left are, in order, exactly those whose id differs |
| Database.WithoutValid | app/services/database.py:18 | deleting rows keeps ids present and distinct |
| Database.Upsert | app/services/database.py:36-44 | after the write the ids are still distinct, the record is the last row, and the other rows are, in order, exactly the old rows with a different id |
| Database.SaveStartup | app/services/database.py:28-51 | raises exactly when the database cannot be opened; a rejected write returns False and changes nothing; a write returns True, the record with its defaulted id is the last row, and the other rows are, in order, the old rows with a different id |
| Database.UpsertIdempotent | app/services/database.py:36-44 | saving the same record twice is saving it once |
| Database.WithoutAppend | app/services/database.py:37 | deleting an id from rows plus one row deletes from each part |
| Database.WithoutAbsent | app/services/database.py:37 | deleting an id that no row has changes nothing |
| Database.GetStartup | app/services/database.py:53-64 | none exactly when no row's id or name is the key; otherwise the first such row |
| Database.GetAfterUpsert | app/services/database.py:57 | a saved id is found; it is found as the saved record unless an older row's name equals it |
| Database.NameShadowsId | app/services/database.py:57 | an older row named like the new id is returned instead of the saved record |
| Database.Search | app/services/database.py:81-104 | the results are, in table order, exactly the rows whose name, description, industries, products, founders or headquarters contain the query once lower-cased |
| Database.SearchEmptyQuery | app/services/database.py:77-104 | the empty query returns the whole table |
| Database.SearchEverything | app/services/database.py:83-102 | every row matches the empty lower-cased query |
| Database.SearchIgnoresCase | app/services/database.py:78 | lower-casing the query first changes nothing |
| Database.SearchNarrows | app/services/database.py:83-101 | a query containing another returns a subset of its results |
| Database.MatchesNarrows | app/services/database.py:83-101 | a row matching a longer query matches every query it contains |
| Dicts.Increment | app/services/database.py:114 | incrementing a count (absent counts as 0) raises the count of t by one, leaves every other key's count, and raises the sum of counts by one |
| Database.Tally | app/services/database.py:110-114 | the counts have distinct keys |
| Dicts.Put | app/services/database.py:114 | assigning a key keeps the keys distinct, makes the key map to the value, leaves every other key's value, and grows the dictionary by one exactly when the key is new |
| Dicts.IncrementCount | app/services/database.py:114 | after an increment a key's count (absent counting as 0) is one more exactly for the incremented key, and a key is present exactly when it was before or is the incremented key |
| Database.TallyCounts | app/services/database.py:110-114 | each tag's count is its number of occurrences, and only occurring tags are keys |
| Database.TallySum | app/services/database.py:110-114 | the counts add up to the number of tags |
| Database.SearchStartups | app/services/database.py:77-104 | the results are the rows matching the lower-cased query, kept in table order |
| Database.IndustryCounts | app/services/database.py:109-115 | every industry tag of every row is counted by occurrence, and a tag is a key exactly when some row carries it |
| Database.TallyExact | app/services/database.py:110-114 | for every tag at once: its count is its number of occurrences, and it is a key exactly when it occurs |
| Database.DeleteFirst | app/services/database.py:127 | removing the first dot shortens a text with a dot by one and leaves one without a dot unchanged |
| Database.DeleteFirstSplits | app/services/database.py:127 | removing the first occurrence joins the text before and after it |
| Database.DecimalParts | app/services/database.py:125-127 | a text passing the filter has digit strings on both sides of its first dot, and removing the dot joins them |
| Database.DigitsConcat | app/services/database.py:125 | a digit string followed by another writes the first number shifted left by the second's length plus the second number |
| Database.DecimalValue | app/services/database.py:125 | `float` of a text passing the filter is non-negative |
| Database.DecimalValueDigits | app/services/database.py:125-127 | `float` of a text passing the filter is the number its digits write without the dot, moved right by the number of digits after the dot |
| Database.ShiftScaled | app/services/database.py:125 | moving a number right by n decimal places and multiplying by 10^n gives it back |
| Database.FundingTotals | app/services/database.py:118-132 | at most every row is counted; with none counted the total is 0; every row is counted exactly when every funding map is truthy |
| Database.FundingTotalsCounted | app/services/database.py:118-132 | the count is the number of rows with a truthy funding map, and the total is the sum of those rows' maps |
| Database.FundingStats | app/services/database.py:134-138 | the average times the count is the total; with no counted row both are 0 |
| Database.TextFigureAddsNothing | app/services/database.py:121-130 | a "$10M" figure counts its row but adds nothing to the total |
| Database.DottedFigure | app/services/database.py:125-127 | "12.5" passes the filter and is worth 12.5 |
| Database.RunAnalytics | app/services/database.py:106-143 | "industry_count" and "funding_stats" select their reports; each industry's count is its number of occurrences over the rows, only occurring industries are keys, and the counts add up to the number of tags; the funding report is `funding_stats`; any other type reports the number of rows |
| Research.DefaultWebsite | app/services/research_service.py:64 | the guessed website is `https://`, then the lower-cased name with its spaces removed, then `.com`: it contains no space, and its host is a subsequence of the lower-cased name that keeps every non-space character and is shorter by the number of spaces |
| Text.DeleteConcat | app/services/research_service.py:64 | removing a character from a concatenation removes it from each part |
| Text.DeleteOneSpace | app/services/research_service.py:64 | removing the spaces of "a b" gives "ab" when neither part holds a space |
| Research.AcmeRoboticsWebsite | app/services/research_service.py:64 | the website guessed for "Acme Robotics" is "https://acmerobotics.com" |
| Research.Merge | app/services/research_service.py:63-93 | the merged record is complete; its id is the name's slug; the employee count and the news pass through |
| Research.MergeIgnoresFalsy | app/services/research_service.py:64-73 | only truthiness matters: replacing every falsy value by None gives the same record |
| Research.MergeFallbacks | app/services/research_service.py:63-75 | each falsy field takes its default: the guessed website (when the discovered URL is falsy too), the generic description, "N/A" year and headquarters, the "Technology" industry, the estimated funding, and empty founders, products and social links |
| Research.MergeKeeps | app/services/research_service.py:63-75 | each truthy field is kept as gathered, and a truthy discovered URL takes precedence over the website found on the page |
| Research.MergeStable | app/services/research_service.py:63-93 | merging a record's own fields gives it back, so a default never overwrites a value |
| Research.Defaults | app/services/research_service.py:63-93 | the all-defaults record is complete |
| Research.WebsiteOf | app/services/research_service.py:33-41 | without a truthy URL the website data is empty; with one it is the scrape's result, or empty when the scrape raised |
| Research.ResearchRecord | app/services/research_service.py:17-103 | the bare `Startup(name=...)` exactly when the session or the database open raised; otherwise a complete record with the slug as id |
| Research.ResearchStartup | app/services/research_service.py:94 | the table changes only when the session worked and the write was accepted; the record is then the last row, and the other rows are, in order, the old rows with a different id |
| Research.RaisedIsEmpty | app/services/research_service.py:25-59 | a lookup that raised counts as one that returned its empty value |
| Research.ScrapeNeedsUrl | app/services/research_service.py:33-41 | without a truthy discovered URL the scrape's outcome does not matter |
| Research.AllRaisedGivesDefaults | app/services/research_service.py:25-93 | when every lookup raises, the record is the all-defaults record |
| Research.AcmeRoboticsDefaults | app/services/research_service.py:63-93 | the defaults for "Acme Robotics": id "acme-robotics", website "https://acmerobotics.com", "N/A" year and headquarters, industry ["Technology"], funding {"Estimated": "Unknown"}, empty founders, products, links and news |
| Research.RecordProfile | app/services/research_service.py:44-75 | the profile's employee count reaches the record as it is, and its founded year, headquarters, industry, funding and founders when truthy, else their defaults; a raised profile lookup leaves only defaults |
| Research.RecordScrape | app/services/research_service.py:33-75 | with a truthy URL, the scrape's products, social links and description reach the record when truthy, else their defaults; a raised scrape leaves only defaults |
| Research.RecordWebsite | app/services/research_service.py:64-65 | a truthy discovered URL is the website and the scrape's truthy description is the description; otherwise the website is guessed |
| Research.LiveWebsite | app/services/research_service.py:25-65 | with the scraper's lookups, the website is the discovered URL (else guessed), and the page's non-empty meta description is the description |
| Research.LiveIndustry | app/services/research_service.py:44-68 | with the scraper's profile run to its end, the industries are the profile's |
| Research.LiveNews | app/services/research_service.py:53-74 | with the scraper's news lookup, the record holds its three entries |
| Research.ResearchMany | app/services/research_service.py:105-110 | the batch returns one record per name, in input order, and keeps the table's ids distinct |
| Research.ResearchManyKeepsRows | app/services/research_service.py:105-110 | a saved name's id has a row after the whole batch |
| Api.ResearchEndpoint | main.py:44-53 | an empty list is rejected with 400 "No startups provided" and nothing is saved; otherwise one record per name, in order |
| Api.GetEndpoint | main.py:61-69 | 404 "Startup not found" exactly when no row's id or name is the key; otherwise the first row, in table order, that answers it |
| Api.GetEndpointAfterSave | main.py:61-69 | a saved record's id is found |
| Api.Route | main.py:76-99 | industry words route to industries exactly when present; search exactly when no group's word occurs in the lower-cased query |
| Api.RouteIsFirstMentioned | main.py:78-99 | the routed group is mentioned, and no group ranked before it is |
| Api.RouteIgnoresCase | main.py:76 | queries equal up to letter case route alike |
| Api.MentionsWiden | main.py:78-92 | a keyword occurrence survives adding text around the query |
| Api.RouteWiden | main.py:78-99 | adding text around a query never moves it to a later group |
| Api.SectorBeforeFunding | main.py:78-83 | "Funding by sector" asks for industries, because industry words are checked first |
| Api.ChatQuery | main.py:71-100 | each group gets its reply: the industry-count or funding report of `run_analytics`, the founders map or the locations map collected over the rows; the search results are, in table order, exactly the rows matching the lower-cased query |
| Api.ChatSearchIsSearch | main.py:98-100 | the chat search equals the search of the query |
| Api.FoundersByNameLastWins | main.py:86-89 | a name is in the founders map exactly when some row with that name has founders, and then it maps to the last such row's founders |
| Api.LocationsByNameLastWins | main.py:92-95 | a name is in the locations map exactly when some row with that name has a headquarters, and then it maps to the last such row's |

## Left out

- Network, HTML and JSON: every request is an input `Reply`, and the page's meta tag, anchors and product headings arrive already extracted. The wikitext regexes for revenue and employee count are reduced to their captured values (`Infobox`).
- Concurrency: `research_startups` runs the names through `asyncio.gather` and shares one scraper session. A task closing the session affects the others. The batch is modelled one name after the other, and a session failure is a per-name input.
- Logging, `traceback`, and `last_updated` timestamps are left out. The model also leaves out the JSON round trip through the `data` column, which is assumed to give back the record.
- The `GET /api/startups` endpoint and `get_all_startups` return the table as it stands. The table is the model's `Store` itself.
- Row order: SQLite's scan order without `ORDER BY` is taken to be insertion order, with a replaced row moving to the end.
- Text: case mapping covers ASCII letters only, and `\d`, `\w` and `\b` are the ASCII classes. `str.isdigit` accepts only ASCII digits here, so the `ValueError` a non-ASCII digit would raise in `float` is not modelled.
- Database.FundingStats: real arithmetic stands in for floating point, so rounding is not modelled; funding values are whole numbers or texts.
- Scraper.SearchNews: the contract names the sources, dates, the company in each title and its slug in each URL, not the exact fixed wording.
- Research.ResearchManyKeepsRows: states that a row exists for each saved id, not which name's record it holds when two names share a slug.
- Pydantic validation errors on building a `Startup` are not modelled: every value the pipeline builds has the declared field types.
