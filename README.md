# HCP web crawler — a verified model of the contact-resolution core

This project models the core of the HCP (healthcare provider) web crawler, written in Dafny.
- A user uploads an Excel sheet of providers.
- The service parses it into records and creates a processing job.
- A background task then runs a per-record agent over every record:
  - build three tiered search queries;
  - search Google;
  - scrape the top pages;
  - ask a language model to extract a phone, an email and an address from each page;
  - ask it to verify that each candidate is the same person;
  - keep the best candidate.
- That background task writes each record's outcome and the job's progress counters to the database.

Every external actor becomes an oracle that the model takes as a parameter:
- the browser search;
- the page fetch;
- the chat-completion call;
- `json.loads`;
- float parsing;
- the database statements that can raise.

What remains is deterministic and sequential, and is proved.

| file | module | models |
|---|---|---|
| `strings.dfy` | `Strings` | the string helpers Python provides: `in`, `startswith`/`endswith`, ASCII `lower`/`upper`, `strip` over Python's whitespace set, `join`, slicing, `find`/`rfind`, `replace` |
| `schemas.dfy` | `Schemas` | `HCPInput`, `ExtractedContact`, the status enums, JSON values, the settings ranges, and the oracles (`Actors`) |
| `search_service.dfy` | `SearchService` | query building, the social-media blocklist and the URL trust rank |
| `scraper_service.dfy` | `ScraperService` | `_parse_google_results` over abstract result containers (filter, dedupe, cap, fallback, stable sort), and the scrape result |
| `llm_service.dfy` | `LlmService` | `_parse_json_response`, name joining, prompt truncation, and the success and failure results of extraction and verification |
| `nodes.dfy` | `AgentNodes` | the agent's nodes as functions on an explicit state, with methods for the three nodes that loop |
| `graph.dfy` | `AgentGraph` | the node/edge topology, the retry loop and its bound of three searches |
| `excel_service.dfy` | `ExcelService` | header normalisation, column mapping, row skipping and field defaulting |
| `routes.dfy` | `Routes` | `_process_job` as a method over a `Database` object, and `upload_excel` |

Each loop-bearing operation is a `method` proved equal to a specification function. Lemmas prove what the source promises about that function.

## Model

| member | source | states |
|---|---|---|
| Strings.Strip | src/hcp_crawler/services/excel_service.py:30 | the result is a contiguous slice of the input |
| Strings.StripMeaning | src/hcp_crawler/services/excel_service.py:30 | the stripped text neither starts nor ends with whitespace, and only whitespace was removed on either side |
| Strings.Join | src/hcp_crawler/services/search_service.py:60 | joining no parts gives "" and joining one part gives that part |
| Strings.JoinLast | src/hcp_crawler/services/search_service.py:60 | the join ends with the last part, and with more than one part it is the join of the others, the separator, then the last |
| Strings.Take | src/hcp_crawler/services/llm_service.py:88 | `s[:n]`: the first min(n, len) characters, a prefix of the input |
| Strings.Find | src/hcp_crawler/services/llm_service.py:185 | `find` returns the first index holding the character, or -1 when there is none |
| Strings.RFind | src/hcp_crawler/services/llm_service.py:186 | `rfind` returns the last index holding the character, or -1 when there is none |
| Strings.LowerMeaning | src/hcp_crawler/services/search_service.py:95 | `lower` keeps the length and maps each character to its ASCII lowercase |
| Strings.UpperMeaning | src/hcp_crawler/services/excel_service.py:30 | `upper` keeps the length and maps each character to its ASCII uppercase |
| Strings.LowerIdempotent | src/hcp_crawler/services/search_service.py:95 | lowercasing twice is lowercasing once |
| Strings.ContainsInfix | src/hcp_crawler/services/search_service.py:96 | a string contains every needle written inside it |
| Schemas.EmptyContact | src/hcp_crawler/models/schemas.py:46-51 | the default contact keeps its source URL and has empty phone, email and address |
| Schemas.Get | src/hcp_crawler/services/llm_service.py:105-107 | `dict.get(key, default)`: the stored value when the key is present, the default otherwise |
| SearchService.NonEmpty | src/hcp_crawler/services/search_service.py:43-55 | the kept parts are the non-empty given parts and no more of them than given |
| SearchService.NonEmptyConcat | src/hcp_crawler/services/search_service.py:43-55 | filtering distributes over concatenation, so order and repetition are kept |
| SearchService.IdentityPartsInOrder | src/hcp_crawler/services/search_service.py:43-55 | the identity parts are first, middle, last name, city and state code in that order, each present iff non-empty |
| SearchService.BuildBaseQuery | src/hcp_crawler/services/search_service.py:58-60 | the base query always ends with "doctor healthcare provider" |
| SearchService.BaseQueryShape | src/hcp_crawler/services/search_service.py:43-60 | with no identity fields the query is the keyword phrase alone; otherwise it is the non-empty first, middle, last, city and state fields joined by single spaces, then a space and the phrase |
| SearchService.SiteQueries | src/hcp_crawler/services/search_service.py:75-80 | one query per non-empty site group, never more than the groups |
| SearchService.SiteFilterPair | src/hcp_crawler/services/search_service.py:79 | a two-site group gives "site:a OR site:b" |
| SearchService.DirectoryClause | src/hcp_crawler/services/search_service.py:79-80 | tier 0 names site:doximity.com OR site:npiprofile.com in parentheses |
| SearchService.GovEduClause | src/hcp_crawler/services/search_service.py:79-80 | tier 1 names site:.gov OR site:.edu in parentheses |
| SearchService.PrioritySiteQueries | src/hcp_crawler/services/search_service.py:75-80 | the two priority groups give exactly the two site-restricted queries, in tier order |
| SearchService.BuildSearchQueries | src/hcp_crawler/services/search_service.py:65-90 | exactly three queries: base plus the tier-0 clause, base plus the tier-1 clause, base plus " contact information" |
| SearchService.QueriesExtendBase | src/hcp_crawler/services/search_service.py:80-83 | every query has the base query as a prefix |
| SearchService.AnyContained | src/hcp_crawler/services/search_service.py:96 | `any(n in s for n in needles)` holds iff some needle is a substring |
| SearchService.FirstMatch | src/hcp_crawler/services/search_service.py:110-121 | the index of the first rule with a matching keyword; no earlier rule matches |
| SearchService.RankUrl | src/hcp_crawler/services/search_service.py:99-121 | the rank lies in 0..5 |
| SearchService.RankUrlCases | src/hcp_crawler/services/search_service.py:110-121 | the rank is 0 for doximity/npiprofile, else 1 for .gov, else 2 for .edu, else 3 for .org, else 4 for hospital/health/medical/clinic, else 5, all on the lowercased URL |
| SearchService.ClassificationIgnoresCase | src/hcp_crawler/services/search_service.py:93-121 | rank and blocking give the same answer on the lowercased URL |
| SearchService.LowerContainsInfix | src/hcp_crawler/services/search_service.py:95-96 | a lowercase needle written inside a URL is found after lowercasing |
| SearchService.BlocklistMatchesSubstrings | src/hcp_crawler/services/search_service.py:93-96 | blocking is by substring: a facebook.com URL is blocked, and so is goodrx.com through "x.com" |
| SearchService.DirectoryRanksFirst | src/hcp_crawler/services/search_service.py:111-112 | a doximity profile URL ranks 0 |
| ScraperService.FirstTitledLink | src/hcp_crawler/services/scraper_service.py:134-139 | a found link is the http href of an anchor with an h3 title |
| ScraperService.FirstTitledLinkIsFirst | src/hcp_crawler/services/scraper_service.py:134-139 | the titled search finds a link iff some anchor has an http href and an h3, and then it is the href of the first such anchor |
| ScraperService.FirstHttpLink | src/hcp_crawler/services/scraper_service.py:140-145 | a found link is the http href of one of the anchors; none iff no anchor has an http href |
| ScraperService.FirstHttpLinkIsFirst | src/hcp_crawler/services/scraper_service.py:140-145 | a found link is the href of the first anchor whose href starts with "http" |
| ScraperService.LinkOfCases | src/hcp_crawler/services/scraper_service.py:133-149 | a container yields a link iff one of its anchors starts with "http"; it is the first titled http anchor's href when there is one, else the first http anchor's |
| ScraperService.TitledLinkFound | src/hcp_crawler/services/scraper_service.py:134-139 | when an anchor is both titled and http, the titled search finds one |
| ScraperService.FallbackEntry | src/hcp_crawler/services/scraper_service.py:184-202 | a fallback hit has an http URL and an empty snippet |
| ScraperService.FallbackEntries | src/hcp_crawler/services/scraper_service.py:182-202 | one candidate per anchor, none with a snippet |
| ScraperService.UrlSetMembers | src/hcp_crawler/services/scraper_service.py:156-158 | the seen set holds exactly the URLs of the hits collected |
| ScraperService.Accepted | src/hcp_crawler/services/scraper_service.py:147-178 | the accepted hits are never more than the candidates |
| ScraperService.AcceptedClean | src/hcp_crawler/services/scraper_service.py:147-155 | every accepted hit starts with http, has no "google.co", is not blocked, and carries the rank of its URL |
| ScraperService.AcceptedDistinct | src/hcp_crawler/services/scraper_service.py:156-158 | accepted URLs are pairwise distinct |
| ScraperService.AcceptedSnippets | src/hcp_crawler/services/scraper_service.py:196-202 | candidates without snippets give hits without snippets |
| ScraperService.AcceptedPrefix | src/hcp_crawler/services/scraper_service.py:129-178 | the hits accepted from a prefix of the candidates are a prefix of the hits accepted from all |
| ScraperService.Cap | src/hcp_crawler/services/scraper_service.py:130-131 | at most n hits, a prefix of the input, and the whole input when fewer than n were taken |
| ScraperService.CapReached | src/hcp_crawler/services/scraper_service.py:130-131 | once the cap is reached, later candidates change nothing (the `break`) |
| ScraperService.CapStep | src/hcp_crawler/services/scraper_service.py:129-178 | one loop iteration extends the capped hits by the candidate's hit exactly when it is admissible and the cap is not reached |
| ScraperService.RankFilter | src/hcp_crawler/services/scraper_service.py:206 | the hits of one rank, drawn from the input |
| ScraperService.Buckets | src/hcp_crawler/services/scraper_service.py:206 | the ranks k..5 concatenated in rank order, drawn from the input |
| ScraperService.SortByRank | src/hcp_crawler/services/scraper_service.py:206 | the sorted list is drawn from the input |
| ScraperService.RankFromSplit | src/hcp_crawler/services/scraper_service.py:206 | the hits of rank at least k are those of rank k and those of rank at least k+1 |
| ScraperService.RankFromAll | src/hcp_crawler/services/scraper_service.py:205-207 | when every rank lies in 0..5, the hits of rank 0..5 are all the hits, in order |
| ScraperService.RankFromNone | src/hcp_crawler/services/scraper_service.py:205-207 | no hit has a rank in the empty range 6..5 |
| ScraperService.BucketsPermute | src/hcp_crawler/services/scraper_service.py:206 | the buckets are a permutation of the hits of rank at least k |
| ScraperService.BucketsSorted | src/hcp_crawler/services/scraper_service.py:206 | the buckets are in non-decreasing rank |
| ScraperService.RankFilterConcat | src/hcp_crawler/services/scraper_service.py:206 | filtering by rank distributes over concatenation |
| ScraperService.RankFilterOfFilter | src/hcp_crawler/services/scraper_service.py:206 | filtering twice by the same rank is filtering once; by two ranks gives nothing |
| ScraperService.BucketsStable | src/hcp_crawler/services/scraper_service.py:206 | the hits of each rank keep their encounter order in the buckets |
| ScraperService.BucketsBelow | src/hcp_crawler/services/scraper_service.py:206 | the buckets from rank k hold no hit of a lower rank |
| ScraperService.RankFilterNone | src/hcp_crawler/services/scraper_service.py:206 | filtering by a rank no hit has gives nothing |
| ScraperService.RankFilterDistinct | src/hcp_crawler/services/scraper_service.py:206 | filtering keeps URLs distinct |
| ScraperService.BucketsDistinct | src/hcp_crawler/services/scraper_service.py:206 | sorting keeps URLs distinct |
| ScraperService.SortByRankIsStableSort | src/hcp_crawler/services/scraper_service.py:205-207 | the sort is ordered by rank, a permutation, and stable (each rank's hits in encounter order) |
| ScraperService.GoogleComIsGoogleCo | src/hcp_crawler/services/scraper_service.py:152-153 | any URL containing google.com also contains google.co, so the one check covers both |
| ScraperService.CapKeeps | src/hcp_crawler/services/scraper_service.py:130-131 | capping keeps hits clean and URLs distinct |
| ScraperService.CollectedProperties | src/hcp_crawler/services/scraper_service.py:129-203 | at most max_results hits, all clean and distinct; the primary hits when it accepted any, otherwise the fallback hits |
| ScraperService.ParsedHitsProperties | src/hcp_crawler/services/scraper_service.py:116-207 | the parsed list is at most max_results hits, clean, distinct, sorted by rank, and a stable permutation of the first accepted hits |
| ScraperService.CleanRankFollowsUrl | src/hcp_crawler/services/scraper_service.py:171-178 | each clean hit's rank is the rank of its URL |
| ScraperService.SortKeepsClean | src/hcp_crawler/services/scraper_service.py:206 | sorting keeps every hit clean |
| ScraperService.CollectPrimary | src/hcp_crawler/services/scraper_service.py:127-178 | the primary loop collects the capped accepted hits, and its seen set is their URLs |
| ScraperService.CollectFallback | src/hcp_crawler/services/scraper_service.py:180-203 | the fallback loop collects the capped accepted fallback hits |
| ScraperService.ParseGoogleResults | src/hcp_crawler/services/scraper_service.py:116-207 | the parsed hits: at most max_results, sorted by rank, distinct and clean, equal to the specification |
| ScraperService.ScrapeResult | src/hcp_crawler/services/scraper_service.py:272-283 | same URL; a loaded page gives success, `text[:8000]` and its title ("" when absent); a failure gives success false with empty text and title |
| LlmService.BraceSlice | src/hcp_crawler/services/llm_service.py:185-188 | the slice from the first `{` to the last `}` inclusive, when the first precedes the last |
| LlmService.BraceSliceExists | src/hcp_crawler/services/llm_service.py:187 | a slice exists iff there is a `{` and a `}` after it |
| LlmService.BraceSliceShape | src/hcp_crawler/services/llm_service.py:185-188 | the slice starts with `{`, ends with `}`, and no `{` precedes it nor `}` follows it |
| LlmService.ParseJsonResponse | src/hcp_crawler/services/llm_service.py:176-189 | None or "" gives {}; content that decodes is returned as decoded; a bad decode without a fence gives {} |
| LlmService.FencedFallback | src/hcp_crawler/services/llm_service.py:182-189 | for fenced content: no slice gives {}, a decodable slice is returned, and the call raises iff the slice does not decode |
| LlmService.ParseRaisesOnlyOnBadSlice | src/hcp_crawler/services/llm_service.py:180-189 | the parse raises only for fenced content whose first decode failed and whose brace slice exists and does not decode |
| LlmService.FullNameParts | src/hcp_crawler/services/llm_service.py:82-83 | the full name is the non-empty name parts joined by single spaces |
| LlmService.NonEmptyOfThree | src/hcp_crawler/services/llm_service.py:83 | filtering three parts keeps exactly the non-empty ones in order |
| LlmService.MessagesEndWithPageText | src/hcp_crawler/services/llm_service.py:85-142 | the extraction prompt ends with the first 6000 characters of page text; the verification prompt ends with the first 3000 |
| LlmService.Reply | src/hcp_crawler/services/llm_service.py:92-103 | a failed call gives its error; a reply gives the parsed content of the first choice |
| LlmService.ContactOf | src/hcp_crawler/services/llm_service.py:103-109 | a reply gives a contact iff it is an object whose phone, email and address are strings or missing; missing keys default to "" |
| LlmService.ExtractContact | src/hcp_crawler/services/llm_service.py:76-117 | the contact always carries the given source URL |
| LlmService.ExtractContactOutcomes | src/hcp_crawler/services/llm_service.py:91-117 | a reply that decodes to a contact gives exactly that contact, a missing key giving ""; any failure (call, decoding, not an object, a non-string field) gives the empty contact with the source URL |
| LlmService.ExtractionSeesPrefix | src/hcp_crawler/services/llm_service.py:88 | two page texts that agree on their first 6000 characters give the same contact |
| LlmService.FloatOf | src/hcp_crawler/services/llm_service.py:157 | `float(v)`: integers, floats and booleans convert; strings convert iff they parse; null, lists and objects raise |
| LlmService.VerifyIdentity | src/hcp_crawler/services/llm_service.py:119-173 | a failing call gives score 0 and "Verification failed: " plus the message |
| LlmService.VerifyIdentityOutcomes | src/hcp_crawler/services/llm_service.py:144-173 | an object reply gives its confidence as `float()` converts it (0 when missing) and its reasoning ("" when missing); a failed call, a reply that is not an object, or a confidence `float()` rejects gives 0 and "Verification failed: " with the error |
| LlmService.VerificationSeesPrefix | src/hcp_crawler/services/llm_service.py:141 | two page texts that agree on their first 3000 characters give the same verdict |
| AgentNodes.BuildQueries | src/hcp_crawler/services/agent/nodes.py:15-40 | keeps the input; three queries; index and retry count 0; empty lists; no best; confidence 0; status NOT_FOUND; error "" |
| AgentNodes.GoogleSearch | src/hcp_crawler/services/agent/nodes.py:43-79 | changes only results and error: no query left gives no results; a raising search gives no results and sets the error; otherwise the parsed hits of the current query |
| AgentNodes.GoogleSearchHits | src/hcp_crawler/services/agent/nodes.py:65-72 | the node's hits are at most max_results, sorted by rank, distinct and clean |
| AgentNodes.TopHits | src/hcp_crawler/services/agent/nodes.py:88 | `hits[:5]`: at most 5, a prefix, all of them when there are 5 or fewer |
| AgentNodes.KeptPages | src/hcp_crawler/services/agent/nodes.py:88-91 | never more pages than hits |
| AgentNodes.KeptPagesUsable | src/hcp_crawler/services/agent/nodes.py:88-91 | every kept page succeeded, has 1 to 8000 characters of text, and is the scrape of one of the hits |
| AgentNodes.KeptPagesComplete | src/hcp_crawler/services/agent/nodes.py:88-91 | every hit whose page loads with non-empty text has its page kept |
| AgentNodes.KeptPagesOfLoaded | src/hcp_crawler/services/agent/nodes.py:89-91 | a hit that loads with text adds its page at the end, in hit order |
| AgentNodes.KeptPagesSkip | src/hcp_crawler/services/agent/nodes.py:89-91 | a hit that fails to load, or loads without text, adds nothing |
| AgentNodes.ScrapePages | src/hcp_crawler/services/agent/nodes.py:82-98 | the loop equals the specification of the node |
| AgentNodes.KeptContacts | src/hcp_crawler/services/agent/nodes.py:108-112 | never more contacts than pages |
| AgentNodes.KeptContactsUseful | src/hcp_crawler/services/agent/nodes.py:108-112 | every kept contact has a phone, an email or an address, and is the extraction of one of the pages, with that page's URL as its source |
| AgentNodes.KeptContactsComplete | src/hcp_crawler/services/agent/nodes.py:108-112 | every page whose extraction has a phone, email or address has that contact kept |
| AgentNodes.KeptContactsOfUseful | src/hcp_crawler/services/agent/nodes.py:108-112 | a page whose extraction has a phone, email or address adds that contact at the end, in page order |
| AgentNodes.KeptContactsSkip | src/hcp_crawler/services/agent/nodes.py:108-112 | a page whose extraction has none of them adds nothing |
| AgentNodes.LlmExtract | src/hcp_crawler/services/agent/nodes.py:101-119 | the loop equals the specification of the node |
| AgentNodes.PageTextsKeys | src/hcp_crawler/services/agent/nodes.py:136 | the URL map's keys are exactly the pages' URLs |
| AgentNodes.PageTextIsLastPage | src/hcp_crawler/services/agent/nodes.py:136-139 | a URL maps to the text of the last page with that URL (the later wins) |
| AgentNodes.PageTextMissing | src/hcp_crawler/services/agent/nodes.py:139 | a URL without a page gets "" |
| AgentNodes.Verdicts | src/hcp_crawler/services/agent/nodes.py:138-140 | one verdict per contact, in order, for that contact |
| AgentNodes.Lead | src/hcp_crawler/services/agent/nodes.py:130-145 | the leader, when there is one, is a candidate holding the lead score; without one the score is 0 |
| AgentNodes.LeadIsFirstMaximum | src/hcp_crawler/services/agent/nodes.py:130-145 | the lead score is the maximum of 0 and all scores; there is no leader iff no score is positive; the leader is the first candidate reaching the maximum |
| AgentNodes.Passing | src/hcp_crawler/services/agent/nodes.py:147-148 | never more URLs than candidates |
| AgentNodes.PassingMembers | src/hcp_crawler/services/agent/nodes.py:147-148 | a URL is listed iff some candidate with that source URL scores at or above the threshold, whichever is best |
| AgentNodes.Judged | src/hcp_crawler/services/agent/nodes.py:150-173 | only best, confidence, reasoning, source URLs and status change |
| AgentNodes.JudgedStatus | src/hcp_crawler/services/agent/nodes.py:150-173 | FOUND iff a leader reaches the threshold with a phone or email; PARTIAL iff it reaches it with neither; otherwise NOT_FOUND with no best, while confidence and reasoning keep the lead |
| AgentNodes.VerdictStep | src/hcp_crawler/services/agent/nodes.py:138-148 | one iteration: a strictly higher score takes the lead, and a passing score appends its URL |
| AgentNodes.LlmVerify | src/hcp_crawler/services/agent/nodes.py:122-173 | the loop equals the specification of the node |
| AgentNodes.ShouldRetry | src/hcp_crawler/services/agent/nodes.py:176-194 | retry iff the status is not FOUND, a next query exists and fewer than 3 retries were made (PARTIAL retries too) |
| AgentNodes.PrepareRetry | src/hcp_crawler/services/agent/nodes.py:197-206 | index and retry count go up by one; results, pages and contacts are cleared; nothing else changes |
| AgentGraph.Next | src/hcp_crawler/services/agent/graph.py:41-56 | no edge returns to the entry; the fixed chain build → search → scrape → extract → verify; verify goes to prepare_retry on retry and to END on done; prepare_retry goes back to search |
| AgentGraph.Attempt | src/hcp_crawler/services/agent/graph.py:43-45 | one search-to-verify pass keeps the input, queries, index and retry count |
| AgentGraph.Rounds | src/hcp_crawler/services/agent/graph.py:48-56 | the retry loop ends in a state whose retry decision is done, with input and queries kept |
| AgentGraph.RoundsCount | src/hcp_crawler/services/agent/graph.py:48-56 | the loop runs at least one and at most the remaining queries' searches, and index and retry count advance by searches minus one |
| AgentGraph.RoundStep | src/hcp_crawler/services/agent/graph.py:48-56 | after a pass, done ends the loop with that pass, and retry continues from the prepared state |
| AgentGraph.RunSearches | src/hcp_crawler/services/agent/graph.py:33-56 | a record's run searches 1 to 3 times and ends with index and retry count equal to searches minus one |
| AgentGraph.RunEnds | src/hcp_crawler/services/agent/graph.py:48-56 | a run ends FOUND or on the last query, with the input kept |
| AgentGraph.RoundsEndWithLastAttempt | src/hcp_crawler/services/agent/graph.py:48-56 | the final state is the result of the last search-to-verify pass |
| AgentGraph.TraceFollowsEdges | src/hcp_crawler/services/agent/graph.py:41-56 | the nodes after build_queries for k searches number 5k-1; they start at google_search, end at llm_verify, never revisit build_queries, and follow the edges |
| AgentGraph.RunTrace | src/hcp_crawler/services/agent/graph.py:41-56 | a record's path after build_queries is at most 14 nodes: three passes with two retry preparations between them |
| AgentGraph.RoundStartsCount | src/hcp_crawler/services/agent/graph.py:48-56 | one pass per search, starting from the given state |
| AgentGraph.RoundStartsLinked | src/hcp_crawler/services/agent/graph.py:48-56 | every pass but the last routes to retry, and the next pass starts from its prepared state |
| AgentGraph.RoundStartsLast | src/hcp_crawler/services/agent/graph.py:48-56 | the last pass starts from the last round |
| AgentGraph.LastRoundDone | src/hcp_crawler/services/agent/graph.py:48-55 | the last pass routes to done |
| AgentGraph.TracePositions | src/hcp_crawler/services/agent/graph.py:42-56 | the trace repeats search, scrape, extract, verify, prepare_retry and has 5k-1 nodes |
| AgentGraph.TraceVerifyNodes | src/hcp_crawler/services/agent/graph.py:48-56 | a verify node before the end is followed by prepare_retry, and the trace ends at verify |
| AgentGraph.TraceRoutes | src/hcp_crawler/services/agent/graph.py:41-56 | at each pass's verify node the trace takes the edge of the route should_retry chose on that pass: prepare_retry before the last pass, END after it, which ends in the run's final state |
| AgentGraph.RunAgent | src/hcp_crawler/services/agent/graph.py:19-58 | the driver loop computes the run and its number of searches (1 to 3) and stops on done |
| ExcelService.NormaliseHeaderShape | src/hcp_crawler/services/excel_service.py:28-30 | the normalised header has the stripped header's length, and each character is the stripped header's character upper-cased, a space becoming an underscore; so it has no space and no lower-case letter |
| ExcelService.SameUpToCaseIsUpperEqual | src/hcp_crawler/services/excel_service.py:30 | two headers agree up to case iff their uppercasings are equal |
| ExcelService.StripCase | src/hcp_crawler/services/excel_service.py:30 | headers that agree up to case still agree after stripping |
| ExcelService.NormaliseIgnoresCase | src/hcp_crawler/services/excel_service.py:28-30 | headers that differ only in case normalise to the same name |
| ExcelService.CellText | src/hcp_crawler/services/excel_service.py:84-88 | an empty cell gives "", any other cell its stripped text |
| ExcelService.HeaderNames | src/hcp_crawler/services/excel_service.py:56-57 | one normalised name per header cell |
| ExcelService.ColumnMapEntry | src/hcp_crawler/services/excel_service.py:65-68 | only expected names are mapped, each to the last column carrying it |
| ExcelService.Field | src/hcp_crawler/services/excel_service.py:84-88 | an unmapped column or a short row gives "", otherwise the cell's text |
| ExcelService.RowRecord | src/hcp_crawler/services/excel_service.py:74-101 | a row too short for PROJECT_ID raises IndexError; an empty project id skips the row; otherwise one record with that id |
| ExcelService.RecordOf | src/hcp_crawler/services/excel_service.py:90-101 | the record carries the row's project id and each field from its column |
| ExcelService.Absorb | src/hcp_crawler/services/excel_service.py:74-101 | a row appends its record or counts a skip, and the first error stops the parse |
| ExcelService.FoldFails | src/hcp_crawler/services/excel_service.py:74-101 | the parse fails iff some row fails |
| ExcelService.FoldErrorIsIndex | src/hcp_crawler/services/excel_service.py:79 | a failing row loop fails with IndexError |
| ExcelService.FoldTally | src/hcp_crawler/services/excel_service.py:74-101 | records plus skipped rows equal the data rows, and each record is one that some row produced |
| ExcelService.RowOutcomes | src/hcp_crawler/services/excel_service.py:74 | one outcome per data row |
| ExcelService.ParseRowsFails | src/hcp_crawler/services/excel_service.py:74-101 | the row loop raises IndexError iff some row is too short for PROJECT_ID |
| ExcelService.ParseRowsTally | src/hcp_crawler/services/excel_service.py:74-101 | records never exceed data rows, and each has a non-empty project id |
| ExcelService.FoldFront | src/hcp_crawler/services/excel_service.py:90 | records keep row order: those of the leading rows are a prefix |
| ExcelService.ParseSheetErrors | src/hcp_crawler/services/excel_service.py:51-63 | a sheet raises ValueError iff it has fewer than two rows or no header normalising to PROJECT_ID |
| ExcelService.ParseErrors | src/hcp_crawler/services/excel_service.py:42-63 | ValueError iff the file is unreadable, there is no active sheet, or the sheet is unusable |
| ExcelService.ParseCounts | src/hcp_crawler/services/excel_service.py:51-101 | a successful parse had a sheet of at least two rows, and returns at most one record per data row, each with a non-empty id |
| ExcelService.FieldFromHeader | src/hcp_crawler/services/excel_service.py:65-88 | a field reads the cell under the last header of that name, or "" beyond the row |
| ExcelService.ColumnMapLast | src/hcp_crawler/services/excel_service.py:66-68 | an expected name maps to its last column |
| ExcelService.NoHeaderField | src/hcp_crawler/services/excel_service.py:85-87 | a column missing from the header gives "" |
| ExcelService.MapColumns | src/hcp_crawler/services/excel_service.py:65-68 | the header loop builds the column map |
| ExcelService.ReadRows | src/hcp_crawler/services/excel_service.py:71-101 | the row loop computes the specified records and skip count, or its error |
| ExcelService.ParseExcel | src/hcp_crawler/services/excel_service.py:33-112 | the parse equals the specification from workbook to records |
| ExcelService.ReadSheet | src/hcp_crawler/services/excel_service.py:51-101 | the sheet parse equals the specification |
| Routes.Apply | src/hcp_crawler/api/routes.py:71-92 | job and input are kept; a failure sets ERROR and str(exc); a result sets status, confidence, reasoning and sources, and the contact fields only when there is a best contact |
| Routes.UpdateWhere | src/hcp_crawler/api/routes.py:85-92 | the update keeps the number of rows |
| Routes.UpdateWhereOnly | src/hcp_crawler/api/routes.py:85-116 | the update reaches exactly the rows of that job and project id |
| Routes.Counted | src/hcp_crawler/api/routes.py:94-99 | FOUND and PARTIAL add one to found; any other status adds one to not found |
| Routes.RecordStepCrashes | src/hcp_crawler/api/routes.py:54-129 | an exception escapes a record iff its progress write raises, or its error write raises after the run or the result write raised |
| Routes.RecordStepJob | src/hcp_crawler/api/routes.py:118-128 | after record idx the job row holds idx+1 processed and the counters, whose sum went up by one |
| Routes.RecordStepCounter | src/hcp_crawler/api/routes.py:94-108 | a raising record adds to errors; a finished one to found (FOUND, PARTIAL) or not found (otherwise) |
| Routes.RecordStepIsolatesErrors | src/hcp_crawler/api/routes.py:101-116 | a raising record is marked ERROR with the message on its rows only, and the loop goes on |
| Routes.FailJob | src/hcp_crawler/api/routes.py:140-147 | the rows are kept; the job becomes FAILED unless that write raises |
| Routes.StepsTally | src/hcp_crawler/api/routes.py:50-129 | a loop run to the end counts each record once, and the job row shows the count of records and the counters |
| Routes.StepsCrashStays | src/hcp_crawler/api/routes.py:54-147 | once an exception escapes, no later record runs |
| Routes.StepsSnoc | src/hcp_crawler/api/routes.py:54 | the loop over one more record is one more iteration |
| Routes.HandleKeeps | src/hcp_crawler/api/routes.py:55-116 | handling a record leaves the job row alone |
| Routes.RecordStepKeeps | src/hcp_crawler/api/routes.py:54-129 | an iteration keeps the job's id, total and status and the number of rows |
| Routes.StepsKeep | src/hcp_crawler/api/routes.py:54-129 | the loop keeps the job's id, total and status and the number of rows |
| Routes.ProcessOutcome | src/hcp_crawler/api/routes.py:41-147 | COMPLETED iff nothing escaped; then processed and the counter sum equal the records; otherwise FAILED unless that write raises |
| Routes.ProcessWithoutFaults | src/hcp_crawler/api/routes.py:41-137 | with no statement raising the job completes with every record counted |
| Routes.StepsNeverCrash | src/hcp_crawler/api/routes.py:54-129 | with no statement raising the loop runs to the end |
| Routes.Database.constructor | src/hcp_crawler/api/routes.py:41 | the session starts from the given tables |
| Routes.Database.SetStatus | src/hcp_crawler/api/routes.py:43-146 | the job status is set unless the statement raises; nothing else changes |
| Routes.Database.UpdateRecords | src/hcp_crawler/api/routes.py:85-116 | the record rows are updated unless the statement raises |
| Routes.Database.WriteProgress | src/hcp_crawler/api/routes.py:119-128 | the progress counters are set unless the statement raises |
| Routes.MarkError | src/hcp_crawler/api/routes.py:101-116 | the except branch equals its specification |
| Routes.InvokeAgent | src/hcp_crawler/api/routes.py:63-65 | the agent call gives the specified run, which ends with the input kept and a done decision |
| Routes.HandleRecord | src/hcp_crawler/api/routes.py:55-116 | one record's handling equals its specification |
| Routes.ProcessJob | src/hcp_crawler/api/routes.py:37-147 | the background task leaves the tables its specification gives |
| Routes.NewRows | src/hcp_crawler/api/routes.py:182-194 | one row per record |
| Routes.Respond | src/hcp_crawler/api/routes.py:163-208 | 400 iff the parse raised ValueError or gave no records; a server error iff a row was too short; otherwise a PENDING job of the records |
| Routes.UploadRejects | src/hcp_crawler/api/routes.py:158-169 | 400 iff the name is missing or not .xlsx/.xls, the parse raised ValueError, or there are no records |
| Routes.UploadServerError | src/hcp_crawler/api/routes.py:163-166 | an IndexError from the parse escapes as a server error |
| Routes.RespondCreates | src/hcp_crawler/api/routes.py:172-208 | an accepted upload makes a PENDING job with zero counters and total equal to the records, one row per record, and returns id, total and PENDING |
| Routes.UploadCreates | src/hcp_crawler/api/routes.py:158-208 | an accepted upload's rows are the parsed records, each with a non-empty id |
| Routes.AcceptedJobCompletes | src/hcp_crawler/api/routes.py:196-201 | the job an accepted upload creates, processed with no statement raising, completes with every record counted |
| Routes.UploadExcel | src/hcp_crawler/api/routes.py:152-208 | the endpoint equals its specification |
| Routes.RespondTo | src/hcp_crawler/api/routes.py:163-208 | the response and record loop equal the specification |

## Left out

- Browser automation: navigation, typing, sleeps, resource blocking and page text extraction are foreign I/O. A search is an oracle returning result containers or raising, and a fetch is an oracle returning text and title or failing.
- BeautifulSoup selector matching is a library outside this model. A results page is given as containers (anchors with optional h3 titles, a title and a snippet) and fallback anchors.
- ParseGoogleResults: the title and snippet texts are read from each container as given; the h3/div selector cascade is not modelled.
- The guard at scraper_service.py:147-149 cannot fire: both link selections return only http hrefs. The method therefore has no branch for it.
- The semaphore and the tenacity retry decorators (concurrency and timing) are left out. `_do_scrape_page` catches every exception itself, so its retry never fires.
- Random delays and `asyncio.sleep` are left out: they only schedule.
- The OpenAI client and its configuration are left out. The chat call is an oracle that replies with optional content or raises.
- `json.loads` and `float()` on strings are oracles. No JSON grammar is modelled.
- Exception texts are approximated. "Verification failed: " is followed by the oracle's message, and the parse error messages are literal strings.
- The database, the ORM and transactions are not modelled as such. Each statement takes effect at once. A statement that raises is named in a given set of failing writes, and its exception message is given. Rollback on commit is not modelled.
- Routes.ProcessJob: only the job's own row and the record rows are modelled; other jobs' rows are not.
- Routes.Apply: `source_urls` is stored as a list, not as the `json.dumps` text.
- Routes.Apply: the reasoning is stored as the JSON value the model returned.
- Routes.UploadExcel: uuid generation is a parameter (the job id).
- Routes.UploadExcel: `asyncio.create_task` is not modelled. The endpoint does not start processing; AcceptedJobCompletes links the upload to ProcessJob.
- The get-job, results, export (xlsxwriter), stats and listing endpoints are left out, as are `progress_pct`: they are database queries, float arithmetic and presentation.
- The LangGraph engine's recursion limit is left out. The graph is a fixed transition function, and the loop's bound of three searches is proved.
- The oracles are fixed for one record's run. Per-call variation of a real browser or model is not captured.
- Case mapping is ASCII only. Python's Unicode `lower`/`upper` is not modelled.
- Whitespace for `strip` is Python's Unicode whitespace set (`str.isspace`), listed character by character.
- Scores are reals. NaN and infinity from `float()` are not modelled.
- ExcelService.ParseExcel: cells are given as their `str()` text, so a falsy cell (0, 0.0, False) reads as its text everywhere; the source reads it as empty in the header row and in the PROJECT_ID column (its `if h` and `if row[...]` tests) and as its text in the other columns (`_cell` tests only `is None`).
- ExcelService.MissingProjectIdMessage: the list repr of headers does not escape quotes.
- ExcelService.FoldFront: it states the order of records one row at a time, not as a full subsequence relation.
- ExcelService.FoldTally: it states which rows produce records, not their order; the order is stated by ExcelService.FoldFront one row at a time.
- Logging, configuration loading, the Streamlit frontend and the sample-data generator are left out.
