/** The nodes of the per-record agent (src/hcp_crawler/services/agent/nodes.py) over the
    context that flows between them (src/hcp_crawler/services/agent/state.py). Every node
    returns the context with some fields replaced; the loops of `scrape_pages`,
    `llm_extract` and `llm_verify` are methods proved against the functions that say what
    they compute. */
module AgentNodes {
  import opened Strings
  import opened Schemas
  import opened SearchService
  import opened ScraperService
  import opened LlmService

  /** The agent context. `reasoning` holds the verification reasoning as the model's reply
      decoded it. */
  datatype AgentState = AgentState(
    hcp: HCPInput,
    queries: seq<string>,
    queryIdx: nat,
    searchResults: seq<SearchHit>,
    scrapedPages: seq<PageContent>,
    extracted: seq<ExtractedContact>,
    best: Option<ExtractedContact>,
    confidence: real,
    reasoning: Json,
    sourceUrls: seq<string>,
    status: MatchStatus,
    retryCount: nat,
    error: string)

  /** The context a record's run starts from: only the input is given, and every other
      field holds what a read with the node's default would give. */
  function Start(hcp: HCPInput): AgentState {
    AgentState(hcp, [], 0, [], [], [], None, 0.0, JString(""), [], NotFound, 0, "")
  }

  /** How many search hits are scraped. */
  const PagesPerSearch: nat := 5

  /** The most retries a record gets. */
  const MaxRetries: nat := 3

  // ---------------------------------------------------------------- build_queries

  /** `build_queries`: the three tiered queries, and every other field reset. */
  function BuildQueries(st: AgentState): (r: AgentState)
    ensures r.hcp == st.hcp && r.queries == BuildSearchQueries(st.hcp) && |r.queries| == 3
    ensures r.queryIdx == 0 && r.retryCount == 0
    ensures r.searchResults == [] && r.scrapedPages == [] && r.extracted == [] && r.sourceUrls == []
    ensures r.best == None && r.confidence == 0.0 && r.reasoning == JString("")
    ensures r.status == NotFound && r.error == ""
  {
    AgentState(st.hcp, BuildSearchQueries(st.hcp), 0, [], [], [], None, 0.0, JString(""), [], NotFound, 0, "")
  }

  // ---------------------------------------------------------------- google_search

  /** `google_search`: the parsed hits of the current query, or no hits when every query has
      been used; a raised search leaves no hits and records its message. */
  function GoogleSearch(st: AgentState, actors: Actors, cfg: Settings): (r: AgentState)
    requires ValidSettings(cfg)
    ensures r == st.(searchResults := r.searchResults, error := r.error)
    ensures st.queryIdx >= |st.queries| ==> r.searchResults == [] && r.error == st.error
    ensures st.queryIdx < |st.queries| && actors.search(st.queries[st.queryIdx]).SearchRaised? ==>
      r.searchResults == [] && r.error == actors.search(st.queries[st.queryIdx]).message
    ensures st.queryIdx < |st.queries| && actors.search(st.queries[st.queryIdx]).Rendered? ==>
      r.searchResults == ParsedHits(actors.search(st.queries[st.queryIdx]).page, cfg.maxResultsPerHcp)
      && r.error == st.error
  {
    if st.queryIdx >= |st.queries| then st.(searchResults := [])
    else
      match actors.search(st.queries[st.queryIdx])
      case Rendered(page) => st.(searchResults := ParsedHits(page, cfg.maxResultsPerHcp))
      case SearchRaised(m) => st.(searchResults := [], error := m)
  }

  /** The hits a search leaves are the parse's: at most the configured number, clean,
      distinct and ordered by rank. */
  lemma GoogleSearchHits(st: AgentState, actors: Actors, cfg: Settings)
    requires ValidSettings(cfg)
    ensures var hits := GoogleSearch(st, actors, cfg).searchResults;
      |hits| <= cfg.maxResultsPerHcp && SortedByRank(hits) && DistinctUrls(hits)
      && forall i :: 0 <= i < |hits| ==> Clean(hits[i])
  {
    if st.queryIdx < |st.queries| && actors.search(st.queries[st.queryIdx]).Rendered? {
      ParsedHitsProperties(actors.search(st.queries[st.queryIdx]).page, cfg.maxResultsPerHcp);
    }
  }

  // ---------------------------------------------------------------- scrape_pages

  /** The hits that get scraped: `hits[:5]`. */
  function TopHits(hits: seq<SearchHit>): (r: seq<SearchHit>)
    ensures |r| <= PagesPerSearch && |r| <= |hits| && r == hits[..|r|]
    ensures |hits| <= PagesPerSearch ==> r == hits
  {
    if |hits| <= PagesPerSearch then hits else hits[..PagesPerSearch]
  }

  /** A page is kept when it loaded and has text. */
  predicate Usable(p: PageContent) {
    p.success && p.text != ""
  }

  /** The usable pages of the given hits, in hit order. */
  function KeptPages(fetch: string -> FetchOutcome, hits: seq<SearchHit>): (pages: seq<PageContent>)
    ensures |pages| <= |hits|
    decreases |hits|
  {
    if hits == [] then []
    else
      var prev := KeptPages(fetch, hits[..|hits| - 1]);
      var last := hits[|hits| - 1];
      var page := ScrapeResult(last.url, fetch(last.url));
      if Usable(page) then prev + [page] else prev
  }

  /** Every kept page loaded, has between 1 and 8000 characters of text, and is the scrape of
      one of the hits. */
  lemma {:induction false} KeptPagesUsable(fetch: string -> FetchOutcome, hits: seq<SearchHit>)
    ensures forall i :: 0 <= i < |KeptPages(fetch, hits)| ==>
      var p := KeptPages(fetch, hits)[i];
      p.success && 0 < |p.text| <= MaxPageText
      && (exists j :: 0 <= j < |hits| && hits[j].url == p.url && p == ScrapeResult(hits[j].url, fetch(hits[j].url)))
    decreases |hits|
  {
    if hits != [] {
      var front := hits[..|hits| - 1];
      KeptPagesUsable(fetch, front);
      var prev := KeptPages(fetch, front);
      var r := KeptPages(fetch, hits);
      forall i | 0 <= i < |r|
        ensures r[i].success && 0 < |r[i].text| <= MaxPageText
          && (exists j :: 0 <= j < |hits| && hits[j].url == r[i].url && r[i] == ScrapeResult(hits[j].url, fetch(hits[j].url)))
      {
        if i < |prev| {
          assert r[i] == prev[i];
          var j :| 0 <= j < |front| && front[j].url == prev[i].url
            && prev[i] == ScrapeResult(front[j].url, fetch(front[j].url));
          assert hits[j] == front[j];
        } else {
          var j := |hits| - 1;
          assert hits[j].url == r[i].url && r[i] == ScrapeResult(hits[j].url, fetch(hits[j].url));
        }
      }
    }
  }

  /** A hit whose page loads with text contributes exactly that page. */
  lemma KeptPagesOfLoaded(fetch: string -> FetchOutcome, hits: seq<SearchHit>, h: SearchHit)
    requires fetch(h.url).Fetched? && fetch(h.url).text != ""
    ensures KeptPages(fetch, hits + [h]) == KeptPages(fetch, hits) + [ScrapeResult(h.url, fetch(h.url))]
  {
    assert (hits + [h])[..|hits|] == hits;
  }

  /** A hit whose page fails to load, or loads without text, adds nothing. */
  lemma KeptPagesSkip(fetch: string -> FetchOutcome, hits: seq<SearchHit>, h: SearchHit)
    requires !(fetch(h.url).Fetched? && fetch(h.url).text != "")
    ensures KeptPages(fetch, hits + [h]) == KeptPages(fetch, hits)
  {
    assert (hits + [h])[..|hits|] == hits;
  }

  /** Every hit whose page loads with text has that page kept. */
  lemma {:induction false} KeptPagesComplete(fetch: string -> FetchOutcome, hits: seq<SearchHit>)
    ensures forall j :: 0 <= j < |hits| && Usable(ScrapeResult(hits[j].url, fetch(hits[j].url))) ==>
      ScrapeResult(hits[j].url, fetch(hits[j].url)) in KeptPages(fetch, hits)
    decreases |hits|
  {
    if hits != [] {
      var front := hits[..|hits| - 1];
      KeptPagesComplete(fetch, front);
      forall j | 0 <= j < |hits| && Usable(ScrapeResult(hits[j].url, fetch(hits[j].url)))
        ensures ScrapeResult(hits[j].url, fetch(hits[j].url)) in KeptPages(fetch, hits)
      {
        if j < |front| {
          assert hits[j] == front[j];
        }
      }
    }
  }

  /** The context after `scrape_pages`. */
  function Scraped(st: AgentState, actors: Actors): AgentState {
    st.(scrapedPages := KeptPages(actors.fetch, TopHits(st.searchResults)))
  }

  /** `scrape_pages`: scrape the first five hits, keeping the usable pages. */
  method ScrapePages(st: AgentState, actors: Actors) returns (r: AgentState)
    ensures r == Scraped(st, actors)
  {
    var hits := TopHits(st.searchResults);
    var pages: seq<PageContent> := [];
    for i := 0 to |hits|
      invariant pages == KeptPages(actors.fetch, hits[..i])
    {
      var page := ScrapeResult(hits[i].url, actors.fetch(hits[i].url));
      assert hits[..i + 1][..i] == hits[..i];
      if page.success && page.text != "" {
        pages := pages + [page];
      }
    }
    assert hits[..|hits|] == hits;
    r := st.(scrapedPages := pages);
  }

  // ---------------------------------------------------------------- llm_extract

  /** A contact worth keeping has a phone, an email or an address. */
  predicate Useful(c: ExtractedContact) {
    c.phone != "" || c.email != "" || c.fullAddress != ""
  }

  /** The useful contacts extracted from the pages, in page order. */
  function KeptContacts(actors: Actors, hcp: HCPInput, pages: seq<PageContent>): (cs: seq<ExtractedContact>)
    ensures |cs| <= |pages|
    decreases |pages|
  {
    if pages == [] then []
    else
      var prev := KeptContacts(actors, hcp, pages[..|pages| - 1]);
      var p := pages[|pages| - 1];
      var c := ExtractContact(actors, p.text, hcp, p.url);
      if Useful(c) then prev + [c] else prev
  }

  /** Every kept contact is useful and is the extraction of one of the pages, naming that
      page as its source. */
  lemma {:induction false} KeptContactsUseful(actors: Actors, hcp: HCPInput, pages: seq<PageContent>)
    ensures forall i :: 0 <= i < |KeptContacts(actors, hcp, pages)| ==>
      Useful(KeptContacts(actors, hcp, pages)[i])
      && (exists j :: 0 <= j < |pages| && pages[j].url == KeptContacts(actors, hcp, pages)[i].sourceUrl
            && KeptContacts(actors, hcp, pages)[i] == ExtractContact(actors, pages[j].text, hcp, pages[j].url))
    decreases |pages|
  {
    if pages != [] {
      var front := pages[..|pages| - 1];
      KeptContactsUseful(actors, hcp, front);
      var prev := KeptContacts(actors, hcp, front);
      var r := KeptContacts(actors, hcp, pages);
      forall i | 0 <= i < |r|
        ensures Useful(r[i])
          && (exists j :: 0 <= j < |pages| && pages[j].url == r[i].sourceUrl
                && r[i] == ExtractContact(actors, pages[j].text, hcp, pages[j].url))
      {
        if i < |prev| {
          assert r[i] == prev[i];
          var j :| 0 <= j < |front| && front[j].url == prev[i].sourceUrl
            && prev[i] == ExtractContact(actors, front[j].text, hcp, front[j].url);
          assert pages[j] == front[j];
        } else {
          var j := |pages| - 1;
          assert pages[j].url == r[i].sourceUrl && r[i] == ExtractContact(actors, pages[j].text, hcp, pages[j].url);
        }
      }
    }
  }

  /** A page whose extraction is useful adds that contact at the end, in page order. */
  lemma KeptContactsOfUseful(actors: Actors, hcp: HCPInput, pages: seq<PageContent>, p: PageContent)
    requires Useful(ExtractContact(actors, p.text, hcp, p.url))
    ensures KeptContacts(actors, hcp, pages + [p]) ==
      KeptContacts(actors, hcp, pages) + [ExtractContact(actors, p.text, hcp, p.url)]
  {
    assert (pages + [p])[..|pages|] == pages;
  }

  /** A page whose extraction has no phone, email or address adds nothing. */
  lemma KeptContactsSkip(actors: Actors, hcp: HCPInput, pages: seq<PageContent>, p: PageContent)
    requires !Useful(ExtractContact(actors, p.text, hcp, p.url))
    ensures KeptContacts(actors, hcp, pages + [p]) == KeptContacts(actors, hcp, pages)
  {
    assert (pages + [p])[..|pages|] == pages;
  }

  /** Every page whose extraction is useful has that contact kept. */
  lemma {:induction false} KeptContactsComplete(actors: Actors, hcp: HCPInput, pages: seq<PageContent>)
    ensures forall j :: 0 <= j < |pages| && Useful(ExtractContact(actors, pages[j].text, hcp, pages[j].url)) ==>
      ExtractContact(actors, pages[j].text, hcp, pages[j].url) in KeptContacts(actors, hcp, pages)
    decreases |pages|
  {
    if pages != [] {
      var front := pages[..|pages| - 1];
      KeptContactsComplete(actors, hcp, front);
      forall j | 0 <= j < |pages| && Useful(ExtractContact(actors, pages[j].text, hcp, pages[j].url))
        ensures ExtractContact(actors, pages[j].text, hcp, pages[j].url) in KeptContacts(actors, hcp, pages)
      {
        if j < |front| {
          assert pages[j] == front[j];
        }
      }
    }
  }

  /** The context after `llm_extract`. */
  function Extracted(st: AgentState, actors: Actors): AgentState {
    st.(extracted := KeptContacts(actors, st.hcp, st.scrapedPages))
  }

  /** `llm_extract`: one extraction per scraped page, keeping the useful contacts. */
  method LlmExtract(st: AgentState, actors: Actors) returns (r: AgentState)
    ensures r == Extracted(st, actors)
  {
    var pages := st.scrapedPages;
    var contacts: seq<ExtractedContact> := [];
    for i := 0 to |pages|
      invariant contacts == KeptContacts(actors, st.hcp, pages[..i])
    {
      var contact := ExtractContact(actors, pages[i].text, st.hcp, pages[i].url);
      assert pages[..i + 1][..i] == pages[..i];
      if contact.phone != "" || contact.email != "" || contact.fullAddress != "" {
        contacts := contacts + [contact];
      }
    }
    assert pages[..|pages|] == pages;
    r := st.(extracted := contacts);
  }

  // ---------------------------------------------------------------- llm_verify

  /** `{p.url: p.text for p in pages}`: a later page with the same URL replaces an earlier one. */
  function PageTexts(pages: seq<PageContent>): map<string, string>
    decreases |pages|
  {
    if pages == [] then map[]
    else PageTexts(pages[..|pages| - 1])[pages[|pages| - 1].url := pages[|pages| - 1].text]
  }

  /** `page_texts.get(url, "")` */
  function PageTextFor(pages: seq<PageContent>, url: string): string {
    var m := PageTexts(pages);
    if url in m then m[url] else ""
  }

  /** A URL has a text exactly when some page has that URL. */
  lemma {:induction false} PageTextsKeys(pages: seq<PageContent>, url: string)
    ensures url in PageTexts(pages) <==> exists j :: 0 <= j < |pages| && pages[j].url == url
    decreases |pages|
  {
    if pages != [] {
      var front := pages[..|pages| - 1];
      PageTextsKeys(front, url);
      if url in PageTexts(front) {
        var j :| 0 <= j < |front| && front[j].url == url;
        assert pages[j] == front[j];
      }
      if exists j :: 0 <= j < |pages| && pages[j].url == url {
        var j :| 0 <= j < |pages| && pages[j].url == url;
        if j < |front| {
          assert front[j] == pages[j];
        }
      }
    }
  }

  /** The text found for a URL is that of the last page with that URL, and "" when no page
      has it. */
  lemma {:induction false} PageTextIsLastPage(pages: seq<PageContent>, k: nat)
    requires k < |pages|
    requires forall j :: k < j < |pages| ==> pages[j].url != pages[k].url
    ensures PageTextFor(pages, pages[k].url) == pages[k].text
    decreases |pages|
  {
    if k < |pages| - 1 {
      var front := pages[..|pages| - 1];
      assert front[k] == pages[k];
      forall j | k < j < |front|
        ensures front[j].url != front[k].url
      {
        assert front[j] == pages[j];
      }
      PageTextIsLastPage(front, k);
    }
  }

  /** With no page for a URL, its text is "". */
  lemma PageTextMissing(pages: seq<PageContent>, url: string)
    requires forall j :: 0 <= j < |pages| ==> pages[j].url != url
    ensures PageTextFor(pages, url) == ""
  {
    PageTextsKeys(pages, url);
  }

  /** One verification: the contact, its score and the reasoning given for it. */
  datatype Verdict = Verdict(contact: ExtractedContact, score: real, reasoning: Json)

  /** The verdict on each contact, with the text of its source page as context. */
  function Verdicts(actors: Actors, hcp: HCPInput, pages: seq<PageContent>, contacts: seq<ExtractedContact>): (vs: seq<Verdict>)
    ensures |vs| == |contacts|
    ensures forall i :: 0 <= i < |vs| ==> vs[i].contact == contacts[i]
  {
    seq(|contacts|, i requires 0 <= i < |contacts| =>
      var sr := VerifyIdentity(actors, hcp, contacts[i], PageTextFor(pages, contacts[i].sourceUrl));
      Verdict(contacts[i], sr.0, sr.1))
  }

  /** The running leader of the verdicts: the index of the verdict that took the lead last,
      and the leading score; a verdict takes the lead only by scoring strictly more. */
  function Lead(vs: seq<Verdict>): (r: (Option<nat>, real))
    ensures r.0.Some? ==> r.0.value < |vs| && r.1 == vs[r.0.value].score
    ensures r.0.None? ==> r.1 == 0.0
    decreases |vs|
  {
    if vs == [] then (None, 0.0)
    else
      var prev := Lead(vs[..|vs| - 1]);
      if vs[|vs| - 1].score > prev.1 then (Some(|vs| - 1), vs[|vs| - 1].score) else prev
  }

  /** The leader is the first verdict reaching the highest score, provided that score is
      positive; with no positive score there is no leader and the leading score is 0. */
  lemma {:induction false} LeadIsFirstMaximum(vs: seq<Verdict>)
    ensures Lead(vs).1 >= 0.0
    ensures forall j :: 0 <= j < |vs| ==> vs[j].score <= Lead(vs).1
    ensures Lead(vs).0.None? <==> forall j :: 0 <= j < |vs| ==> vs[j].score <= 0.0
    ensures Lead(vs).0.Some? ==>
      Lead(vs).1 > 0.0 && forall j :: 0 <= j < Lead(vs).0.value ==> vs[j].score < Lead(vs).1
    decreases |vs|
  {
    if vs != [] {
      var front := vs[..|vs| - 1];
      LeadIsFirstMaximum(front);
      assert forall j :: 0 <= j < |front| ==> front[j] == vs[j];
    }
  }

  /** The source URLs of the verdicts scoring at least the threshold, in order. */
  function Passing(vs: seq<Verdict>, threshold: real): (urls: seq<string>)
    ensures |urls| <= |vs|
    decreases |vs|
  {
    if vs == [] then []
    else
      var prev := Passing(vs[..|vs| - 1], threshold);
      var last := vs[|vs| - 1];
      if last.score >= threshold then prev + [last.contact.sourceUrl] else prev
  }

  /** A URL is listed exactly when some verdict on a contact from it reaches the threshold,
      whichever contact ends up best. */
  lemma {:induction false} PassingMembers(vs: seq<Verdict>, threshold: real)
    ensures forall u :: u in Passing(vs, threshold) <==>
      exists j :: 0 <= j < |vs| && vs[j].contact.sourceUrl == u && vs[j].score >= threshold
    decreases |vs|
  {
    if vs != [] {
      var front := vs[..|vs| - 1];
      PassingMembers(front, threshold);
      forall u | (exists j :: 0 <= j < |vs| && vs[j].contact.sourceUrl == u && vs[j].score >= threshold)
        ensures u in Passing(vs, threshold)
      {
        var j :| 0 <= j < |vs| && vs[j].contact.sourceUrl == u && vs[j].score >= threshold;
        if j < |front| {
          assert front[j] == vs[j];
        }
      }
      forall u | u in Passing(vs, threshold)
        ensures exists j :: 0 <= j < |vs| && vs[j].contact.sourceUrl == u && vs[j].score >= threshold
      {
        if u in Passing(front, threshold) {
          var j :| 0 <= j < |front| && front[j].contact.sourceUrl == u && front[j].score >= threshold;
          assert vs[j] == front[j];
        }
      }
    }
  }

  /** The match status of a best contact and its score. */
  function StatusOf(best: Option<ExtractedContact>, score: real, threshold: real): MatchStatus {
    if score >= threshold && best.Some? then
      if best.value.phone == "" && best.value.email == "" then Partial else Found
    else NotFound
  }

  /** The context `llm_verify` returns for the given verdicts. */
  function Judged(st: AgentState, vs: seq<Verdict>, threshold: real): (r: AgentState)
    ensures r == st.(best := r.best, confidence := r.confidence, reasoning := r.reasoning,
                     sourceUrls := r.sourceUrls, status := r.status)
  {
    var lead := Lead(vs);
    var best := if lead.0.Some? then Some(vs[lead.0.value].contact) else None;
    var reasoning := if lead.0.Some? then vs[lead.0.value].reasoning else JString("");
    var status := StatusOf(best, lead.1, threshold);
    st.(best := if status == NotFound then None else best,
        confidence := lead.1,
        reasoning := reasoning,
        sourceUrls := Passing(vs, threshold),
        status := status)
  }

  /** What `llm_verify` decides: FOUND exactly when the leader reaches the threshold and has a
      phone or an email; PARTIAL when it reaches the threshold with neither; otherwise
      NOT_FOUND with no best contact. The score and reasoning are the leader's either way. */
  lemma JudgedStatus(st: AgentState, vs: seq<Verdict>, threshold: real)
    ensures var r := Judged(st, vs, threshold);
      var lead := Lead(vs);
      && (r.status == Found <==>
            lead.0.Some? && lead.1 >= threshold
            && (vs[lead.0.value].contact.phone != "" || vs[lead.0.value].contact.email != ""))
      && (r.status == Partial <==>
            lead.0.Some? && lead.1 >= threshold
            && vs[lead.0.value].contact.phone == "" && vs[lead.0.value].contact.email == "")
      && (r.status == NotFound <==> lead.0.None? || lead.1 < threshold)
      && (r.status == NotFound ==> r.best == None)
      && (r.status != NotFound ==> r.best == Some(vs[lead.0.value].contact))
      && r.confidence == lead.1
      && r.status != Processing && r.status != Error
  {
  }

  /** Taking one more verdict into account: it leads if it beats the leading score, and its
      source is listed if it reaches the threshold. */
  lemma VerdictStep(vs: seq<Verdict>, i: nat, threshold: real)
    requires i < |vs|
    ensures Lead(vs[..i + 1]) ==
      if vs[i].score > Lead(vs[..i]).1 then (Some(i), vs[i].score) else Lead(vs[..i])
    ensures Passing(vs[..i + 1], threshold) ==
      if vs[i].score >= threshold then Passing(vs[..i], threshold) + [vs[i].contact.sourceUrl]
      else Passing(vs[..i], threshold)
  {
    assert vs[..i + 1][..i] == vs[..i];
  }

  /** The context after `llm_verify`. */
  function Verified(st: AgentState, actors: Actors, cfg: Settings): AgentState
    requires ValidSettings(cfg)
  {
    Judged(st, Verdicts(actors, st.hcp, st.scrapedPages, st.extracted), cfg.confidenceThreshold as real)
  }

  /** `llm_verify`: verify every extracted contact, keep the first with the highest score,
      list the sources that reach the threshold, and set the match status. */
  method LlmVerify(st: AgentState, actors: Actors, cfg: Settings) returns (r: AgentState)
    requires ValidSettings(cfg)
    ensures r == Verified(st, actors, cfg)
  {
    var contacts := st.extracted;
    var threshold := cfg.confidenceThreshold as real;
    ghost var vs := Verdicts(actors, st.hcp, st.scrapedPages, contacts);
    var bestContact: Option<ExtractedContact> := None;
    var bestScore: real := 0.0;
    var bestReasoning: Json := JString("");
    var sourceUrls: seq<string> := [];
    for i := 0 to |contacts|
      invariant bestScore == Lead(vs[..i]).1
      invariant bestContact == if Lead(vs[..i]).0.Some? then Some(vs[Lead(vs[..i]).0.value].contact) else None
      invariant bestReasoning == if Lead(vs[..i]).0.Some? then vs[Lead(vs[..i]).0.value].reasoning else JString("")
      invariant sourceUrls == Passing(vs[..i], threshold)
    {
      var contact := contacts[i];
      var pageText := PageTextFor(st.scrapedPages, contact.sourceUrl);
      var verdict := VerifyIdentity(actors, st.hcp, contact, pageText);
      var score, reasoning := verdict.0, verdict.1;
      VerdictStep(vs, i, threshold);
      if score > bestScore {
        bestScore := score;
        bestContact := Some(contact);
        bestReasoning := reasoning;
      }
      if score >= threshold {
        sourceUrls := sourceUrls + [contact.sourceUrl];
      }
    }
    assert vs[..|contacts|] == vs;
    var status: MatchStatus;
    if bestScore >= threshold && bestContact.Some? {
      status := Found;
      if bestContact.value.phone == "" && bestContact.value.email == "" {
        status := Partial;
      }
    } else {
      status := NotFound;
      bestContact := None;
    }
    r := st.(best := bestContact, confidence := bestScore, reasoning := bestReasoning,
             sourceUrls := sourceUrls, status := status);
  }

  // ---------------------------------------------------------------- retry

  datatype Route = Retry | Done

  /** `should_retry`: done on FOUND; otherwise retry while another query remains and fewer
      than three retries were made. PARTIAL retries too. */
  function ShouldRetry(st: AgentState): (route: Route)
    ensures route == Retry <==>
      st.status != Found && st.queryIdx + 1 < |st.queries| && st.retryCount < MaxRetries
  {
    if st.status == Found then Done
    else if st.queryIdx + 1 < |st.queries| && st.retryCount < MaxRetries then Retry
    else Done
  }

  /** `prepare_retry`: the next query, one more retry, and the per-attempt lists cleared;
      everything else is kept. */
  function PrepareRetry(st: AgentState): (r: AgentState)
    ensures r.queryIdx == st.queryIdx + 1 && r.retryCount == st.retryCount + 1
    ensures r.searchResults == [] && r.scrapedPages == [] && r.extracted == []
    ensures r.(queryIdx := st.queryIdx, retryCount := st.retryCount, searchResults := st.searchResults,
               scrapedPages := st.scrapedPages, extracted := st.extracted) == st
  {
    st.(queryIdx := st.queryIdx + 1, retryCount := st.retryCount + 1,
        searchResults := [], scrapedPages := [], extracted := [])
  }
}
