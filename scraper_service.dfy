/** Search-result parsing and page scraping
    (src/hcp_crawler/services/scraper_service.py). The browser and BeautifulSoup are
    replaced by what they hand to the code: the containers and anchors of a results page,
    and the cleaned text of a fetched page. */
module ScraperService {
  import opened Strings
  import opened Schemas
  import opened SearchService

  /** One search result; `rank` is its trust rank (0 = most trusted). */
  datatype SearchHit = SearchHit(url: string, title: string, snippet: string, rank: int)

  /** Text extracted from one page. */
  datatype PageContent = PageContent(url: string, text: string, title: string, success: bool)

  /** A candidate result before filtering: link URL, title and snippet. */
  datatype Entry = Entry(url: string, title: string, snippet: string)

  /** The scraped text budget, in characters. */
  const MaxPageText: nat := 8000

  // ---------------------------------------------------------------- candidates

  /** The href of the first anchor with an http href and an `h3` inside it. */
  function FirstTitledLink(anchors: seq<Anchor>): (link: Option<string>)
    ensures link.Some? ==> StartsWith(link.value, "http")
    ensures link.Some? ==> exists i :: 0 <= i < |anchors| && anchors[i].href == link.value && anchors[i].h3.Some?
    decreases |anchors|
  {
    if anchors == [] then None
    else if StartsWith(anchors[0].href, "http") && anchors[0].h3.Some? then Some(anchors[0].href)
    else FirstTitledLink(anchors[1..])
  }

  /** The href of the first anchor whose href starts with "http" (`a[href^='http']`). */
  function FirstHttpLink(anchors: seq<Anchor>): (link: Option<string>)
    ensures link.Some? ==> StartsWith(link.value, "http")
    ensures link.Some? ==> exists i :: 0 <= i < |anchors| && anchors[i].href == link.value
    ensures link.None? ==> forall i :: 0 <= i < |anchors| ==> !StartsWith(anchors[i].href, "http")
    decreases |anchors|
  {
    if anchors == [] then None
    else if StartsWith(anchors[0].href, "http") then Some(anchors[0].href)
    else FirstHttpLink(anchors[1..])
  }

  /** An anchor the primary strategy's inner loop accepts: an http href with an `h3` inside. */
  predicate TitledHttp(a: Anchor) {
    StartsWith(a.href, "http") && a.h3.Some?
  }

  /** The titled search finds a link exactly when some anchor is titled with an http href,
      and then it is the href of the first such anchor. */
  lemma {:induction false} FirstTitledLinkIsFirst(anchors: seq<Anchor>)
    ensures FirstTitledLink(anchors).Some? <==> exists i :: 0 <= i < |anchors| && TitledHttp(anchors[i])
    ensures FirstTitledLink(anchors).Some? ==>
      exists i :: 0 <= i < |anchors| && TitledHttp(anchors[i]) && anchors[i].href == FirstTitledLink(anchors).value
        && forall j :: 0 <= j < i ==> !TitledHttp(anchors[j])
    decreases |anchors|
  {
    if anchors != [] && !TitledHttp(anchors[0]) {
      var rest := anchors[1..];
      FirstTitledLinkIsFirst(rest);
      if exists i :: 0 <= i < |anchors| && TitledHttp(anchors[i]) {
        var i :| 0 <= i < |anchors| && TitledHttp(anchors[i]);
        assert rest[i - 1] == anchors[i];
      }
      if FirstTitledLink(rest).Some? {
        var k :| 0 <= k < |rest| && TitledHttp(rest[k]) && rest[k].href == FirstTitledLink(rest).value
          && forall j :: 0 <= j < k ==> !TitledHttp(rest[j]);
        assert anchors[k + 1] == rest[k];
        forall j | 0 <= j < k + 1
          ensures !TitledHttp(anchors[j])
        {
          if j > 0 { assert anchors[j] == rest[j - 1]; }
        }
      }
    }
  }

  /** The fallback search's link is the href of the first anchor with an http href. */
  lemma {:induction false} FirstHttpLinkIsFirst(anchors: seq<Anchor>)
    ensures FirstHttpLink(anchors).Some? ==>
      exists i :: 0 <= i < |anchors| && anchors[i].href == FirstHttpLink(anchors).value
        && StartsWith(anchors[i].href, "http")
        && forall j :: 0 <= j < i ==> !StartsWith(anchors[j].href, "http")
    decreases |anchors|
  {
    if anchors != [] && !StartsWith(anchors[0].href, "http") {
      var rest := anchors[1..];
      FirstHttpLinkIsFirst(rest);
      if FirstHttpLink(rest).Some? {
        var k :| 0 <= k < |rest| && rest[k].href == FirstHttpLink(rest).value
          && StartsWith(rest[k].href, "http")
          && forall j :: 0 <= j < k ==> !StartsWith(rest[j].href, "http");
        assert anchors[k + 1] == rest[k];
        forall j | 0 <= j < k + 1
          ensures !StartsWith(anchors[j].href, "http")
        {
          if j > 0 { assert anchors[j] == rest[j - 1]; }
        }
      }
    }
  }

  /** The result link of a container: a titled http link if there is one, else any http link. */
  function LinkOf(anchors: seq<Anchor>): (link: Option<string>)
    ensures link.Some? ==> StartsWith(link.value, "http")
  {
    match FirstTitledLink(anchors)
    case Some(u) => Some(u)
    case None => FirstHttpLink(anchors)
  }

  /** A container yields a link exactly when one of its anchors has an http href; the link
      is one of those hrefs, and a titled one whenever a titled one exists. */
  lemma LinkOfCases(anchors: seq<Anchor>)
    ensures LinkOf(anchors).None? <==> forall i :: 0 <= i < |anchors| ==> !StartsWith(anchors[i].href, "http")
    ensures LinkOf(anchors).Some? ==> exists i :: 0 <= i < |anchors| && anchors[i].href == LinkOf(anchors).value
    ensures (exists i :: 0 <= i < |anchors| && StartsWith(anchors[i].href, "http") && anchors[i].h3.Some?) ==>
      exists i :: 0 <= i < |anchors| && anchors[i].href == LinkOf(anchors).value && anchors[i].h3.Some?
    ensures (exists i :: 0 <= i < |anchors| && TitledHttp(anchors[i])) ==>
      exists i :: 0 <= i < |anchors| && TitledHttp(anchors[i]) && anchors[i].href == LinkOf(anchors).value
        && forall j :: 0 <= j < i ==> !TitledHttp(anchors[j])
    ensures (forall i :: 0 <= i < |anchors| ==> !TitledHttp(anchors[i])) && LinkOf(anchors).Some? ==>
      exists i :: 0 <= i < |anchors| && StartsWith(anchors[i].href, "http") && anchors[i].href == LinkOf(anchors).value
        && forall j :: 0 <= j < i ==> !StartsWith(anchors[j].href, "http")
  {
    TitledLinkFound(anchors);
    FirstTitledLinkIsFirst(anchors);
    FirstHttpLinkIsFirst(anchors);
  }

  /** When some anchor is titled and has an http href, the titled search finds one. */
  lemma {:induction false} TitledLinkFound(anchors: seq<Anchor>)
    ensures (exists i :: 0 <= i < |anchors| && StartsWith(anchors[i].href, "http") && anchors[i].h3.Some?) ==>
      FirstTitledLink(anchors).Some?
    decreases |anchors|
  {
    if anchors != [] && !(StartsWith(anchors[0].href, "http") && anchors[0].h3.Some?) {
      TitledLinkFound(anchors[1..]);
      if exists i :: 0 <= i < |anchors| && StartsWith(anchors[i].href, "http") && anchors[i].h3.Some? {
        var i :| 0 <= i < |anchors| && StartsWith(anchors[i].href, "http") && anchors[i].h3.Some?;
        assert anchors[1..][i - 1] == anchors[i];
      }
    }
  }

  /** What the primary strategy reads from one container, or None when it has no http link. */
  function PrimaryEntry(c: Container): Option<Entry> {
    match LinkOf(c.anchors)
    case None => None
    case Some(u) => Some(Entry(u, c.title, c.snippet))
  }

  /** What the fallback strategy reads from one anchor of the page: only anchors with an
      http href (the selector) and an `h3` inside (the check); the snippet is always empty. */
  function FallbackEntry(a: Anchor): (e: Option<Entry>)
    ensures e.Some? ==> e.value.snippet == "" && StartsWith(e.value.url, "http")
  {
    if StartsWith(a.href, "http") && a.h3.Some? then Some(Entry(a.href, a.h3.value, "")) else None
  }

  function PrimaryEntries(cs: seq<Container>): (es: seq<Option<Entry>>)
    ensures |es| == |cs|
  {
    seq(|cs|, i requires 0 <= i < |cs| => PrimaryEntry(cs[i]))
  }

  function FallbackEntries(anchors: seq<Anchor>): (es: seq<Option<Entry>>)
    ensures |es| == |anchors|
    ensures forall i :: 0 <= i < |es| && es[i].Some? ==> es[i].value.snippet == ""
  {
    seq(|anchors|, i requires 0 <= i < |anchors| => FallbackEntry(anchors[i]))
  }

  // ---------------------------------------------------------------- filtering

  /** The URLs already accepted. */
  function UrlSet(hits: seq<SearchHit>): set<string>
    decreases |hits|
  {
    if hits == [] then {}
    else UrlSet(hits[..|hits| - 1]) + {hits[|hits| - 1].url}
  }

  /** The set holds exactly the URLs of the hits. */
  lemma {:induction false} UrlSetMembers(hits: seq<SearchHit>)
    ensures forall u :: u in UrlSet(hits) <==> exists i :: 0 <= i < |hits| && hits[i].url == u
    decreases |hits|
  {
    if hits != [] {
      var p := hits[..|hits| - 1];
      UrlSetMembers(p);
      forall u | u in UrlSet(hits) ensures exists i :: 0 <= i < |hits| && hits[i].url == u {
        if u in UrlSet(p) {
          var i :| 0 <= i < |p| && p[i].url == u;
          assert hits[i] == p[i];
        } else {
          assert hits[|hits| - 1].url == u;
        }
      }
      forall u | exists i :: 0 <= i < |hits| && hits[i].url == u ensures u in UrlSet(hits) {
        var i :| 0 <= i < |hits| && hits[i].url == u;
        if i < |p| {
          assert p[i] == hits[i];
        }
      }
    }
  }

  /** The checks a link passes before it becomes a hit: an http URL that is not Google's own,
      not on the social-media blocklist, and not seen before in this parse. */
  predicate Admissible(url: string, seen: set<string>) {
    url != "" && StartsWith(url, "http")
    && !Contains(url, "google.com") && !Contains(url, "google.co")
    && !IsBlockedUrl(url)
    && url !in seen
  }

  function HitOf(e: Entry): SearchHit {
    SearchHit(e.url, e.title, e.snippet, RankUrl(e.url))
  }

  /** What every returned hit satisfies on its own. */
  predicate Clean(h: SearchHit) {
    StartsWith(h.url, "http") && !Contains(h.url, "google.com") && !Contains(h.url, "google.co")
    && !IsBlockedUrl(h.url) && h.rank == RankUrl(h.url)
  }

  predicate DistinctUrls(hits: seq<SearchHit>) {
    forall i, j :: 0 <= i < j < |hits| ==> hits[i].url != hits[j].url
  }

  /** Every accepted hit, in encounter order, before any cap. */
  function Accepted(es: seq<Option<Entry>>): (hits: seq<SearchHit>)
    ensures |hits| <= |es|
    decreases |es|
  {
    if es == [] then []
    else
      var prev := Accepted(es[..|es| - 1]);
      var e := es[|es| - 1];
      if e.Some? && Admissible(e.value.url, UrlSet(prev)) then prev + [HitOf(e.value)] else prev
  }

  /** Every accepted hit passes the checks on its own. */
  lemma {:induction false} AcceptedClean(es: seq<Option<Entry>>)
    ensures forall i :: 0 <= i < |Accepted(es)| ==> Clean(Accepted(es)[i])
    decreases |es|
  {
    if es != [] {
      var p := es[..|es| - 1];
      AcceptedClean(p);
      var prev := Accepted(p);
      var e := es[|es| - 1];
      if e.Some? && Admissible(e.value.url, UrlSet(prev)) {
        var h := HitOf(e.value);
        assert Clean(h);
        var r := prev + [h];
        assert r == Accepted(es);
        assert forall i :: 0 <= i < |prev| ==> r[i] == prev[i];
        assert r[|prev|] == h;
      }
    }
  }

  /** No URL is accepted twice. */
  lemma {:induction false} AcceptedDistinct(es: seq<Option<Entry>>)
    ensures DistinctUrls(Accepted(es))
    decreases |es|
  {
    if es != [] {
      var p := es[..|es| - 1];
      AcceptedDistinct(p);
      var prev := Accepted(p);
      var e := es[|es| - 1];
      if e.Some? && e.value.url !in UrlSet(prev) {
        UrlSetMembers(prev);
        forall i | 0 <= i < |prev| ensures prev[i].url != e.value.url {
          assert prev[i].url in UrlSet(prev);
        }
      }
    }
  }

  /** Entries that carry no snippet give hits that carry none. */
  lemma {:induction false} AcceptedSnippets(es: seq<Option<Entry>>)
    requires forall i :: 0 <= i < |es| && es[i].Some? ==> es[i].value.snippet == ""
    ensures forall i :: 0 <= i < |Accepted(es)| ==> Accepted(es)[i].snippet == ""
    decreases |es|
  {
    if es != [] {
      AcceptedSnippets(es[..|es| - 1]);
    }
  }

  /** The accepted hits of a prefix are a prefix of the accepted hits of the whole. */
  lemma {:induction false} AcceptedPrefix(es: seq<Option<Entry>>, i: nat)
    requires i <= |es|
    ensures |Accepted(es[..i])| <= |Accepted(es)|
    ensures Accepted(es[..i]) == Accepted(es)[..|Accepted(es[..i])|]
    decreases |es|
  {
    if i < |es| {
      var p := es[..|es| - 1];
      assert p[..i] == es[..i];
      AcceptedPrefix(p, i);
    } else {
      assert es[..i] == es;
    }
  }

  /** `list[:n]` on hits. */
  function Cap(hits: seq<SearchHit>, n: nat): (r: seq<SearchHit>)
    ensures |r| <= n && |r| <= |hits|
    ensures r == hits[..|r|]
    ensures |r| < n ==> r == hits
  {
    if |hits| <= n then hits else hits[..n]
  }

  /** Once the cap is reached on a prefix, the rest of the candidates change nothing. */
  lemma CapReached(es: seq<Option<Entry>>, i: nat, n: nat)
    requires i <= |es| && |Accepted(es[..i])| >= n
    ensures Cap(Accepted(es[..i]), n) == Cap(Accepted(es), n)
  {
    AcceptedPrefix(es, i);
  }

  /** One more candidate, while the cap is not yet reached: it is kept exactly when it is
      admissible against the URLs kept so far. */
  lemma CapStep(es: seq<Option<Entry>>, i: nat, n: nat, hits: seq<SearchHit>)
    requires i < |es| && hits == Cap(Accepted(es[..i]), n) && |hits| < n
    ensures Cap(Accepted(es[..i + 1]), n) ==
      if es[i].Some? && Admissible(es[i].value.url, UrlSet(hits))
      then hits + [HitOf(es[i].value)]
      else hits
  {
    PrefixSnoc(es, i);
  }

  /** The prefix of length `i + 1` is the prefix of length `i` and then element `i`. */
  lemma PrefixSnoc<T>(s: seq<T>, i: nat)
    requires i < |s|
    ensures s[..i + 1][..i] == s[..i] && s[..i + 1][i] == s[i]
  {
  }

  /** The first `n` accepted primary hits, or when there are none, the first `n` accepted
      fallback hits: what is collected before the sort. */
  function Collected(page: ResultsPage, n: nat): seq<SearchHit> {
    var primary := Cap(Accepted(PrimaryEntries(page.containers)), n);
    if primary != [] then primary else Cap(Accepted(FallbackEntries(page.anchors)), n)
  }

  // ---------------------------------------------------------------- stable sort by rank

  /** The hits of rank `k`, in their order. */
  function RankFilter(hits: seq<SearchHit>, k: int): (r: seq<SearchHit>)
    ensures |r| <= |hits|
    ensures forall i :: 0 <= i < |r| ==> r[i] in hits && r[i].rank == k
    decreases |hits|
  {
    if hits == [] then []
    else
      var prev := RankFilter(hits[..|hits| - 1], k);
      var last := hits[|hits| - 1];
      assert forall x :: x in hits[..|hits| - 1] ==> x in hits;
      if last.rank == k then prev + [last] else prev
  }

  /** The hits of rank `k`, then of rank `k + 1`, ... up to rank 5. */
  function Buckets(hits: seq<SearchHit>, k: nat): (r: seq<SearchHit>)
    ensures forall i :: 0 <= i < |r| ==> r[i] in hits && k <= r[i].rank <= 5
    decreases 6 - k
  {
    if k > 5 then [] else RankFilter(hits, k) + Buckets(hits, k + 1)
  }

  /** `hits.sort(key=lambda h: h.rank)`: Python's sort is stable, so on ranks 0..5 it puts
      the rank-0 hits first in their original order, then the rank-1 hits, and so on. */
  function SortByRank(hits: seq<SearchHit>): (r: seq<SearchHit>)
    ensures forall i :: 0 <= i < |r| ==> r[i] in hits
  {
    Buckets(hits, 0)
  }

  predicate SortedByRank(hits: seq<SearchHit>) {
    forall i, j :: 0 <= i < j < |hits| ==> hits[i].rank <= hits[j].rank
  }

  /** The hits whose rank lies in `k..5`. */
  function RankFrom(hits: seq<SearchHit>, k: int): (r: seq<SearchHit>)
    decreases |hits|
  {
    if hits == [] then []
    else
      var prev := RankFrom(hits[..|hits| - 1], k);
      var last := hits[|hits| - 1];
      if k <= last.rank <= 5 then prev + [last] else prev
  }

  lemma {:induction false} RankFromSplit(hits: seq<SearchHit>, k: int)
    requires k <= 5
    ensures multiset(RankFrom(hits, k)) == multiset(RankFilter(hits, k)) + multiset(RankFrom(hits, k + 1))
    decreases |hits|
  {
    if hits != [] {
      RankFromSplit(hits[..|hits| - 1], k);
    }
  }

  lemma {:induction false} RankFromAll(hits: seq<SearchHit>)
    requires forall i :: 0 <= i < |hits| ==> 0 <= hits[i].rank <= 5
    ensures RankFrom(hits, 0) == hits
    decreases |hits|
  {
    if hits != [] {
      RankFromAll(hits[..|hits| - 1]);
      assert hits[..|hits| - 1] + [hits[|hits| - 1]] == hits;
    }
  }

  lemma {:induction false} RankFromNone(hits: seq<SearchHit>)
    ensures RankFrom(hits, 6) == []
    decreases |hits|
  {
    if hits != [] {
      RankFromNone(hits[..|hits| - 1]);
    }
  }

  lemma {:induction false} BucketsPermute(hits: seq<SearchHit>, k: nat)
    requires k <= 6
    ensures multiset(Buckets(hits, k)) == multiset(RankFrom(hits, k))
    decreases 6 - k
  {
    if k <= 5 {
      BucketsPermute(hits, k + 1);
      RankFromSplit(hits, k);
    } else {
      RankFromNone(hits);
    }
  }

  lemma {:induction false} BucketsSorted(hits: seq<SearchHit>, k: nat)
    ensures SortedByRank(Buckets(hits, k))
    decreases 6 - k
  {
    if k <= 5 {
      BucketsSorted(hits, k + 1);
      var a := RankFilter(hits, k);
      var b := Buckets(hits, k + 1);
      assert forall i :: 0 <= i < |a| ==> a[i].rank == k;
      assert forall i :: 0 <= i < |b| ==> k + 1 <= b[i].rank;
      var r := a + b;
      forall i, j | 0 <= i < j < |r| ensures r[i].rank <= r[j].rank {
        if j < |a| {
        } else if i < |a| {
          assert r[j] == b[j - |a|];
        } else {
          assert r[i] == b[i - |a|] && r[j] == b[j - |a|];
        }
      }
    }
  }

  lemma {:induction false} RankFilterConcat(a: seq<SearchHit>, b: seq<SearchHit>, k: int)
    ensures RankFilter(a + b, k) == RankFilter(a, k) + RankFilter(b, k)
    decreases |b|
  {
    if b == [] {
      assert a + b == a;
    } else {
      var b' := b[..|b| - 1];
      assert (a + b)[..|a + b| - 1] == a + b';
      RankFilterConcat(a, b', k);
    }
  }

  lemma {:induction false} RankFilterOfFilter(hits: seq<SearchHit>, j: int, k: int)
    ensures RankFilter(RankFilter(hits, j), k) == if j == k then RankFilter(hits, k) else []
    decreases |hits|
  {
    if hits != [] {
      var p := hits[..|hits| - 1];
      RankFilterOfFilter(p, j, k);
      var last := hits[|hits| - 1];
      if last.rank == j {
        RankFilterConcat(RankFilter(p, j), [last], k);
        assert [last][..0] == [];
      }
    }
  }

  lemma {:induction false} BucketsStable(hits: seq<SearchHit>, k: nat, m: int)
    requires k <= m <= 5
    ensures RankFilter(Buckets(hits, k), m) == RankFilter(hits, m)
    decreases 6 - k
  {
    RankFilterConcat(RankFilter(hits, k), Buckets(hits, k + 1), m);
    RankFilterOfFilter(hits, k, m);
    if k < m {
      BucketsStable(hits, k + 1, m);
    } else {
      BucketsBelow(hits, k + 1, m);
    }
  }

  lemma BucketsBelow(hits: seq<SearchHit>, k: nat, m: int)
    requires m < k
    ensures RankFilter(Buckets(hits, k), m) == []
  {
    RankFilterNone(Buckets(hits, k), m);
  }

  lemma {:induction false} RankFilterNone(hits: seq<SearchHit>, m: int)
    requires forall i :: 0 <= i < |hits| ==> hits[i].rank != m
    ensures RankFilter(hits, m) == []
    decreases |hits|
  {
    if hits != [] {
      RankFilterNone(hits[..|hits| - 1], m);
    }
  }

  lemma {:induction false} RankFilterDistinct(hits: seq<SearchHit>, k: int)
    requires DistinctUrls(hits)
    ensures DistinctUrls(RankFilter(hits, k))
    decreases |hits|
  {
    if hits != [] {
      var p := hits[..|hits| - 1];
      RankFilterDistinct(p, k);
      var last := hits[|hits| - 1];
      var prev := RankFilter(p, k);
      forall i | 0 <= i < |prev| ensures prev[i].url != last.url {
        var x := prev[i];
        assert x in p;
        var j :| 0 <= j < |p| && p[j] == x;
        assert hits[j] == x;
      }
    }
  }

  /** Hits with the same URL have the same rank. */
  predicate RankFollowsUrl(hits: seq<SearchHit>) {
    forall x, y :: x in hits && y in hits && x.url == y.url ==> x.rank == y.rank
  }

  lemma {:induction false} BucketsDistinct(hits: seq<SearchHit>, k: nat)
    requires DistinctUrls(hits) && RankFollowsUrl(hits)
    ensures DistinctUrls(Buckets(hits, k))
    decreases 6 - k
  {
    if k <= 5 {
      BucketsDistinct(hits, k + 1);
      RankFilterDistinct(hits, k);
      var a := RankFilter(hits, k);
      var b := Buckets(hits, k + 1);
      var r := a + b;
      forall i, j | 0 <= i < j < |r| ensures r[i].url != r[j].url {
        if j < |a| {
        } else if i < |a| {
          assert r[j] == b[j - |a|];
          assert r[i] in hits && r[j] in hits;
        } else {
          assert r[i] == b[i - |a|] && r[j] == b[j - |a|];
        }
      }
    }
  }

  /** The sort is a stable sort by rank: the output is ordered by rank, holds the same hits,
      keeps the hits of each rank in their original order, and keeps URLs pairwise distinct. */
  lemma SortByRankIsStableSort(hits: seq<SearchHit>)
    requires forall i :: 0 <= i < |hits| ==> 0 <= hits[i].rank <= 5
    ensures SortedByRank(SortByRank(hits))
    ensures multiset(SortByRank(hits)) == multiset(hits)
    ensures forall k :: 0 <= k <= 5 ==> RankFilter(SortByRank(hits), k) == RankFilter(hits, k)
    ensures DistinctUrls(hits) && RankFollowsUrl(hits)
      ==> DistinctUrls(SortByRank(hits))
  {
    BucketsSorted(hits, 0);
    BucketsPermute(hits, 0);
    RankFromAll(hits);
    forall k | 0 <= k <= 5 ensures RankFilter(SortByRank(hits), k) == RankFilter(hits, k) {
      BucketsStable(hits, 0, k);
    }
    if DistinctUrls(hits) && RankFollowsUrl(hits) {
      BucketsDistinct(hits, 0);
    }
  }

  // ---------------------------------------------------------------- the parse

  /** `_parse_google_results` as a value: the collected hits, sorted by rank. */
  function ParsedHits(page: ResultsPage, n: nat): seq<SearchHit> {
    SortByRank(Collected(page, n))
  }

  /** A URL containing "google.com" also contains "google.co". */
  lemma GoogleComIsGoogleCo(url: string)
    requires Contains(url, "google.com")
    ensures Contains(url, "google.co")
  {
    ContainsPrefix(url, "google.com", 9);
    assert "google.com"[..9] == "google.co";
  }

  /** Cutting a list short keeps what holds of each of its hits and of each pair. */
  lemma CapKeeps(hits: seq<SearchHit>, n: nat)
    requires forall i :: 0 <= i < |hits| ==> Clean(hits[i])
    requires DistinctUrls(hits)
    ensures forall i :: 0 <= i < |Cap(hits, n)| ==> Clean(Cap(hits, n)[i])
    ensures DistinctUrls(Cap(hits, n))
  {
  }

  /** The collected hits pass the checks, are at most `n`, have distinct URLs, come from the
      primary strategy whenever it accepted anything, and carry no snippet otherwise. */
  lemma CollectedProperties(page: ResultsPage, n: nat)
    ensures |Collected(page, n)| <= n
    ensures forall i :: 0 <= i < |Collected(page, n)| ==> Clean(Collected(page, n)[i])
    ensures DistinctUrls(Collected(page, n))
    ensures Accepted(PrimaryEntries(page.containers)) != [] && n > 0 ==>
      Collected(page, n) == Cap(Accepted(PrimaryEntries(page.containers)), n)
    ensures Accepted(PrimaryEntries(page.containers)) == [] ==>
      forall i :: 0 <= i < |Collected(page, n)| ==> Collected(page, n)[i].snippet == ""
  {
    var primary := Accepted(PrimaryEntries(page.containers));
    var fallback := Accepted(FallbackEntries(page.anchors));
    AcceptedClean(PrimaryEntries(page.containers));
    AcceptedClean(FallbackEntries(page.anchors));
    AcceptedDistinct(PrimaryEntries(page.containers));
    AcceptedDistinct(FallbackEntries(page.anchors));
    AcceptedSnippets(FallbackEntries(page.anchors));
    CapKeeps(primary, n);
    CapKeeps(fallback, n);
  }

  /** What the parse promises: at most `n` hits, each an http URL that is neither Google's
      own nor blocked, ranked by `RankUrl`; URLs pairwise distinct; ordered by rank with
      ties in encounter order; exactly the collected hits, rearranged. */
  lemma ParsedHitsProperties(page: ResultsPage, n: nat)
    ensures |ParsedHits(page, n)| <= n
    ensures forall i :: 0 <= i < |ParsedHits(page, n)| ==> Clean(ParsedHits(page, n)[i])
    ensures DistinctUrls(ParsedHits(page, n))
    ensures SortedByRank(ParsedHits(page, n))
    ensures multiset(ParsedHits(page, n)) == multiset(Collected(page, n))
    ensures forall k :: 0 <= k <= 5 ==> RankFilter(ParsedHits(page, n), k) == RankFilter(Collected(page, n), k)
  {
    var c := Collected(page, n);
    CollectedProperties(page, n);
    CleanRankFollowsUrl(c);
    SortByRankIsStableSort(c);
    SortKeepsClean(c);
    assert |multiset(ParsedHits(page, n))| == |multiset(c)|;
  }

  /** Clean hits are ranked by their URL alone. */
  lemma CleanRankFollowsUrl(hits: seq<SearchHit>)
    requires forall i :: 0 <= i < |hits| ==> Clean(hits[i])
    ensures RankFollowsUrl(hits)
  {
    forall x, y | x in hits && y in hits && x.url == y.url ensures x.rank == y.rank {
      var i :| 0 <= i < |hits| && hits[i] == x;
      var j :| 0 <= j < |hits| && hits[j] == y;
    }
  }

  /** Every hit of the sorted list is a hit of the input, so it passes the same checks. */
  lemma SortKeepsClean(hits: seq<SearchHit>)
    requires forall i :: 0 <= i < |hits| ==> Clean(hits[i])
    ensures forall i :: 0 <= i < |SortByRank(hits)| ==> Clean(SortByRank(hits)[i])
  {
    var r := SortByRank(hits);
    forall i | 0 <= i < |r| ensures Clean(r[i]) {
      var j :| 0 <= j < |hits| && hits[j] == r[i];
    }
  }

  /** The first loop of `_parse_google_results`: one candidate per result container,
      stopping once `maxResults` hits are kept. */
  method CollectPrimary(containers: seq<Container>, maxResults: nat) returns (hits: seq<SearchHit>, seen: set<string>)
    ensures hits == Cap(Accepted(PrimaryEntries(containers)), maxResults)
    ensures seen == UrlSet(hits)
  {
    hits := [];
    seen := {};
    ghost var es := PrimaryEntries(containers);
    for i := 0 to |containers|
      invariant hits == Cap(Accepted(es[..i]), maxResults)
      invariant seen == UrlSet(hits)
    {
      if |hits| >= maxResults {
        CapReached(es, i, maxResults);
        break;
      }
      CapStep(es, i, maxResults, hits);
      var c := containers[i];
      var link := LinkOf(c.anchors);
      if link.None? {
        continue;
      }
      // The guard of line 148 is not a branch here: both selections only yield http hrefs.
      var url := link.value;
      if Contains(url, "google.com") || Contains(url, "google.co") {
        continue;
      }
      if IsBlockedUrl(url) {
        continue;
      }
      if url in seen {
        continue;
      }
      seen := seen + {url};
      hits := hits + [SearchHit(url, c.title, c.snippet, RankUrl(url))];
    }
    assert es[..|es|] == es;
  }

  /** The fallback loop: every http anchor of the page that holds an `h3`, with the URLs
      already seen excluded, stopping once `maxResults` hits are kept. */
  method CollectFallback(anchors: seq<Anchor>, maxResults: nat) returns (hits: seq<SearchHit>)
    ensures hits == Cap(Accepted(FallbackEntries(anchors)), maxResults)
  {
    hits := [];
    var seen: set<string> := {};
    ghost var fs := FallbackEntries(anchors);
    for i := 0 to |anchors|
      invariant hits == Cap(Accepted(fs[..i]), maxResults)
      invariant seen == UrlSet(hits)
    {
      if |hits| >= maxResults {
        CapReached(fs, i, maxResults);
        break;
      }
      CapStep(fs, i, maxResults, hits);
      var a := anchors[i];
      if !StartsWith(a.href, "http") {
        // not selected by `a[href^='http']`
        continue;
      }
      if a.h3.None? {
        continue;
      }
      var url := a.href;
      if Contains(url, "google.com") || Contains(url, "google.co") {
        continue;
      }
      if IsBlockedUrl(url) || url in seen {
        continue;
      }
      seen := seen + {url};
      hits := hits + [SearchHit(url, a.h3.value, "", RankUrl(url))];
    }
    assert fs[..|fs|] == fs;
  }

  /** `_parse_google_results`: the primary strategy over the containers; the fallback over
      the page's anchors only if that kept nothing (so the shared `seen` set is still
      empty); then the sort by rank. */
  method ParseGoogleResults(page: ResultsPage, maxResults: int) returns (hits: seq<SearchHit>)
    requires 1 <= maxResults <= 20
    ensures hits == ParsedHits(page, maxResults)
    ensures |hits| <= maxResults
    ensures SortedByRank(hits) && DistinctUrls(hits)
    ensures forall i :: 0 <= i < |hits| ==> Clean(hits[i])
  {
    var seen;
    hits, seen := CollectPrimary(page.containers, maxResults);
    if hits == [] {
      hits := CollectFallback(page.anchors, maxResults);
    }
    hits := SortByRank(hits);
    ParsedHitsProperties(page, maxResults);
  }

  // ---------------------------------------------------------------- page scrape

  /** `_do_scrape_page` after the browser: a loaded page gives its text cut to 8000
      characters and its title ("" when absent); any failure gives the same URL, no text,
      no title and `success` false. */
  function ScrapeResult(url: string, outcome: FetchOutcome): (p: PageContent)
    ensures p.url == url
    ensures |p.text| <= MaxPageText
    ensures p.success <==> outcome.Fetched?
    ensures outcome.Fetched? ==>
      StartsWith(outcome.text, p.text) && (|outcome.text| <= MaxPageText ==> p.text == outcome.text)
    ensures !p.success ==> p.text == "" && p.title == ""
    ensures outcome.Fetched? ==> p.text == Take(outcome.text, MaxPageText)
    ensures outcome.Fetched? ==> p.title == match outcome.title case Some(s) => s case None => ""
  {
    match outcome
    case FetchFailed => PageContent(url, "", "", false)
    case Fetched(text, title) =>
      var t := if |text| > MaxPageText then text[..MaxPageText] else text;
      PageContent(url, t, match title case Some(s) => s case None => "", true)
  }
}
