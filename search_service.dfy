/** Search query construction and URL classification
    (src/hcp_crawler/services/search_service.py). */
module SearchService {
  import opened Strings
  import opened Schemas

  /** The role keywords every base query ends with. */
  const KeywordPhrase: string := "doctor healthcare provider"

  /** Site groups searched in order, one site-restricted query per non-empty group. */
  const PrioritySites: seq<seq<string>> := [["doximity.com", "npiprofile.com"], [".gov", ".edu"]]

  /** Social-media domains excluded from results (a set in the source; only membership matters). */
  const SocialMediaBlocklist: seq<string> := [
    "facebook.com", "twitter.com", "x.com", "instagram.com", "linkedin.com", "tiktok.com",
    "reddit.com", "pinterest.com", "snapchat.com", "threads.net", "tumblr.com", "youtube.com"]

  /** The keyword groups of `rank_url`, in the order they are tried; rank k is group k, 5 is none. */
  const RankRules: seq<seq<string>> := [
    ["doximity.com", "npiprofile.com"], [".gov"], [".edu"], [".org"],
    ["hospital", "health", "medical", "clinic"]]

  /** The parts that are non-empty, in their order. */
  function NonEmpty(parts: seq<string>): (r: seq<string>)
    ensures |r| <= |parts|
    ensures forall x :: x in r <==> x in parts && x != ""
    decreases |parts|
  {
    if parts == [] then []
    else if parts[0] == "" then NonEmpty(parts[1..])
    else [parts[0]] + NonEmpty(parts[1..])
  }

  /** Filtering distributes over concatenation, so it keeps the parts' order and each
      non-empty part once per occurrence. */
  lemma {:induction false} NonEmptyConcat(a: seq<string>, b: seq<string>)
    ensures NonEmpty(a + b) == NonEmpty(a) + NonEmpty(b)
    decreases |a|
  {
    if a == [] {
      assert a + b == b;
    } else {
      assert (a + b)[1..] == a[1..] + b;
      NonEmptyConcat(a[1..], b);
    }
  }

  /** One part is kept exactly when it is non-empty. */
  lemma NonEmptyOne(x: string)
    ensures NonEmpty([x]) == if x == "" then [] else [x]
  {
    assert [x][1..] == [];
  }

  /** First, middle and last name, city and state code: the identity part of a base query. */
  function IdentityParts(hcp: HCPInput): seq<string> {
    NonEmpty([hcp.firstName, hcp.middleName, hcp.lastName, hcp.city, hcp.stateCode])
  }

  /** The identity parts are the five fields in the order first, middle, last, city, state
      code, each present exactly when it is non-empty. */
  lemma IdentityPartsInOrder(hcp: HCPInput)
    ensures IdentityParts(hcp) ==
      (if hcp.firstName == "" then [] else [hcp.firstName])
      + (if hcp.middleName == "" then [] else [hcp.middleName])
      + (if hcp.lastName == "" then [] else [hcp.lastName])
      + (if hcp.city == "" then [] else [hcp.city])
      + (if hcp.stateCode == "" then [] else [hcp.stateCode])
  {
    var f, m, l, c, t := [hcp.firstName], [hcp.middleName], [hcp.lastName], [hcp.city], [hcp.stateCode];
    assert [hcp.firstName, hcp.middleName, hcp.lastName, hcp.city, hcp.stateCode] == f + m + l + c + t;
    NonEmptyConcat(f + m + l + c, t);
    NonEmptyConcat(f + m + l, c);
    NonEmptyConcat(f + m, l);
    NonEmptyConcat(f, m);
    NonEmptyOne(hcp.firstName);
    NonEmptyOne(hcp.middleName);
    NonEmptyOne(hcp.lastName);
    NonEmptyOne(hcp.city);
    NonEmptyOne(hcp.stateCode);
  }

  /** `build_base_query` */
  function BuildBaseQuery(hcp: HCPInput): (q: string)
    ensures EndsWith(q, KeywordPhrase)
  {
    JoinLast(IdentityParts(hcp) + [KeywordPhrase], " ");
    Join(IdentityParts(hcp) + [KeywordPhrase], " ")
  }

  /** The base query is the non-empty identity fields joined by single spaces, then one space
      and the keyword phrase; with every identity field empty it is the keyword phrase alone. */
  lemma BaseQueryShape(hcp: HCPInput)
    ensures IdentityParts(hcp) == [] ==> BuildBaseQuery(hcp) == KeywordPhrase
    ensures IdentityParts(hcp) != [] ==>
      BuildBaseQuery(hcp) == Join(IdentityParts(hcp), " ") + " " + KeywordPhrase
    ensures forall x :: x in IdentityParts(hcp) ==> x != ""
  {
    var parts := IdentityParts(hcp) + [KeywordPhrase];
    JoinLast(parts, " ");
    assert parts[..|parts| - 1] == IdentityParts(hcp);
  }

  /** `" OR ".join(f"site:{s}" for s in group)` */
  function SiteFilter(group: seq<string>): string {
    Join(seq(|group|, i requires 0 <= i < |group| => "site:" + group[i]), " OR ")
  }

  /** `f" ({site_filter})"`: what a site-restricted query appends to the base query. */
  function SiteClause(group: seq<string>): string {
    " (" + SiteFilter(group) + ")"
  }

  /** One site-restricted query per non-empty group, in group order. */
  function SiteQueries(base: string, groups: seq<seq<string>>): (qs: seq<string>)
    ensures |qs| <= |groups|
    decreases |groups|
  {
    if groups == [] then []
    else if groups[0] == [] then SiteQueries(base, groups[1..])
    else [base + SiteClause(groups[0])] + SiteQueries(base, groups[1..])
  }

  /** The filter of a two-site group. */
  lemma SiteFilterPair(a: string, b: string)
    ensures SiteFilter([a, b]) == "site:" + a + " OR " + "site:" + b
  {
    var g := seq(2, i requires 0 <= i < 2 => "site:" + [a, b][i]);
    assert g[..1] == ["site:" + a];
    assert Join(g, " OR ") == Join(g[..1], " OR ") + " OR " + g[1];
  }

  /** The clause of the directory group, written out. */
  lemma DirectoryClause()
    ensures SiteClause(PrioritySites[0]) == " (" + "site:doximity.com" + " OR " + "site:npiprofile.com" + ")"
  {
    SiteFilterPair("doximity.com", "npiprofile.com");
  }

  /** The clause of the government and academic group, written out. */
  lemma GovEduClause()
    ensures SiteClause(PrioritySites[1]) == " (" + "site:.gov" + " OR " + "site:.edu" + ")"
  {
    SiteFilterPair(".gov", ".edu");
  }

  /** Both priority groups are non-empty, so each gives one query, in order. */
  lemma PrioritySiteQueries(base: string)
    ensures SiteQueries(base, PrioritySites) ==
      [base + SiteClause(PrioritySites[0]), base + SiteClause(PrioritySites[1])]
  {
    var rest := PrioritySites[1..];
    assert rest[0] == PrioritySites[1] && rest[1..] == [];
  }

  /** `build_search_queries`: one query per site group (directories, then government and
      academic sites), each restricted to that group's sites, then the general query. */
  function BuildSearchQueries(hcp: HCPInput): (qs: seq<string>)
    ensures |qs| == 3
    ensures qs[0] == BuildBaseQuery(hcp) + SiteClause(PrioritySites[0])
    ensures qs[1] == BuildBaseQuery(hcp) + SiteClause(PrioritySites[1])
    ensures qs[2] == BuildBaseQuery(hcp) + " contact information"
  {
    var base := BuildBaseQuery(hcp);
    PrioritySiteQueries(base);
    SiteQueries(base, PrioritySites) + [base + " contact information"]
  }

  /** Every query starts with the base query and contains the keyword phrase. */
  lemma QueriesExtendBase(hcp: HCPInput)
    ensures forall i :: 0 <= i < 3 ==>
      StartsWith(BuildSearchQueries(hcp)[i], BuildBaseQuery(hcp))
      && Contains(BuildSearchQueries(hcp)[i], KeywordPhrase)
  {
    var base := BuildBaseQuery(hcp);
    var qs := BuildSearchQueries(hcp);
    var head := base[..|base| - |KeywordPhrase|];
    assert base == head + KeywordPhrase;
    var tails := [SiteClause(PrioritySites[0]), SiteClause(PrioritySites[1]), " contact information"];
    forall i | 0 <= i < 3
      ensures StartsWith(qs[i], base) && Contains(qs[i], KeywordPhrase)
    {
      assert qs[i] == base + tails[i];
      assert qs[i][..|base|] == base;
      assert qs[i] == head + KeywordPhrase + tails[i];
      ContainsInfix(head, KeywordPhrase, tails[i]);
    }
  }

  /** Whether some needle occurs in `s`. */
  function AnyContained(s: string, needles: seq<string>): (b: bool)
    ensures b <==> exists i :: 0 <= i < |needles| && Contains(s, needles[i])
    decreases |needles|
  {
    if needles == [] then false
    else Contains(s, needles[0]) || AnyContained(s, needles[1..])
  }

  /** `is_blocked_url`: some blocklist entry occurs in the lowercased URL. */
  predicate IsBlockedUrl(url: string) {
    exists i :: 0 <= i < |SocialMediaBlocklist| && Contains(Lower(url), SocialMediaBlocklist[i])
  }

  /** Index of the first rule with a keyword occurring in `s`, or `|rules|` when none does. */
  function FirstMatch(s: string, rules: seq<seq<string>>): (k: nat)
    ensures k <= |rules|
    ensures forall j :: 0 <= j < k ==> !AnyContained(s, rules[j])
    ensures k < |rules| ==> AnyContained(s, rules[k])
    decreases |rules|
  {
    if rules == [] then 0
    else if AnyContained(s, rules[0]) then 0
    else 1 + FirstMatch(s, rules[1..])
  }

  /** `rank_url`: the index of the first rule of the table that matches the lowercased URL,
      5 when none does. */
  function RankUrl(url: string): (r: int)
    ensures 0 <= r <= 5
  {
    FirstMatch(Lower(url), RankRules)
  }

  /** The rank, case by case as `rank_url` tests it: 0 = directory, 1 = .gov, 2 = .edu,
      3 = .org, 4 = health keyword, 5 = other. */
  lemma RankUrlCases(url: string)
    ensures var l := Lower(url);
      RankUrl(url) ==
        if Contains(l, "doximity.com") || Contains(l, "npiprofile.com") then 0
        else if Contains(l, ".gov") then 1
        else if Contains(l, ".edu") then 2
        else if Contains(l, ".org") then 3
        else if Contains(l, "hospital") || Contains(l, "health") || Contains(l, "medical") || Contains(l, "clinic") then 4
        else 5
  {
    var l := Lower(url);
    assert RankRules[1..][1..][1..][1..][1..] == [];
    assert AnyContained(l, RankRules[0]) == (Contains(l, "doximity.com") || Contains(l, "npiprofile.com"));
    assert AnyContained(l, RankRules[4]) ==
      (Contains(l, "hospital") || Contains(l, "health") || Contains(l, "medical") || Contains(l, "clinic"));
  }

  /** Both classifications look only at the lowercased URL. */
  lemma ClassificationIgnoresCase(url: string)
    ensures RankUrl(Lower(url)) == RankUrl(url)
    ensures IsBlockedUrl(Lower(url)) == IsBlockedUrl(url)
  {
    LowerIdempotent(url);
  }

  /** A string with no upper-case ASCII letter is its own lowercase. */
  lemma LowerOfLowercase(s: string)
    requires forall i :: 0 <= i < |s| ==> !('A' <= s[i] <= 'Z')
    ensures Lower(s) == s
  {
  }

  /** Lowercasing works character by character, so it distributes over concatenation. */
  lemma LowerConcat(a: string, b: string)
    ensures Lower(a + b) == Lower(a) + Lower(b)
  {
  }

  /** A lower-case needle placed anywhere in a URL is found by a lowercased search. */
  lemma LowerContainsInfix(a: string, needle: string, b: string)
    requires forall i :: 0 <= i < |needle| ==> !('A' <= needle[i] <= 'Z')
    ensures Contains(Lower(a + needle + b), needle)
  {
    LowerConcat(a + needle, b);
    LowerConcat(a, needle);
    LowerOfLowercase(needle);
    ContainsInfix(Lower(a), needle, Lower(b));
  }

  /** Matching is by substring, so the "x.com" entry also blocks every host ending in "x.com". */
  lemma BlocklistMatchesSubstrings()
    ensures IsBlockedUrl("https://www.goodr" + "x.com" + "/")
    ensures IsBlockedUrl("https://www." + "facebook.com" + "/dr.smith")
  {
    LowerContainsInfix("https://www.goodr", "x.com", "/");
    assert SocialMediaBlocklist[2] == "x.com";
    LowerContainsInfix("https://www.", "facebook.com", "/dr.smith");
    assert SocialMediaBlocklist[0] == "facebook.com";
  }

  /** A directory URL ranks first. */
  lemma DirectoryRanksFirst()
    ensures RankUrl("https://www." + "doximity.com" + "/pub/john-smith") == 0
  {
    LowerContainsInfix("https://www.", "doximity.com", "/pub/john-smith");
    RankUrlCases("https://www." + "doximity.com" + "/pub/john-smith");
  }
}
