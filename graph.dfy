/** The per-record state machine (src/hcp_crawler/services/agent/graph.py): a fixed topology
    over the agent's nodes, encoded as a transition function, and the run of one record
    through it, proved to end after at most three searches. */
module AgentGraph {
  import opened Schemas
  import opened SearchService
  import opened ScraperService
  import opened AgentNodes

  datatype Node = BuildQueriesNode | GoogleSearchNode | ScrapePagesNode | LlmExtractNode
                | LlmVerifyNode | PrepareRetryNode | End

  /** The entry point. */
  const Entry: Node := BuildQueriesNode

  /** The node run after `n`; only the edge out of `llm_verify` depends on the route
      `should_retry` chose. */
  function Next(n: Node, route: Route): (m: Node)
    requires n != End
    ensures m != BuildQueriesNode
    ensures n == BuildQueriesNode ==> m == GoogleSearchNode
    ensures n == GoogleSearchNode ==> m == ScrapePagesNode
    ensures n == ScrapePagesNode ==> m == LlmExtractNode
    ensures n == LlmExtractNode ==> m == LlmVerifyNode
    ensures n == LlmVerifyNode ==> (m == PrepareRetryNode <==> route.Retry?) && (m == End <==> route.Done?)
    ensures n == PrepareRetryNode ==> m == GoogleSearchNode
    ensures m == End ==> n == LlmVerifyNode
  {
    match n
    case BuildQueriesNode => GoogleSearchNode
    case GoogleSearchNode => ScrapePagesNode
    case ScrapePagesNode => LlmExtractNode
    case LlmExtractNode => LlmVerifyNode
    case LlmVerifyNode => if route == Retry then PrepareRetryNode else End
    case PrepareRetryNode => GoogleSearchNode
  }

  /** One attempt: search with the current query, scrape, extract, verify. */
  function Attempt(st: AgentState, actors: Actors, cfg: Settings): (r: AgentState)
    requires ValidSettings(cfg)
    ensures r.hcp == st.hcp && r.queries == st.queries
    ensures r.queryIdx == st.queryIdx && r.retryCount == st.retryCount
  {
    Verified(Extracted(Scraped(GoogleSearch(st, actors, cfg), actors), actors), actors, cfg)
  }

  /** Attempts until `should_retry` says done: the state the run ends in. */
  function Rounds(st: AgentState, actors: Actors, cfg: Settings): (r: AgentState)
    requires ValidSettings(cfg)
    ensures ShouldRetry(r) == Done
    ensures r.hcp == st.hcp && r.queries == st.queries
    decreases |st.queries| - st.queryIdx
  {
    var v := Attempt(st, actors, cfg);
    if ShouldRetry(v) == Retry then Rounds(PrepareRetry(v), actors, cfg) else v
  }

  /** How many searches the attempts from `st` make. */
  function Searches(st: AgentState, actors: Actors, cfg: Settings): nat
    requires ValidSettings(cfg)
    decreases |st.queries| - st.queryIdx
  {
    var v := Attempt(st, actors, cfg);
    if ShouldRetry(v) == Retry then 1 + Searches(PrepareRetry(v), actors, cfg) else 1
  }

  /** The state a record's run ends in. */
  function RunSpec(hcp: HCPInput, actors: Actors, cfg: Settings): AgentState
    requires ValidSettings(cfg)
  {
    Rounds(BuildQueries(Start(hcp)), actors, cfg)
  }

  /** Each further attempt uses the next query and counts one more retry, so the attempts
      from a state with a query left are at most the queries left, and the run ends with the
      query index and the retry count both one less than the number of searches. */
  lemma {:induction false} RoundsCount(st: AgentState, actors: Actors, cfg: Settings)
    requires ValidSettings(cfg)
    requires st.queryIdx < |st.queries|
    ensures 1 <= Searches(st, actors, cfg) <= |st.queries| - st.queryIdx
    ensures Rounds(st, actors, cfg).queryIdx == st.queryIdx + Searches(st, actors, cfg) - 1
    ensures Rounds(st, actors, cfg).retryCount == st.retryCount + Searches(st, actors, cfg) - 1
    decreases |st.queries| - st.queryIdx
  {
    var v := Attempt(st, actors, cfg);
    if ShouldRetry(v) == Retry {
      RoundsCount(PrepareRetry(v), actors, cfg);
    }
  }

  /** One attempt from a round's start: either the run ends with it, after one search, or
      the run continues from the prepared retry, which has a query left. */
  lemma RoundStep(round: AgentState, actors: Actors, cfg: Settings)
    requires ValidSettings(cfg)
    ensures var v := Attempt(round, actors, cfg);
      && (ShouldRetry(v) == Done ==> Rounds(round, actors, cfg) == v && Searches(round, actors, cfg) == 1)
      && (ShouldRetry(v) == Retry ==>
            && Rounds(PrepareRetry(v), actors, cfg) == Rounds(round, actors, cfg)
            && Searches(round, actors, cfg) == 1 + Searches(PrepareRetry(v), actors, cfg)
            && PrepareRetry(v).queries == round.queries
            && round.queryIdx < PrepareRetry(v).queryIdx < |round.queries|)
  {
  }

  /** A record makes between one and three searches, and the reported query index and retry
      count agree with the searches made. */
  lemma RunSearches(hcp: HCPInput, actors: Actors, cfg: Settings)
    requires ValidSettings(cfg)
    ensures 1 <= Searches(BuildQueries(Start(hcp)), actors, cfg) <= 3
    ensures RunSpec(hcp, actors, cfg).queryIdx == Searches(BuildQueries(Start(hcp)), actors, cfg) - 1
    ensures RunSpec(hcp, actors, cfg).retryCount == RunSpec(hcp, actors, cfg).queryIdx
  {
    RoundsCount(BuildQueries(Start(hcp)), actors, cfg);
  }

  /** A record's run ends FOUND or with the last of its three queries tried, and keeps its
      input. */
  lemma RunEnds(hcp: HCPInput, actors: Actors, cfg: Settings)
    requires ValidSettings(cfg)
    ensures RunSpec(hcp, actors, cfg).status == Found || RunSpec(hcp, actors, cfg).queryIdx == 2
    ensures RunSpec(hcp, actors, cfg).hcp == hcp
  {
    RunSearches(hcp, actors, cfg);
    var r := RunSpec(hcp, actors, cfg);
    assert ShouldRetry(r) == Done && |r.queries| == 3;
  }

  /** The start of the last attempt made from `st`. */
  function LastRound(st: AgentState, actors: Actors, cfg: Settings): AgentState
    requires ValidSettings(cfg)
    decreases |st.queries| - st.queryIdx
  {
    var v := Attempt(st, actors, cfg);
    if ShouldRetry(v) == Retry then LastRound(PrepareRetry(v), actors, cfg) else st
  }

  /** The run's outcome is the last attempt's alone: every attempt recomputes the best
      contact, score and status, so an earlier PARTIAL is overwritten by a later attempt's
      result. */
  lemma {:induction false} RoundsEndWithLastAttempt(st: AgentState, actors: Actors, cfg: Settings)
    requires ValidSettings(cfg)
    ensures Rounds(st, actors, cfg) == Attempt(LastRound(st, actors, cfg), actors, cfg)
    ensures LastRound(st, actors, cfg).queryIdx >= st.queryIdx
    decreases |st.queries| - st.queryIdx
  {
    var v := Attempt(st, actors, cfg);
    if ShouldRetry(v) == Retry {
      RoundsEndWithLastAttempt(PrepareRetry(v), actors, cfg);
    }
  }

  /** The states the attempts from `st` start in, in order. */
  function RoundStarts(st: AgentState, actors: Actors, cfg: Settings): seq<AgentState>
    requires ValidSettings(cfg)
    decreases |st.queries| - st.queryIdx
  {
    var v := Attempt(st, actors, cfg);
    if ShouldRetry(v) == Retry then [st] + RoundStarts(PrepareRetry(v), actors, cfg) else [st]
  }

  /** There is one round start per search, the first being the state the attempts start
      from. */
  lemma {:induction false} RoundStartsCount(st: AgentState, actors: Actors, cfg: Settings)
    requires ValidSettings(cfg)
    ensures |RoundStarts(st, actors, cfg)| == Searches(st, actors, cfg)
    ensures RoundStarts(st, actors, cfg)[0] == st
    decreases |st.queries| - st.queryIdx
  {
    var v := Attempt(st, actors, cfg);
    if ShouldRetry(v) == Retry {
      RoundStartsCount(PrepareRetry(v), actors, cfg);
    }
  }

  /** Each attempt but the last routes to retry, and the next starts from its prepared
      state. */
  lemma {:induction false} RoundStartsLinked(st: AgentState, actors: Actors, cfg: Settings)
    requires ValidSettings(cfg)
    ensures var s := RoundStarts(st, actors, cfg);
      forall m :: 0 <= m < |s| - 1 ==>
        ShouldRetry(Attempt(s[m], actors, cfg)) == Retry && s[m + 1] == PrepareRetry(Attempt(s[m], actors, cfg))
    decreases |st.queries| - st.queryIdx
  {
    var v := Attempt(st, actors, cfg);
    if ShouldRetry(v) == Retry {
      var next := PrepareRetry(v);
      RoundStartsLinked(next, actors, cfg);
      RoundStartsCount(next, actors, cfg);
      var rest := RoundStarts(next, actors, cfg);
      var s := [st] + rest;
      assert RoundStarts(st, actors, cfg) == s;
      forall m | 0 <= m < |s| - 1
        ensures ShouldRetry(Attempt(s[m], actors, cfg)) == Retry && s[m + 1] == PrepareRetry(Attempt(s[m], actors, cfg))
      {
        if m > 0 {
          assert s[m] == rest[m - 1] && s[m + 1] == rest[m];
        } else {
          assert s[1] == rest[0];
        }
      }
    }
  }

  /** The last round start is the last attempt's, which routes to done. */
  lemma {:induction false} RoundStartsLast(st: AgentState, actors: Actors, cfg: Settings)
    requires ValidSettings(cfg)
    ensures var s := RoundStarts(st, actors, cfg);
      s != [] && s[|s| - 1] == LastRound(st, actors, cfg)
    decreases |st.queries| - st.queryIdx
  {
    var v := Attempt(st, actors, cfg);
    if ShouldRetry(v) == Retry {
      RoundStartsLast(PrepareRetry(v), actors, cfg);
    }
  }

  /** The last attempt routes to done. */
  lemma {:induction false} LastRoundDone(st: AgentState, actors: Actors, cfg: Settings)
    requires ValidSettings(cfg)
    ensures ShouldRetry(Attempt(LastRound(st, actors, cfg), actors, cfg)) == Done
    decreases |st.queries| - st.queryIdx
  {
    var v := Attempt(st, actors, cfg);
    if ShouldRetry(v) == Retry {
      LastRoundDone(PrepareRetry(v), actors, cfg);
    }
  }

  /** The nodes run after the build node, for a record making `searches` searches: the four
      attempt nodes per search, with a retry preparation between attempts. */
  function Trace(searches: nat): (t: seq<Node>)
    requires searches >= 1
  {
    var attempt := [GoogleSearchNode, ScrapePagesNode, LlmExtractNode, LlmVerifyNode];
    if searches == 1 then attempt else attempt + [PrepareRetryNode] + Trace(searches - 1)
  }

  /** Every step of a trace follows an edge of the graph, it starts at the search node, ends
      at the verify node, and never returns to the build node. */
  lemma {:induction false} TraceFollowsEdges(searches: nat)
    requires searches >= 1
    ensures var t := Trace(searches);
      && |t| == 5 * searches - 1 && t[0] == GoogleSearchNode && t[|t| - 1] == LlmVerifyNode
      && (forall i :: 0 <= i < |t| ==> t[i] != BuildQueriesNode && t[i] != End)
      && (forall i :: 0 <= i < |t| - 1 ==>
            t[i + 1] == Next(t[i], Retry) || t[i + 1] == Next(t[i], Done))
  {
    if searches > 1 {
      var rest := Trace(searches - 1);
      TraceFollowsEdges(searches - 1);
      var t := Trace(searches);
      assert t == [GoogleSearchNode, ScrapePagesNode, LlmExtractNode, LlmVerifyNode, PrepareRetryNode] + rest;
      forall i | 5 <= i < |t|
        ensures t[i] == rest[i - 5]
      {
      }
    }
  }

  /** The trace repeats search, scrape, extract, verify, prepare-retry, cut before the last
      prepare-retry. */
  lemma {:induction false} TracePositions(searches: nat)
    requires searches >= 1
    ensures |Trace(searches)| == 5 * searches - 1
    ensures forall i :: 0 <= i < |Trace(searches)| ==>
      Trace(searches)[i] == [GoogleSearchNode, ScrapePagesNode, LlmExtractNode, LlmVerifyNode, PrepareRetryNode][i % 5]
  {
    if searches > 1 {
      TracePositions(searches - 1);
      var rest := Trace(searches - 1);
      var t := Trace(searches);
      assert t == [GoogleSearchNode, ScrapePagesNode, LlmExtractNode, LlmVerifyNode, PrepareRetryNode] + rest;
      forall i | 5 <= i < |t|
        ensures t[i] == rest[i - 5] && i % 5 == (i - 5) % 5
      {
      }
    }
  }

  /** In a trace, a verify node other than the last node ends attempt `i / 5`, which is not
      the last attempt, and is followed by a retry preparation; the last node is a verify node. */
  lemma TraceVerifyNodes(searches: nat)
    requires searches >= 1
    ensures var t := Trace(searches);
      && t[|t| - 1] == LlmVerifyNode
      && forall i :: 0 <= i < |t| - 1 && t[i] == LlmVerifyNode ==>
           i / 5 < searches - 1 && t[i + 1] == PrepareRetryNode
  {
    TracePositions(searches);
    var t := Trace(searches);
    forall i | 0 <= i < |t| - 1 && t[i] == LlmVerifyNode
      ensures i / 5 < searches - 1 && t[i + 1] == PrepareRetryNode
    {
      assert i % 5 == 3;
      assert (i + 1) % 5 == 4;
    }
    assert (|t| - 1) % 5 == 3;
  }

  /** The trace of the attempts from `st` takes, at the verify node of each attempt, the edge
      of the route `should_retry` chose on that attempt's state: to the retry preparation
      after every attempt but the last, and to END after the last. */
  lemma TraceRoutes(st: AgentState, actors: Actors, cfg: Settings)
    requires ValidSettings(cfg)
    ensures var s := RoundStarts(st, actors, cfg);
      var t := Trace(|s|);
      && |s| == Searches(st, actors, cfg)
      && (forall i :: 0 <= i < |t| - 1 && t[i] == LlmVerifyNode ==>
            i / 5 < |s| - 1 && t[i + 1] == Next(LlmVerifyNode, ShouldRetry(Attempt(s[i / 5], actors, cfg))))
      && t[|t| - 1] == LlmVerifyNode
      && Next(LlmVerifyNode, ShouldRetry(Attempt(s[|s| - 1], actors, cfg))) == End
      && Attempt(s[|s| - 1], actors, cfg) == Rounds(st, actors, cfg)
  {
    RoundStartsCount(st, actors, cfg);
    RoundStartsLinked(st, actors, cfg);
    RoundStartsLast(st, actors, cfg);
    LastRoundDone(st, actors, cfg);
    RoundsEndWithLastAttempt(st, actors, cfg);
    TraceVerifyNodes(|RoundStarts(st, actors, cfg)|);
  }

  /** The trace of a record's run is at most 14 nodes long after the build node, with google
      search appearing once per search. */
  lemma RunTrace(hcp: HCPInput, actors: Actors, cfg: Settings)
    requires ValidSettings(cfg)
    ensures var k := Searches(BuildQueries(Start(hcp)), actors, cfg);
      k >= 1 && |Trace(k)| <= 14
  {
    RunSearches(hcp, actors, cfg);
    TraceFollowsEdges(Searches(BuildQueries(Start(hcp)), actors, cfg));
  }

  /** Runs one record: the build node, then attempts (search, scrape, extract, verify), with a
      retry preparation between them, until `should_retry` routes to END. */
  method RunAgent(hcp: HCPInput, actors: Actors, cfg: Settings) returns (st: AgentState, searches: nat)
    requires ValidSettings(cfg)
    ensures st == RunSpec(hcp, actors, cfg)
    ensures searches == Searches(BuildQueries(Start(hcp)), actors, cfg) && 1 <= searches <= 3
    ensures ShouldRetry(st) == Done
  {
    RunSearches(hcp, actors, cfg);
    st := BuildQueries(Start(hcp));
    searches := 0;
    ghost var total := Searches(st, actors, cfg);
    while true
      invariant st.queryIdx < |st.queries|
      invariant Rounds(st, actors, cfg) == RunSpec(hcp, actors, cfg)
      invariant searches + Searches(st, actors, cfg) == total
      decreases |st.queries| - st.queryIdx
    {
      RoundStep(st, actors, cfg);
      ghost var round := st;
      st := GoogleSearch(st, actors, cfg);
      searches := searches + 1;
      st := ScrapePages(st, actors);
      st := LlmExtract(st, actors);
      st := LlmVerify(st, actors, cfg);
      assert st == Attempt(round, actors, cfg);
      if ShouldRetry(st) == Done {
        break;
      }
      st := PrepareRetry(st);
    }
  }
}
