/**
 * The supervisor agent: a pure router that picks one specialised agent for a
 * query by keyword, forwards the query to it unchanged and turns every
 * `Exception` the agent raises into a message.
 *
 * A downstream agent is modelled as a total function from the query to a
 * `Reply`: `Ok(response)` when the call returns, `Err(detail)` when it raises
 * an exception derived from `Exception` (detail being the exception's text).
 */
module Supervisor {
  import opened Text

  // ---------------------------------------------------------------------
  // Agent names and keyword lists
  // ---------------------------------------------------------------------

  const ResearcherAgent: string := "AWSResearcherAgent"
  const Ec2Agent: string := "EC2Agent"

  /** The only names the classifier can produce. */
  const RoutableNames: set<string> := {ResearcherAgent, Ec2Agent}

  const Ec2Keywords: seq<string> :=
    ["ec2", "instance", "server", "vm", "virtual machine", "compute", "ami", "security group", "vpc"]

  const LambdaKeywords: seq<string> := ["lambda"]

  /** The lowercased query contains some Lambda keyword. */
  ghost predicate MentionsLambda(query: string) {
    exists k :: k in LambdaKeywords && Occurs(Lower(query), k)
  }

  /** The lowercased query contains some EC2 keyword. */
  ghost predicate MentionsEc2(query: string) {
    exists k :: k in Ec2Keywords && Occurs(Lower(query), k)
  }

  // ---------------------------------------------------------------------
  // Classification (_determine_agent)
  // ---------------------------------------------------------------------

  /**
   * First match wins: Lambda keywords, then EC2 keywords, then the research
   * agent as the default.
   */
  function DetermineAgent(query: string): (name: string)
    ensures name in RoutableNames
    ensures MentionsLambda(query) ==> name == ResearcherAgent
    ensures !MentionsLambda(query) && MentionsEc2(query) ==> name == Ec2Agent
    ensures !MentionsLambda(query) && !MentionsEc2(query) ==> name == ResearcherAgent
  {
    var queryLower := Lower(query);
    if ContainsAny(queryLower, LambdaKeywords) then ResearcherAgent
    else if ContainsAny(queryLower, Ec2Keywords) then Ec2Agent
    else ResearcherAgent
  }

  /** The EC2 agent is chosen exactly when an EC2 keyword occurs and no Lambda keyword does. */
  lemma Ec2Exactly(query: string)
    ensures DetermineAgent(query) == Ec2Agent <==> !MentionsLambda(query) && MentionsEc2(query)
  {
  }

  /** "lambda" anywhere in the query wins, even beside EC2 keywords. */
  lemma LambdaWins(query: string)
    requires Occurs(Lower(query), "lambda")
    ensures DetermineAgent(query) == ResearcherAgent
  {
    assert "lambda" in LambdaKeywords;
  }

  /** Any single EC2 keyword is enough when "lambda" is absent. */
  lemma Ec2KeywordRoutesToEc2(query: string, k: string)
    requires k in Ec2Keywords && Occurs(Lower(query), k)
    requires !Occurs(Lower(query), "lambda")
    ensures DetermineAgent(query) == Ec2Agent
  {
  }

  /** A query with no keyword of either list goes to the research agent. */
  lemma NoKeywordDefaults(query: string)
    requires forall k :: k in LambdaKeywords + Ec2Keywords ==> !Occurs(Lower(query), k)
    ensures DetermineAgent(query) == ResearcherAgent
  {
    assert forall k :: k in LambdaKeywords ==> k in LambdaKeywords + Ec2Keywords;
  }

  /** Every keyword is non-empty, so nothing occurs in the empty query. */
  lemma EmptyQueryDefaults()
    ensures DetermineAgent("") == ResearcherAgent
  {
    assert forall k :: k in LambdaKeywords + Ec2Keywords ==> |k| > 0;
    NoKeywordDefaults("");
  }

  /** Classification ignores letter case. */
  lemma CaseInsensitive(query: string)
    ensures DetermineAgent(query) == DetermineAgent(Lower(query))
  {
    LowerIdempotent(query);
  }

  // ---------------------------------------------------------------------
  // Worked examples
  // ---------------------------------------------------------------------

  /** A query with "lambda" written into it, in any letter case, goes to the research agent. */
  lemma LambdaWrittenIn(query: string, before: string, written: string, after: string)
    requires query == before + written + after && Lower(written) == "lambda"
    ensures DetermineAgent(query) == ResearcherAgent
  {
    OccursInLowerConcat(before, written, after, "lambda");
    LambdaWins(query);
  }

  /**
   * A query with an EC2 keyword written into it, in any letter case, that
   * lacks some letter of "lambda" in both cases goes to the EC2 agent.
   */
  lemma Ec2KeywordWrittenIn(query: string, before: string, written: string, after: string, k: string, c: char)
    requires query == before + written + after && Lower(written) == k && k in Ec2Keywords
    requires 'a' <= c <= 'z' && c in "lambda" && c !in query && (c as int - 32) as char !in query
    ensures DetermineAgent(query) == Ec2Agent
  {
    OccursInLowerConcat(before, written, after, k);
    AbsentLetterNotInLower(query, "lambda", c);
    Ec2KeywordRoutesToEc2(query, k);
  }

  /**
   * Every keyword holds one of the letters c, m, v, so a query that has
   * none of them in either case takes the default route.
   */
  lemma NoKeywordLettersDefaults(query: string)
    requires 'c' !in query && 'C' !in query
    requires 'm' !in query && 'M' !in query
    requires 'v' !in query && 'V' !in query
    ensures DetermineAgent(query) == ResearcherAgent
  {
    LowerLacksLetter(query, 'c');
    LowerLacksLetter(query, 'm');
    LowerLacksLetter(query, 'v');
    forall k | k in LambdaKeywords + Ec2Keywords
      ensures !Occurs(Lower(query), k)
    {
      assert 'c' in k || 'm' in k || 'v' in k;
    }
    NoKeywordDefaults(query);
  }

  /** Matching is by substring, not by word: "dynamic" contains "ami". */
  lemma SubstringNotWord(q: string)
    requires q == "dynamic"
    ensures DetermineAgent(q) == Ec2Agent
  {
    assert q == "dyn" + "ami" + "c";
    assert 'l' !in q && 'L' !in q;
    LowerOfLowerCase("ami");
    Ec2KeywordWrittenIn(q, "dyn", "ami", "c", "ami", 'l');
  }

  /** "What's my lambda function doing?" goes to the research agent. */
  lemma ExampleLambdaQuery(q: string)
    requires q == "What's my lambda function doing?"
    ensures DetermineAgent(q) == ResearcherAgent
  {
    assert q == "What's my " + "lambda" + " function doing?";
    LowerOfLowerCase("lambda");
    LambdaWrittenIn(q, "What's my ", "lambda", " function doing?");
  }

  // The remaining queries are longer: each fact about their text (which
  // letters they lack, how they split around a keyword) is stated in a
  // lemma of its own, which keeps each proof about a literal small.

  lemma Ec2QuerySplit(q: string)
    requires q == "List my EC2 instances"
    ensures q == "List my " + "EC2" + " instances"
  {
  }

  lemma Ec2QueryLacksB(q: string)
    requires q == "List my EC2 instances"
    ensures 'b' !in q && 'B' !in q
  {
  }

  /** "List my EC2 instances" goes to the EC2 agent. */
  lemma ExampleEc2Query(q: string)
    requires q == "List my EC2 instances"
    ensures DetermineAgent(q) == Ec2Agent
  {
    Ec2QuerySplit(q);
    Ec2QueryLacksB(q);
    assert Lower("EC2") == "ec2";
    Ec2KeywordWrittenIn(q, "List my ", "EC2", " instances", "ec2", 'b');
  }

  lemma UnrelatedQueryLacksC(q: string)
    requires q == "What's the weather today?"
    ensures 'c' !in q && 'C' !in q
  {
  }

  lemma UnrelatedQueryLacksM(q: string)
    requires q == "What's the weather today?"
    ensures 'm' !in q && 'M' !in q
  {
  }

  lemma UnrelatedQueryLacksV(q: string)
    requires q == "What's the weather today?"
    ensures 'v' !in q && 'V' !in q
  {
  }

  /** "What's the weather today?" mentions no keyword and falls back to the research agent. */
  lemma ExampleUnrelatedQuery(q: string)
    requires q == "What's the weather today?"
    ensures DetermineAgent(q) == ResearcherAgent
  {
    UnrelatedQueryLacksC(q);
    UnrelatedQueryLacksM(q);
    UnrelatedQueryLacksV(q);
    NoKeywordLettersDefaults(q);
  }

  /** "ec2 lambda trigger" mentions an EC2 keyword. */
  lemma BothKeywordsMentionsEc2(q: string)
    requires q == "ec2 lambda trigger"
    ensures MentionsEc2(q)
  {
    assert q == "" + "ec2" + " lambda trigger";
    LowerOfLowerCase("ec2");
    OccursInLowerConcat("", "ec2", " lambda trigger", "ec2");
    assert "ec2" in Ec2Keywords;
  }

  /** A query naming both EC2 and Lambda goes to the research agent: the Lambda rule comes first. */
  lemma ExampleBothKeywords(q: string)
    requires q == "ec2 lambda trigger"
    ensures MentionsEc2(q)
    ensures DetermineAgent(q) == ResearcherAgent
  {
    BothKeywordsMentionsEc2(q);
    assert q == "ec2 " + "lambda" + " trigger";
    LowerOfLowerCase("lambda");
    LambdaWrittenIn(q, "ec2 ", "lambda", " trigger");
  }

  lemma StatusQuerySplit(q: string)
    requires q == "EC2 status" || q == "ec2 status" || q == "Ec2 Status"
    ensures q == "" + q[..3] + q[3..] && Lower(q[..3]) == "ec2"
  {
  }

  /** Each of "EC2 status", "ec2 status" and "Ec2 Status" goes to the EC2 agent. */
  lemma StatusQueryRoutesToEc2(q: string)
    requires q == "EC2 status" || q == "ec2 status" || q == "Ec2 Status"
    ensures DetermineAgent(q) == Ec2Agent
  {
    StatusQuerySplit(q);
    assert 'l' !in q && 'L' !in q;
    Ec2KeywordWrittenIn(q, "", q[..3], q[3..], "ec2", 'l');
  }

  /** "EC2 status", "ec2 status" and "Ec2 Status" are routed alike, to the EC2 agent. */
  lemma ExampleMixedCase(q1: string, q2: string, q3: string)
    requires q1 == "EC2 status" && q2 == "ec2 status" && q3 == "Ec2 Status"
    ensures DetermineAgent(q1) == DetermineAgent(q2) == DetermineAgent(q3) == Ec2Agent
  {
    StatusQueryRoutesToEc2(q1);
    StatusQueryRoutesToEc2(q2);
    StatusQueryRoutesToEc2(q3);
  }

  // ---------------------------------------------------------------------
  // Dispatch (route_query)
  // ---------------------------------------------------------------------

  /** What one call to a specialised agent gives back: its response, or the text of what it raised. */
  datatype Reply = Ok(response: string) | Err(detail: string)

  /** A specialised agent, seen by the router only as a callable on the query. */
  type Agent = string -> Reply

  /** The registry of specialised agents, keyed by agent name. */
  type Registry = map<string, Agent>

  datatype Option<T> = None | Some(value: T)

  datatype Result<T> = Success(value: T) | Failure(error: string)

  /** The supervisor as the router sees it: the registry it was built with. */
  datatype SupervisorAgent = SupervisorAgent(specializedAgents: Registry)

  /**
   * Building a supervisor fails when no configuration is given; otherwise
   * it keeps the registry exactly as passed. The model and conversation
   * set-up that the configuration feeds are not modelled.
   */
  function NewSupervisor<C>(specializedAgents: Registry, config: Option<C>): (r: Result<SupervisorAgent>)
    ensures config.None? <==> r == Failure("No config provided")
    ensures config.Some? <==> r == Success(SupervisorAgent(specializedAgents))
  {
    if config.None? then Failure("No config provided")
    else Success(SupervisorAgent(specializedAgents))
  }

  /** The three ways a routed query can end. */
  datatype Outcome =
    | NotAvailable(agent: string)
    | Answered(agent: string, response: string)
    | Failed(agent: string, detail: string)

  /** The text the router hands back for each outcome. */
  function Message(o: Outcome): (text: string)
    ensures o.Answered? ==> text == o.response
    ensures o.NotAvailable? ==> StartsWith(text, "Error: Unable to route query - ") && OccursAt(text, o.agent, 31)
    ensures o.Failed? ==> StartsWith(text, "Error: ") && OccursAt(text, o.agent, 7)
  {
    match o
    case NotAvailable(name) => "Error: Unable to route query - " + name + " not available"
    case Answered(_, response) => response
    case Failed(name, detail) => "Error: " + name + " encountered an issue: " + detail
  }

  /**
   * Classifies the query, looks the chosen name up and, when it is
   * registered, calls that agent once with the query as given.
   */
  function Dispatch(agents: Registry, query: string): (o: Outcome)
    ensures o.agent == DetermineAgent(query)
    ensures o.NotAvailable? <==> o.agent !in agents
    ensures o.Answered? ==> agents[o.agent](query) == Ok(o.response)
    ensures o.Failed? ==> agents[o.agent](query) == Err(o.detail)
  {
    var name := DetermineAgent(query);
    if name !in agents then NotAvailable(name)
    else match agents[name](query)
      case Ok(response) => Answered(name, response)
      case Err(detail) => Failed(name, detail)
  }

  /** `route_query`: a text for every outcome, including an agent raising an `Exception`. */
  function RouteQuery(supervisor: SupervisorAgent, query: string): (out: string)
    ensures var agents, name := supervisor.specializedAgents, DetermineAgent(query);
      && (name !in agents ==>
            out == "Error: Unable to route query - " + name + " not available")
      && (name in agents && agents[name](query).Ok? ==>
            out == agents[name](query).response)
      && (name in agents && agents[name](query).Err? ==>
            out == "Error: " + name + " encountered an issue: " + agents[name](query).detail)
  {
    Message(Dispatch(supervisor.specializedAgents, query))
  }

  /** A missing agent is reported by a text that says "not available". */
  lemma MissingAgentNotAvailable(supervisor: SupervisorAgent, query: string)
    requires DetermineAgent(query) !in supervisor.specializedAgents
    ensures Occurs(RouteQuery(supervisor, query), "not available")
  {
    var prefix := "Error: Unable to route query - " + DetermineAgent(query) + " ";
    assert RouteQuery(supervisor, query) == prefix + "not available" + "";
    OccursInConcat(prefix, "not available", "");
  }

  /** A failing agent is reported by a text that says "encountered an issue". */
  lemma FailingAgentEncounteredIssue(supervisor: SupervisorAgent, query: string)
    requires DetermineAgent(query) in supervisor.specializedAgents
    requires supervisor.specializedAgents[DetermineAgent(query)](query).Err?
    ensures Occurs(RouteQuery(supervisor, query), "encountered an issue")
  {
    var name := DetermineAgent(query);
    var detail := supervisor.specializedAgents[name](query).detail;
    var prefix, suffix := "Error: " + name + " ", ": " + detail;
    assert RouteQuery(supervisor, query) == prefix + "encountered an issue" + suffix;
    OccursInConcat(prefix, "encountered an issue", suffix);
  }

  /**
   * The agent sees the query exactly as the caller wrote it, letter case
   * included: an agent that answers with its input makes the router
   * return the query itself.
   */
  lemma ForwardsOriginalQuery(supervisor: SupervisorAgent, query: string)
    requires DetermineAgent(query) in supervisor.specializedAgents
    requires forall x :: supervisor.specializedAgents[DetermineAgent(query)](x) == Ok(x)
    ensures RouteQuery(supervisor, query) == query
  {
  }

  /**
   * Only the chosen agent is ever called: two registries that agree on
   * whether the chosen name is registered, and on what that agent answers
   * for this query, route it to the same text. In particular, when the
   * name is missing, no agent's behaviour matters.
   */
  lemma OnlyChosenAgentCalled(a1: Registry, a2: Registry, query: string)
    requires var name := DetermineAgent(query);
      (name in a1 <==> name in a2) && (name in a1 ==> a1[name](query) == a2[name](query))
    ensures RouteQuery(SupervisorAgent(a1), query) == RouteQuery(SupervisorAgent(a2), query)
  {
  }

  /** The eighth character of an error text: 'U' for a missing agent, the agent's initial for a failure. */
  lemma ErrorTextTag(o: Outcome)
    requires !o.Answered? && o.agent in RoutableNames
    ensures |Message(o)| > 7
    ensures Message(o)[7] == if o.NotAvailable? then 'U' else o.agent[0]
    ensures o.agent[0] != 'U'
  {
  }

  /**
   * The two error texts cannot be confused with each other, and each names
   * its agent and, for a failure, its detail: equal error texts for
   * routable names come from the same outcome.
   */
  lemma ErrorMessagesIdentifyOutcome(o1: Outcome, o2: Outcome)
    requires !o1.Answered? && !o2.Answered?
    requires o1.agent in RoutableNames && o2.agent in RoutableNames
    requires Message(o1) == Message(o2)
    ensures o1 == o2
  {
    var m := Message(o1);
    if o1.NotAvailable? && o2.NotAvailable? {
      assert m[31..|m| - 14] == o1.agent;
      assert m[31..|m| - 14] == o2.agent;
    } else if o1.Failed? && o2.Failed? {
      var head := " encountered an issue: ";
      assert m == "Error: " + o1.agent + head + o1.detail;
      assert m == "Error: " + o2.agent + head + o2.detail;
      assert m[7] == o1.agent[0] && m[7] == o2.agent[0];
      assert o1.agent == o2.agent;
      var k := 7 + |o1.agent| + |head|;
      assert m[k..] == o1.detail;
      assert m[k..] == o2.detail;
    } else {
      ErrorTextTag(o1);
      ErrorTextTag(o2);
    }
  }
}
