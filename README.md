# Supervisor query router, modelled in Dafny

This project models the routing core of a voice-driven AWS assistant: the
`SupervisorAgent` that takes a user's natural-language query, picks one
specialised agent for it by keyword, forwards the query to that agent
unchanged and returns the agent's answer, or an error text, to the caller.

- `text.dfy` (module `Text`): the two string operations the router uses,
  Python's `str.lower()` (modelled on ASCII letters) and substring
  containment `kw in s`. Containment is an executable left-to-right search
  (`Contains`) proved equal to a reference definition (`Occurs`: some
  window of the text equals the keyword).
- `supervisor.dfy` (module `Supervisor`):
  - the keyword lists and `DetermineAgent`, the first-match-wins
    classifier of `_determine_agent`: Lambda keywords first, then EC2
    keywords, then the research agent as the default;
  - lemmas for each routing rule, case-insensitivity and worked examples;
  - `Dispatch` and `RouteQuery`, the registry lookup, the single call to
    the chosen agent and the conversion of every `Exception` it raises into
    text, as `route_query` does;
  - `NewSupervisor`, the one check of the constructor that the router
    depends on: a missing configuration is an error.

A specialised agent is modelled as a total function from the query to a
`Reply`: `Ok(response)` when the call returns, `Err(detail)` when it raises
an exception derived from `Exception` (the only kind the router catches),
with `detail` the exception's text. The registry is a `map` from agent name
to such a function. The supervisor never changes the registry: in the model
it is an immutable value that routing only reads.

The code comment above the last branch of `_determine_agent` says the
fallback is the EC2 agent; the code returns `AWSResearcherAgent`, and the
model follows the code.

## Model

| member | source | states |
|---|---|---|
| `Text.LowerChar` | backend/src/voice_based_aws_agent/agents/supervisor_agent.py:139 | one character lowercased: the result is never an ASCII capital, a capital becomes its small letter, 32 code points higher, and every other character is kept |
| `Text.Lower` | backend/src/voice_based_aws_agent/agents/supervisor_agent.py:139 | the lowercased query has the same length, each character is the lowercase of the one at the same index, and no capital letter remains |
| `Text.LowerIdempotent` | backend/src/voice_based_aws_agent/agents/supervisor_agent.py:139 | lowercasing an already lowercased query changes nothing |
| `Text.LowerOfLowerCase` | backend/src/voice_based_aws_agent/agents/supervisor_agent.py:168-182 | a text without capitals, such as every keyword, is its own lowercase form |
| `Text.LowerConcat` | backend/src/voice_based_aws_agent/agents/supervisor_agent.py:139 | lowercasing a concatenation is the concatenation of the lowercased parts |
| `Text.Contains` | backend/src/voice_based_aws_agent/agents/supervisor_agent.py:194 | the search answers true exactly when some window of the text equals the keyword (substring containment, not word matching) |
| `Text.ContainsAny` | backend/src/voice_based_aws_agent/agents/supervisor_agent.py:199 | `any(kw in s for kw in kws)` is true exactly when some keyword of the list occurs in the text |
| `Supervisor.DetermineAgent` | backend/src/voice_based_aws_agent/agents/supervisor_agent.py:129-204 | the result is always "AWSResearcherAgent" or "EC2Agent"; a Lambda keyword in the lowercased query gives the research agent; otherwise an EC2 keyword gives the EC2 agent; otherwise the research agent |
| `Supervisor.Ec2Exactly` | backend/src/voice_based_aws_agent/agents/supervisor_agent.py:194-204 | the EC2 agent is chosen if and only if an EC2 keyword occurs and no Lambda keyword does |
| `Supervisor.LambdaWins` | backend/src/voice_based_aws_agent/agents/supervisor_agent.py:194-196 | "lambda" anywhere in the lowercased query selects the research agent, whatever EC2 keywords it also holds |
| `Supervisor.Ec2KeywordRoutesToEc2` | backend/src/voice_based_aws_agent/agents/supervisor_agent.py:168-200 | any one of ec2, instance, server, vm, virtual machine, compute, ami, security group, vpc, without "lambda", selects the EC2 agent |
| `Supervisor.NoKeywordDefaults` | backend/src/voice_based_aws_agent/agents/supervisor_agent.py:202-204 | a query containing no keyword of either list goes to the research agent |
| `Supervisor.EmptyQueryDefaults` | backend/src/voice_based_aws_agent/agents/supervisor_agent.py:202-204 | the empty query goes to the research agent |
| `Supervisor.CaseInsensitive` | backend/src/voice_based_aws_agent/agents/supervisor_agent.py:139 | a query and its lowercase form are routed to the same agent |
| `Supervisor.LambdaWrittenIn` | backend/src/voice_based_aws_agent/agents/supervisor_agent.py:194-196 | "lambda" written into a query in any mix of letter case selects the research agent |
| `Supervisor.Ec2KeywordWrittenIn` | backend/src/voice_based_aws_agent/agents/supervisor_agent.py:199-200 | an EC2 keyword written into a query in any letter case selects the EC2 agent when some letter of "lambda" is missing from the query in both cases |
| `Supervisor.NoKeywordLettersDefaults` | backend/src/voice_based_aws_agent/agents/supervisor_agent.py:202-204 | a query without the letters c, m and v in either case holds no keyword and goes to the research agent |
| `Supervisor.SubstringNotWord` | backend/src/voice_based_aws_agent/agents/supervisor_agent.py:199 | "dynamic" contains "ami" and is routed to the EC2 agent |
| `Supervisor.ExampleLambdaQuery` | backend/src/voice_based_aws_agent/agents/supervisor_agent.py:194-196 | "What's my lambda function doing?" is routed to the research agent |
| `Supervisor.ExampleEc2Query` | backend/src/voice_based_aws_agent/agents/supervisor_agent.py:199-200 | "List my EC2 instances" is routed to the EC2 agent |
| `Supervisor.ExampleUnrelatedQuery` | backend/src/voice_based_aws_agent/agents/supervisor_agent.py:202-204 | "What's the weather today?" falls back to the research agent |
| `Supervisor.BothKeywordsMentionsEc2` | backend/src/voice_based_aws_agent/agents/supervisor_agent.py:199 | "ec2 lambda trigger" holds the EC2 keyword "ec2" |
| `Supervisor.ExampleBothKeywords` | backend/src/voice_based_aws_agent/agents/supervisor_agent.py:194-200 | "ec2 lambda trigger" mentions an EC2 keyword yet goes to the research agent, because the Lambda rule is checked first |
| `Supervisor.StatusQueryRoutesToEc2` | backend/src/voice_based_aws_agent/agents/supervisor_agent.py:139 | each of "EC2 status", "ec2 status" and "Ec2 Status" goes to the EC2 agent |
| `Supervisor.ExampleMixedCase` | backend/src/voice_based_aws_agent/agents/supervisor_agent.py:139 | "EC2 status", "ec2 status" and "Ec2 Status" are all routed alike, to the EC2 agent |
| `Supervisor.NewSupervisor` | backend/src/voice_based_aws_agent/agents/supervisor_agent.py:30-50 | construction fails with "No config provided" exactly when no configuration is given, and otherwise keeps the registry exactly as passed |
| `Supervisor.Message` | backend/src/voice_based_aws_agent/agents/supervisor_agent.py:111-127 | the text for each outcome: a successful call's response unchanged; for a missing agent, a text that begins "Error: Unable to route query - " with the agent's name right after it; for a failing agent, a text that begins "Error: " with the agent's name right after it |
| `Supervisor.Dispatch` | backend/src/voice_based_aws_agent/agents/supervisor_agent.py:109-127 | the outcome names the classifier's choice; it is "not available" exactly when that name is not registered; otherwise it carries what that agent returned, or what it raised, for the original query |
| `Supervisor.RouteQuery` | backend/src/voice_based_aws_agent/agents/supervisor_agent.py:96-127 | an unregistered name gives exactly "Error: Unable to route query - NAME not available"; a successful call gives the agent's response with nothing added; a call raising an `Exception` gives exactly "Error: NAME encountered an issue: DETAIL" |
| `Supervisor.MissingAgentNotAvailable` | backend/src/voice_based_aws_agent/agents/supervisor_agent.py:111-113 | when the chosen agent is missing, the returned text contains "not available" |
| `Supervisor.FailingAgentEncounteredIssue` | backend/src/voice_based_aws_agent/agents/supervisor_agent.py:125-127 | when the chosen agent raises, the returned text contains "encountered an issue" |
| `Supervisor.ForwardsOriginalQuery` | backend/src/voice_based_aws_agent/agents/supervisor_agent.py:116-123 | the agent receives the query exactly as written, letter case included: an agent that echoes its input makes the router return the query itself |
| `Supervisor.OnlyChosenAgentCalled` | backend/src/voice_based_aws_agent/agents/supervisor_agent.py:111-121 | the result depends only on whether the chosen name is registered and on that one agent's answer to this query; no other agent is consulted, and none at all when the name is missing |
| `Supervisor.ErrorMessagesIdentifyOutcome` | backend/src/voice_based_aws_agent/agents/supervisor_agent.py:111-127 | for the two routable names, equal error texts come from the same outcome: a missing agent and a failing one are never confused, and a failure's text determines its agent and detail |

## Left out

- `Text.Lower`: models ASCII lowercasing only; Python's `str.lower()` also lowercases non-ASCII letters and can change a text's length (for example, capital I with dot above becomes two characters).
- The construction of the language-model client, the conversation manager and the base agent in `SupervisorAgent.__init__`, and the routing prompt of `_get_routing_instructions`: they configure an external framework and hold no routing logic. Only the missing-configuration error is kept, in `NewSupervisor`.
- Logging (`logger.info`, `logger.error`): side effects without behavioural content.
- The `async` form of `route_query`: nothing in it runs concurrently, so it is modelled as one sequential function.
- `str(response)`: the agent's response is modelled as already being text; how the framework's result object renders as a string is not part of this model.
- The agents themselves (`invoice_agent.py`, `aws_researcher_agent.py`): a prompt plus a client for an external tool server or database, with no local logic. A downstream agent is an arbitrary function from query to reply here.
- The disabled SSM and Backup keyword lists and branches: they are commented out in the source and never run.
- `Supervisor.RouteQuery`: `Err(detail)` stands for an exception derived from `Exception`, the only kind the `except` clause catches. Other exceptions propagate out of `route_query` in the source, and the model has no path for them: `KeyboardInterrupt` or `SystemExit` raised during the agent call, and an exception whose own `str()` raises inside the handler.
- A successful agent response can itself begin with "Error: "; the router does not mark it, and the model keeps that, so `ErrorMessagesIdentifyOutcome` speaks only of the two error texts.
