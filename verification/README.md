# Verified model of the Blueprint server's stateful core

The project models, in Dafny, the parts of the server that keep state across calls or decide by a small
amount of intricate text and number work, and proves what they promise over every input, every run and every
history:

- the knowledge graph: upserts, the rebuild from relational rows, and the capped breadth-first read
  (`GraphBalls`, `GraphRebuild`, `KnowledgeGraph`);
- the sliding-window rate limiter (`RateLimiter`);
- the check that a generated summary is grounded in the retrieved records (`Citations`, `Sentences`,
  `Numbers`, `Grounding`) and the LIKE patterns of record search (`LikePattern`);
- the bounded tool loop, against an arbitrary model and arbitrary tools (`ToolLoop`);
- agents: lifecycle, the bracket around a run, matching, and the conductor's cycle (`AgentLifecycle`,
  `ActivationService`, `AgentMatcher`, `Conductor`);
- budgets and ledgers, failure streaks, inboxes, conflicts and confidence calibration (`CostLedger`,
  `FailureStreak`, `AgentInbox`, `ConflictTable`, `Calibration`).

`Collections` holds shared vocabulary. Tables are sequences or maps of rows; objects and tables the source
changes in place are fields of classes, whose methods are proved equal to steps on values, and the lemmas then
speak about all sequences of such steps. Model calls, tools, runners, the clock, identifiers and the rows of
other tables are parameters. `dafny verify dfyconfig.toml` checks everything.

## Where the code keeps less than it promises

Each line names the members that state exactly when the property holds and, where it is not plain from that
condition, a member with an input that breaks it.

- A traversal returns edges with an endpoint outside its nodes exactly when the last hop it makes reaches more
  than 200 nodes (`KnowledgeGraph.RightEdges`, part of the contract of `TraverseGraph`). A star stored by 200 or
  more `createEdge` calls does it (`GraphExample.TraverseStar`). A depth that is not a number admits no hop, so the
  start comes back alone (`KnowledgeGraph.NotANumberGivesTheStartAlone`).
- The rate limiter keeps its bound on everything that can happen along a clock exactly if the clock never comes
  back to a reading it has put out of the window (`RateLimiter.KeepsLimitIff`); a clock that does not run backwards
  never does. `RateLimiter.BackwardClockBreaksTheLimit` is an input with one that does.
- The decision search leaves backslashes unescaped, so its pattern means "contains" for exactly the terms without
  one (`LikePattern.RecallMeansContainsIff`). With terms but no columns the record search selects every row
  (`LikePattern.ClauseMeansEveryTerm`).
- The grounding contract asks for a citation in every sentence, and the comment above `isClaim` promises that two
  word characters make a claim. The code asks for one only in sentences with two separate whole runs of at least two
  ASCII letters outside citations (`Numbers.ClaimMeansTwoWords`): a line without citation and figure in front of a
  grounded one passes exactly if it has fewer (`Grounding.UncitedLinePassesIff`). So any one-word sentence passes
  (`Grounding.OneWordPassesUncited`, `Grounding.DownPassesUncited`), and any sentence in a script without ASCII
  letters (`Numbers.WithoutAsciiLettersNothingIsClaimed`).
- The comments say that digits inside an identifier license nothing. A numeral licenses its figure exactly if it
  stands between characters that are no letter, digit or point (`Numbers.LicensedNumeralsStandAlone`), and a group
  of digits between two hyphens does (`Numbers.IdentifierLicensesSeven`). Figures written in other than ASCII digits
  are never checked (`Numbers.NoDigitsNoNumbers`).
- After an activation an agent is still busy exactly when the agent was in standby or busy and the bracket was cut
  short (`ActivationService.BusyAfterwardsIff`): recording the activation threw, the runner rejected with something
  whose message cannot be read, such as null, so that the catch block throws before it blocks the agent, or the
  runner's result could not be used, as when it is nothing at all or has a run id that cannot be written, so that the
  swallowed settling step ends early. Such a run counts no failure and sets no cooldown.
- One conductor cycle runs an agent twice exactly when its signal run ended in an exception, it is due, and its row is
  released before the schedule looks at it (`Conductor.RunConductor`): after a readable exception, when the cooldown
  has passed; after an unreadable one, never if the run left the agent busy, and otherwise as before the run. A cycle
  of less than fifteen minutes whose exceptions are readable or leave the agent busy never does, and both conditions
  are needed: `CycleExamples.SecondRunHappens` takes fifteen minutes, `CycleExamples.UnreadableThrowRunsTwice` no time.
  The conductor's own runners only throw errors, which are readable.
- The gate judges an agent by its stored scope and the matcher also by the role's default, so a best match with an
  empty stored scope is always turned away (`Conductor.EmptyStoredScopeIsNeverRouted`,
  `CycleExamples.BestMatchIsTurnedAway`).
- Whatever the runs cost, up to c, and whatever cap they read, an agent's day stays below the cap plus c exactly if
  no run of that day slips past midnight, between its start and its gate, behind an earlier run of the day
  (`CostLedger.DayBoundIff`); it always stays below the cap plus 2c. `CostLedger.MidnightSlipExceedsCapPlusOne` is
  a day that reaches the cap plus c.
- An agent never has two open streak issues exactly if nobody re-opens one while another is open
  (`FailureStreak.OneOpenIff`, `FailureStreak.ReopeningLeavesTwo`). The comment promises one issue per losing streak
  until recovery or dismissal; an issue that is merely acknowledged is raised again by the next failure
  (`FailureStreak.RaisesIff`, `FailureStreak.AcknowledgingRaisesAgain`).
- The matcher's comment calls owning the task type decisive; it is outranked by enough further areas
  (`AgentMatcher.OwnershipDecidesIff` says by how many).
- Reading an inbox with limit zero returns everything (`AgentInbox.LimitIsKeptIff`).
- Two overconfident periods followed by an underconfident one, and nothing else, make the conservatism factor raise
  confidences further (`Calibration.ScalingBackfiresIff`). The factor is 1 or 1.5 (`Calibration.ScaledIff`) and does
  not grow with the number of wrong periods, although the comment beside it speaks of a progressively more
  conservative agent. Without an offset, or with a zero one, a stated confidence outside [0, 1] stays there
  (`Calibration.AdjustedIsProbabilityIff`).
- Recalculating calibrations throws, and stores nothing, exactly if some agent has a name that plain objects inherit,
  such as constructor (`Calibration.Accumulate`).
- The tool loop declares the stop reason `parse_failure` and never returns it (`ToolLoop.RunToolLoop`).

## Model

| member | source | states |
|---|---|---|
| GraphBalls.BallIsWalks | server/brain/knowledge-graph.ts:158-200 | A ball of radius k, against which the traversal is proved, is exactly the set of nodes some walk of at most k edges reaches, each edge taken in either direction |
| GraphBalls.BallFromFrontier | server/brain/knowledge-graph.ts:176-193 | Expanding only the newest layer finds the whole next ball and all edges touching the current one |
| GraphBalls.StarOverflows | server/brain/knowledge-graph.ts:149-193 | Around one centre with more than 200 nodes the first hop reaches them all and is the last one at every depth |
| KnowledgeGraph.KnowledgeGraph.TraverseGraph | server/brain/knowledge-graph.ts:158-200 | For every stored graph, start, depth and edge-type filter: nothing comes back if and only if no stored row of the business has the reference; otherwise, around the row that has it and over the edges of that business and those types, the nodes are stored entities, each once, that lie in the ball of the clamped depth, number min(200, its size) and contain every smaller ball that fits, and the edges are exactly the allowed ones touching the ball before the last hop, each once, with both ends returned if and only if that hop's ball has at most 200 nodes |
| KnowledgeGraph.FindStartMeaning | server/brain/knowledge-graph.ts:164-167 | The start is looked for among all rows, and missing only if no row has the business and the reference |
| KnowledgeGraph.KnowledgeGraph.Explore | server/brain/knowledge-graph.ts:176-193 | The hop loop stops at the depth limit, at an empty frontier or at the cap, with visited nodes, frontier and edges tied to the balls of the hops made |
| KnowledgeGraph.KnowledgeGraph.Expand | server/brain/knowledge-graph.ts:182-191 | Whatever order the rows come in, one hop adds all their ends while there is room, never exceeds the cap, and records each edge once |
| KnowledgeGraph.KnowledgeGraph.BallExists | server/brain/knowledge-graph.ts:195-198 | Every node a traversal can visit is a stored entity, so looking the visited ids up loses none |
| KnowledgeGraph.ExploredEnd | server/brain/knowledge-graph.ts:176-199 | Whichever of its three reasons ends the search, the answer is complete in the sense of the traversal's contract |
| KnowledgeGraph.SmallBallIsReturnedWhole | server/brain/knowledge-graph.ts:149-199 | A ball of at most 200 nodes comes back whole |
| KnowledgeGraph.BelowCapEdgesAreWhole | server/brain/knowledge-graph.ts:149-199 | Below the cap the edges are exactly those touching a node at distance at most depth - 1, and both ends are among the nodes |
| KnowledgeGraph.StarTraversalDangles | server/brain/knowledge-graph.ts:149-193 | Whatever a traversal of such a star returns, at any depth, it is 200 nodes and some edge with an end outside them |
| KnowledgeGraph.NotANumberGivesTheStartAlone | server/brain/knowledge-graph.ts:163-176 | A depth that is not a number returns the start and no edge |
| KnowledgeGraph.HopsBelowDepth | server/brain/knowledge-graph.ts:163-176 | Hop number h is made exactly if it is the first, or h < 5 and below the depth, so a fraction is rounded up; two hops without a depth, none if it is not a number |
| GraphExample.LinksMakeAStar | server/brain/knowledge-graph.ts:29-67 | From empty tables, n createEdge commands store a centre with n leaves |
| GraphExample.TraverseStar | server/brain/knowledge-graph.ts:149-200 | Stored by 200 or more such commands and read from its centre, the star gives 200 nodes and an edge that leads out of them |
| KnowledgeGraph.KnowledgeGraph.UpsertEntity | server/brain/knowledge-graph.ts:29-42 | An entity is found by its reference or inserted, and the id returned is the one the reference then finds |
| KnowledgeGraph.KnowledgeGraph.UpsertEdge | server/brain/knowledge-graph.ts:54-61 | An edge is inserted, or the row with its (from, to, type) gets the new weight and evidence; a self-loop changes nothing |
| KnowledgeGraph.KnowledgeGraph.CreateStandaloneEntity | server/brain/knowledge-graph.ts:45-52 | Always a new row with a new id and no reference, and no edge changes |
| KnowledgeGraph.KnowledgeGraph.CreateEdge | server/brain/knowledge-graph.ts:63-67 | Both ends upserted and then the edge, which keeps the tables consistent |
| KnowledgeGraph.KnowledgeGraph.DeriveEdgesForBusiness | server/brain/knowledge-graph.ts:75-144 | The rebuild performs exactly the derived commands in order and reports how many stored rows of either table then belong to the business |
| KnowledgeGraph.KnowledgeGraph.RebuildTwice | server/brain/knowledge-graph.ts:75-144 | Rebuilding again over unchanged rows, at any later time, changes neither table and neither count |
| GraphRebuild.RunTwiceIsRunOnce | server/brain/knowledge-graph.ts:63-144 | For every graph and every command list, running the list twice leaves what running it once leaves |
| GraphRebuild.LastWriterWins | server/brain/knowledge-graph.ts:54-61 | Row by row, an edge holds the weight and evidence of the last command that writes its key, and is untouched if none does |
| GraphRebuild.EdgesAreTheWrittenOnes | server/brain/knowledge-graph.ts:54-144 | Starting from empty tables the edges afterwards are exactly the keys the list writes |
| GraphRebuild.WrittenKeysExist | server/brain/knowledge-graph.ts:54-67 | Every key a command writes has a row when the list is done |
| GraphRebuild.RunAllConsistent | server/brain/knowledge-graph.ts:29-67 | Every command list keeps one entity per reference, one edge per (from, to, type), no self-loops and existing endpoints |
| GraphRebuild.FindRefMeaning | server/brain/knowledge-graph.ts:30-34 | Looking a reference up returns a row that has it, and fails only if none has |
| GraphRebuild.WithEntityIs | server/brain/knowledge-graph.ts:29-42 | An entity upsert changes nothing if some row has the reference, and otherwise adds one row saying what it was given |
| GraphRebuild.WithEdgeIs | server/brain/knowledge-graph.ts:54-61 | An edge upsert changes weight and evidence of the rows with that pair and type and nothing else, and adds a row exactly if there is none; a self-loop changes nothing |
| GraphRebuild.EntitiesAreFirstMentions | server/brain/knowledge-graph.ts:29-67 | Old rows stay, and every new one holds the business, type and title that the first mention of its reference in the whole list gives it |
| GraphRebuild.JoinedIff | server/brain/knowledge-graph.ts:29-67 | In consistent tables a list of commands joins two references by a type exactly if they were joined before, or are different and a command says so |
| GraphRebuild.DeriveCommandsSay | server/brain/knowledge-graph.ts:78-138 | The commands of a rebuild are exactly those some row of the five tables calls for, with references, titles, types and evidence |
| GraphRebuild.RebuildJoins | server/brain/knowledge-graph.ts:75-144 | After a rebuild of any consistent graph two references are joined by a type exactly if they were before, or are different and a row of the five tables says so |
| GraphRebuild.SectionsInOrder | server/brain/knowledge-graph.ts:78-138 | Commands come in the order tasks, outcomes, conflicts, decisions, dependencies |
| RateLimiter.StoredIsTheLastWindow | server/bap/rate-limiter.ts:39-42 | For every ordered history the pruned list of a bucket is the whole history, rejected calls included, cut to the last window |
| RateLimiter.StoredSurvives | server/bap/rate-limiter.ts:39-42 | Under any clock the pruned list holds exactly the calls that no later reading has put out of the window |
| RateLimiter.AdmittedIffRemembered | server/bap/rate-limiter.ts:40-51 | Under any clock a call is admitted if and only if at most `calls` calls, itself included, were never put out of the window |
| RateLimiter.NoWindowAdmitsMoreThanTheLimit | server/bap/rate-limiter.ts:39-56 | As long as the clock never comes back to a forgotten reading, every half-open interval of one window length admits at most `calls` calls of a bucket |
| RateLimiter.KeepsLimitIff | server/bap/rate-limiter.ts:36-56 | The bound holds for all histories of calls along a clock, all limits and all windows if and only if the clock never comes back to a reading it has put out of the window |
| RateLimiter.OrderedNeverComesBack | server/bap/rate-limiter.ts:38-40 | A clock that does not run backwards never does |
| RateLimiter.SilenceReopens | server/bap/rate-limiter.ts:40-56 | A call after a whole window of silence is admitted |
| RateLimiter.RejectedMeansFull | server/bap/rate-limiter.ts:40-54 | A call is admitted if and only if its window, itself included, holds at most `calls` calls of the full history |
| RateLimiter.BackwardClockBreaksTheLimit | server/bap/rate-limiter.ts:40-54 | With a clock that jumps back three calls pass in one window of a limit of two |
| RateLimiter.KeysAreInjective | server/bap/rate-limiter.ts:35 | With limit keys none of which ends in a colon and another, different pairs of agent and limit key never share a bucket |
| RateLimiter.LimitKeysAreSeparated | server/bap/rate-limiter.ts:17-35 | The limit keys the routers use, with and without an entry of their own, have that shape |
| RateLimiter.LimitHoldsPerAgent | server/bap/rate-limiter.ts:31-58 | In a mixed history of all agents and limits, no window admits more calls of one agent and limit than that limit, as long as the clock those calls saw never comes back |
| RateLimiter.LimitHoldsInOrder | server/bap/rate-limiter.ts:31-58 | In particular in every history whose clock does not run backwards |
| RateLimiter.Limiter.Handle | server/bap/rate-limiter.ts:31-58 | The stored windows always represent the full call history; a call passes exactly if that history admits it, with the stated remaining calls or retry delay |
| RateLimiter.LimitsAre | server/bap/rate-limiter.ts:16-24 | What each limit key allows, and every other key by default |
| Citations.SpacesSeparate | server/audit-search/grounding.ts:58 | Scanning for citations, or removing them, on both sides of white space separately is the same as on the whole text |
| Citations.ScannedTokensAreWellFormed | server/audit-search/grounding.ts:58-89 | Every token found has the shape type#id with both parts non-empty and of the allowed characters |
| Citations.ScanTakesTokens | server/audit-search/grounding.ts:58-89 | Wherever a bracketed type#id begins the scan takes it and goes on behind it, and passes over everything else; removing citations puts a space in the place of exactly those tokens |
| Citations.ScannedTokensNameTheirParts | server/audit-search/grounding.ts:72-89 | The reference, type and id listed for a token are those that stand in it |
| Citations.WhiteSpaceIs | server/audit-search/grounding.ts:58 | The characters JavaScript counts as white space |
| Sentences.CitationsOfSentences | server/audit-search/grounding.ts:72-143 | No split cuts a citation: the citations of the text are those of its sentences, in order |
| Sentences.SplittingKeepsEveryCharacter | server/audit-search/grounding.ts:138-143 | Splitting drops white space and nothing else |
| Sentences.SentencesAreSingle | server/audit-search/grounding.ts:138-143 | No sentence is empty, begins or ends with white space, or contains a line break, or white space after a full stop, question or exclamation mark |
| Sentences.SplittingUndoesJoining | server/audit-search/grounding.ts:138-143 | Two trimmed sentences joined by a line break are split into exactly these two |
| Numbers.FiguresOfSentences | server/audit-search/grounding.ts:138-143 | No split cuts a figure: the figures outside citations are those of the sentences, in order |
| Numbers.NoDigitEscapes | server/audit-search/grounding.ts:283-285 | Every ASCII digit of a text outside its citations belongs to exactly one of the figures checked, in order |
| Numbers.NoDigitsNoNumbers | server/audit-search/grounding.ts:283-285 | A text without ASCII digits has no figures to check |
| Numbers.NumbersAreNumerals | server/audit-search/grounding.ts:196-199 | What the scan calls a number is a whole numeral in the sense of the corpus rule |
| Numbers.NumeralIs | server/audit-search/grounding.ts:199 | A numeral is a group of digits, or two of them around a point |
| Numbers.NumbersTakeTheLongest | server/audit-search/grounding.ts:285 | Wherever a numeral begins the scan takes the longest one and goes on behind it, and passes over everything else |
| Numbers.AsciiCharacters | server/audit-search/grounding.ts:157-198 | Digits, letters and token characters by their ASCII codes |
| Numbers.LicensedNumeralsStandAlone | server/audit-search/grounding.ts:195-199 | A record's text licenses exactly the numerals that stand in it with no letter, digit or point on either side |
| Numbers.IdentifierLicensesSeven | server/audit-search/grounding.ts:195-199 | The identifier b-7-c licenses the figure 7 |
| Numbers.ClaimMeansTwoWords | server/audit-search/grounding.ts:155-159 | A sentence is a claim if and only if two separate whole runs of two or more ASCII letters stand in it outside its citations |
| Numbers.WithoutAsciiLettersNothingIsClaimed | server/audit-search/grounding.ts:155-159 | A sentence without ASCII letters outside its citations is never a claim |
| Grounding.GroundedNumbers | server/audit-search/grounding.ts:185-227 | The loops collect exactly the licensed figures of the records |
| Grounding.LicensedMeaning | server/audit-search/grounding.ts:185-227 | A figure is licensed exactly if a numeral that stands alone in a title, snippet, status, actor or date, or in a string on a path of at most six steps into the fields, gives it, or a number on such a path, or a rounded age, or the number of records or of records of one type, or it is an ordinal up to min(count, 10) |
| Grounding.RecordNumbersAre | server/audit-search/grounding.ts:188-212 | Of one record: exactly the figures its five texts show, by position in the text, its fields, by path into the value, and its rounded age |
| Grounding.HarvestIs | server/audit-search/grounding.ts:188-207 | Of one JSON value: exactly the figures of the numbers, and of the numerals standing alone in the strings, on paths that end at depth six at most |
| Grounding.DecimalSays | server/audit-search/grounding.ts:218-227 | A count is printed in digits that say it in decimal, without idle zeros |
| Grounding.ExtractCitations | server/audit-search/grounding.ts:72-89 | The scan returns the first occurrence of each reference in order |
| Grounding.DistinctRefs | server/audit-search/grounding.ts:72-89 | Exactly the references occurring in the text are returned |
| Grounding.DistinctHasNoRepeats | server/audit-search/grounding.ts:80-83 | No reference is returned twice |
| Grounding.DistinctInOrder | server/audit-search/grounding.ts:80-86 | References are listed in the order in which they first occur |
| Grounding.VerifySummaryGrounding | server/audit-search/grounding.ts:243-302 | A report is grounded if and only if the trimmed summary is non-empty, cites something, cites only retrieved records, has a citation in every sentence with two words of two ASCII letters and states only licensed figures; all report fields are determined |
| Grounding.AdmissibleIff | server/audit-search/grounding.ts:257-296 | The list of violations is empty exactly when the rules are met |
| Grounding.ViolationsAre | server/audit-search/grounding.ts:257-296 | Exactly what is objected to, with which detail and with the first sentence that contains it |
| Grounding.ResolvedAre | server/audit-search/grounding.ts:259-262 | The resolved references are those cited and retrieved, none twice |
| Grounding.GroundedSentenceBySentence | server/audit-search/grounding.ts:138-302 | The whole-text check is equivalent to: something is cited, and each sentence by itself cites only retrieved records, states only licensed figures and, if it has two words of two ASCII letters, contains a citation of a retrieved record |
| Grounding.UncitedLinePassesIff | server/audit-search/grounding.ts:274-280 | A line without citation and figure in front of a grounded one is let through if and only if it has fewer than two such words |
| Grounding.OneWordPassesUncited | server/audit-search/grounding.ts:274-280 | Every sentence of one word is let through uncited in front of any grounded line |
| Grounding.DownPassesUncited | server/audit-search/grounding.ts:274-280 | The summary of the two lines "Down." and "[a#b]" is admissible for any records with a#b among them |
| Grounding.ObjectionsAreQuoted | server/audit-search/grounding.ts:261-293 | Every unknown citation and ungrounded figure is reported with a sentence of the text that contains it |
| LikePattern.LikeArgMeansContains | server/audit-search/record-index.ts:237-239 | The pattern built for any term matches a text if and only if the term occurs in it, up to ASCII case (LIKE with ESCAPE as in section 8.5 of ISO/IEC 9075-2) |
| LikePattern.FoldMeans | server/audit-search/record-index.ts:237-239 | Up to case means: the same character, or the two forms of one ASCII letter |
| LikePattern.ClauseMeansEveryTerm | server/audit-search/record-index.ts:247-255 | With its parameters bound in order the clause has one parameter per placeholder and selects exactly the rows in which every term occurs in some column; without columns it selects all |
| LikePattern.TermClause | server/audit-search/record-index.ts:247-255 | The nested loops produce that clause and that parameter order |
| LikePattern.RecallMeansContainsIff | server/brain/decision-memory.ts:134-139 | The decision search's pattern means "contains" on all texts if and only if the term has no backslash |
| ToolLoop.RunToolLoop | server/agents/tool-loop.ts:101-263 | Against any model and tools: the result follows from a legal run; at most max + 1 model calls, counted exactly; iterations and tool calls bounded; cost is the sum of all calls; `done` if and only if the model finished by itself with a parsed reply that names no tool, with that reply's findings and no forced summary; `parse_failure` never |
| ToolLoop.TurnsFollowReplies | server/agents/tool-loop.ts:153-176 | In every run a turn is a request if and only if the reply is parsed, names a tool and does not say done, and a re-prompt if and only if it cannot be parsed or says both; it names the tool and arguments of the reply and costs what the reply says |
| ToolLoop.RepeatedMeansThrice | server/agents/tool-loop.ts:180-188 | The loop stops for repetition only at a third request for the very tool and arguments of the last two |
| ToolLoop.Loop | server/agents/tool-loop.ts:136-225 | The while loop ends in exactly the situation its stop reason names, having called the model only below the ceiling |
| ToolLoop.Iterate | server/agents/tool-loop.ts:136-225 | One iteration completes one legal turn or leaves for the stated reason |
| ToolLoop.RepeatGuard | server/agents/tool-loop.ts:180-188 | Two variables recognise exactly a third identical request in a row |
| ToolLoop.WatchMeans | server/agents/tool-loop.ts:180-188 | Those variables mean "the last two requests were this one", with parse failures in between or not |
| ToolLoop.Dispatch | server/agents/tool-loop.ts:190-213 | A tool runs if and only if it is registered and read-only; otherwise its refusal is the observation |
| ToolLoop.ConversationAlternates | server/agents/tool-loop.ts:119-225 | Messages alternate between user and assistant and number 1 + 2 per completed iteration; iteration i leaves the assistant's cut reply and the fixed re-prompt, or the request and its cut and wrapped observation |
| ToolLoop.RequestsNeverThrice | server/agents/tool-loop.ts:180-188 | In no run are three requests the same between which, parse failures aside, nothing else was asked |
| ToolLoop.OnlyReadOnlyToolsRun | server/agents/tool-loop.ts:190-213 | At every turn of every run the tool ran if and only if it is registered and read-only, as the call after those that ran before, and the observation is its result, its error or the refusal |
| ToolLoop.ExecutedAtMostTurns | server/agents/tool-loop.ts:202-203 | No run executes more tools than it has turns |
| ToolLoop.BillIsBounded | server/agents/tool-loop.ts:139-151 | With ceiling K > 0 and calls of at most c, the loop stays below K + c and the run with its summary below K + 2c |
| AgentLifecycle.CooldownShape | server/agents/agentLifecycle.ts:341-346 | The cooldown grows with the failures, is 15 minutes up to the first, doubles with each up to the fifth, and is 6 hours from the sixth on |
| AgentLifecycle.TracesAreLegal | server/agents/agentLifecycle.ts:300-324 | Whatever is requested, a row makes exactly the requested moves that the transition table allows |
| AgentLifecycle.TransitionTable | server/agents/agentLifecycle.ts:58-101 | Exactly which moves are legal: anybody to archived, live agents to standby, those with work in hand to blocked, and otherwise forward; which states are live and which busy |
| AgentLifecycle.ReadBack | server/agents/agentLifecycle.ts:109-124 | Which legacy status stands for which states, and what a row without a state is read as |
| AgentLifecycle.ArchivedIsAbsorbing | server/agents/agentLifecycle.ts:58-87 | Once archived, always archived |
| AgentLifecycle.HiringIsNeverSkipped | server/agents/agentLifecycle.ts:58-96 | From candidate to any live state a trace passes proposed, approved and hired, in that order |
| AgentLifecycle.WorkNeedsActivation | server/agents/agentLifecycle.ts:58-87 | From standby or blocked to working a trace passes standby, triggered and assigned, in that order |
| AgentLifecycle.LegacyStatusFollows | server/agents/agentLifecycle.ts:109-124 | After any list of requests the legacy column agrees with the state if and only if it did before or some request was accepted |
| AgentLifecycle.AgentStore.SetLifecycleState | server/agents/agentLifecycle.ts:269-291 | State, legacy status and the patched columns of one row, and one event |
| AgentLifecycle.WithStateIs | server/agents/agentLifecycle.ts:269-291 | Every column of the row: the new state, its legacy status, what the patch names, and the rest as before |
| AgentLifecycle.AgentStore.TransitionAgent | server/agents/agentLifecycle.ts:300-324 | A missing agent and an illegal move change nothing; a legal or repeated one writes row and event |
| AgentLifecycle.AgentStore.BlockAgent | server/agents/agentLifecycle.ts:353-386 | The failure is counted, the cooldown set, and the agent blocked unless its state cannot be |
| AgentLifecycle.BlockingIs | server/agents/agentLifecycle.ts:353-386 | Every column of a blocked row, for agents that can be blocked and for those that cannot |
| AgentLifecycle.AgentStore.RecordAgentSuccess | server/agents/agentLifecycle.ts:389-395 | The success is counted and the cooldown cleared; nothing else changes |
| ActivationService.RunWithActivation | server/agents/agentActivationService.ts:66-179 | For every start state and everything that can happen around the runner (not recorded, readable and unreadable exceptions, unusable and usable results), every column of the row afterwards, the whole audit trail and whether the caller sees an exception; other rows are untouched |
| ActivationService.Open | server/agents/agentActivationService.ts:73-126 | Standby, triggered and assigned agents are walked to working, every step audited; the walk ends after its first step if recording the activation throws |
| ActivationService.Settle | server/agents/agentActivationService.ts:141-176 | Skipped, unproductive and productive runs return the agent to standby on their three paths |
| ActivationService.SettleVerified | server/agents/agentActivationService.ts:156-163 | A run with evidence passes completed and verified on the way to standby |
| ActivationService.BusyAfterwardsIff | server/agents/agentActivationService.ts:66-179 | The final state is busy if and only if the agent was in standby or busy and the activation was not recorded, the rejection unreadable or the result unusable |
| ActivationService.VerifiedIff | server/agents/agentActivationService.ts:59-176 | A run is verified on its way back if and only if it returned, was not skipped, and carried evidence, proposed a task or detected a signal; it counts as a success if and only if it returned and was not skipped |
| ActivationService.RunsEndAtRest | server/agents/agentActivationService.ts:128-179 | From standby or a busy state a usable result ends in standby, a readable exception blocked with 15 minutes to 6 hours of cooldown ahead; cut short, a run counts no failure and sets no cooldown |
| ActivationService.TrailIsLegal | server/agents/agentLifecycle.ts:58-87 | The audit trail of a run is a legal path from the start state to the final one |
| AgentMatcher.IntersectionIsExact | server/agents/agentActivationRules.ts:231-234 | The intersection holds exactly the shared areas, each once |
| AgentMatcher.GateOpensIff | server/agents/agentActivationRules.ts:280-356 | Over all five channels, what exactly it takes for an activation to be allowed |
| AgentMatcher.RefusalNamesFirst | server/agents/agentActivationRules.ts:280-356 | Which obstacle a refusal names, and which areas a decision lists |
| AgentMatcher.RequirementsAre | server/agents/agentMatcher.ts:120-158 | What a task or signal requires, and when its risk is high or medium |
| AgentMatcher.PointsAre | server/agents/agentMatcher.ts:163-175 | Ten points for each required area among the areas, 25 for the task type, 8 for the data source |
| AgentMatcher.PointsIn | server/agents/agentMatcher.ts:106-175 | The same for an agent on the roster, from its row and, where a column is empty, its role |
| AgentMatcher.EligibleIff | server/agents/agentMatcher.ts:205-278 | Who is a candidate, from the row and the role: live, not the conductor, not cooling down, and with something to offer |
| AgentMatcher.StrongMatch | server/agents/agentMatcher.ts:163-190 | A score reaches 25 exactly if the agent owns the task type, shares three areas, or shares two and the data source |
| AgentMatcher.OwnershipDecidesIff | server/agents/agentMatcher.ts:163-190 | Owning the task type outranks an agent with up to one more area, with two or three more only as the data source allows, and never with four |
| AgentMatcher.StableSortSorts | server/agents/agentMatcher.ts:279 | Sorting puts higher scores first and loses no candidate |
| AgentMatcher.HeadIsFirstBest | server/agents/agentMatcher.ts:279-281 | The first candidate after sorting is the earliest of those with the highest score |
| AgentMatcher.ScoredAreEligible | server/agents/agentMatcher.ts:265-278 | The candidate list holds exactly the eligible agents with their scores |
| AgentMatcher.BestIsEligibleMaximum | server/agents/agentMatcher.ts:265-300 | The chosen agent is eligible with the highest score; nobody is chosen only if nobody is eligible; a human takes over exactly then, or if the risk is high and the score below 25 |
| AgentMatcher.BestIsFirst | server/agents/agentMatcher.ts:265-282 | The chosen agent is the first on the roster of the eligible ones with the highest score |
| AgentMatcher.BackupIsNextBest | server/agents/agentMatcher.ts:279-282 | The backup is a best one of the candidates without the chosen one |
| AgentMatcher.BusyAreCounted | server/agents/agentMatcher.ts:226-229 | The count of busy agents is the number of rows whose state is busy |
| AgentMatcher.MatchAgent | server/agents/agentMatcher.ts:265-300 | The loop, the sort and the high-risk rule produce the specified match |
| Conductor.MatchSignalsToAgents | server/agents/conductor.ts:84-157 | The loop with its early exit routes as the specification does |
| Conductor.RoutedIff | server/agents/conductor.ts:102-154 | Signal by signal, from a budget of max(0, 4 - busy): one is routed if and only if there is budget left and the first best candidate for it is strong enough for its risk, not used yet, active, live, free, shares an area by its stored scope, and nobody else busy covers one; and then to that agent |
| Conductor.ExhaustedStays | server/agents/conductor.ts:100-103 | Leaving the loop when the budget is used up loses no match |
| Conductor.MatchesAreGood | server/agents/conductor.ts:84-157 | Matched agents are distinct, number at most max(0, 4 - the rows whose state is busy), and each is live, free, not cooling down, not the conductor, shares an area with its signal, scores highest among the eligible, and on high risk at least 25 |
| Conductor.EmptyStoredScopeIsNeverRouted | server/agents/conductor.ts:124-142 | No agent with an empty stored scope is ever matched |
| Conductor.RunSignalPhase | server/agents/conductor.ts:286-308 | Each matched agent is run once; returned and failed runs, the time of each failure and how it left the row are determined, every matched agent's row is what its run made of it, and rows of others stay |
| Conductor.RunsAre | server/agents/conductor.ts:286-308 | Who returned and who failed, when and how released, in terms of what the runner did, run after run |
| Conductor.InputForIs | server/agents/conductor.ts:144-153 | What a matched agent is woken with: its signal, as trigger and evidence, and a confidence that grows with the areas matched up to certainty |
| Conductor.RunScheduledPhase | server/agents/conductor.ts:310-348 | Each remaining agent with a profile is looked at once and run exactly if due, free and out of cooldown at that moment |
| Conductor.RunsPartition | server/agents/conductor.ts:286-308 | Every match ends up either among the returned or among the failed runs |
| Conductor.AttemptsAreDistinctIff | server/agents/conductor.ts:286-348 | No agent is run twice in a cycle if and only if no failed agent was due and released at the schedule's look |
| Conductor.ShortCycleHasNoSecondRun | server/agents/conductor.ts:286-348 | A cycle under fifteen minutes contains no second run if each failure left its agent busy or cooling down for fifteen minutes |
| Conductor.ReadableReleasesLate | server/agents/agentActivationService.ts:128-139 | Readable exceptions, and those of agents in standby or busy, do leave their agents so |
| Conductor.FifteenMinutesAreTight | server/agents/agentLifecycle.ts:341-346 | After a first failure an agent may run again from exactly fifteen minutes on |
| CycleExamples.SecondRunHappens | server/agents/conductor.ts:223-364 | A whole cycle over a stored roster that runs an agent for a signal, and again by its schedule after the throw |
| CycleExamples.UnreadableThrowRunsTwice | server/agents/conductor.ts:223-364 | A cycle that takes no time and runs an agent that was hired but not put on standby twice, as its unreadable rejection set no cooldown |
| CycleExamples.BestMatchIsTurnedAway | server/agents/conductor.ts:111-142 | An agent with nothing stored in its scope, best match by its role, and no match of the cycle |
| Conductor.RunConductor | server/agents/conductor.ts:223-364 | A whole cycle: the matches are the routed ones, and the agents run in both phases are pairwise distinct exactly under that condition, in particular in cycles under fifteen minutes whose exceptions are readable or leave the agent busy |
| CostLedger.LedgersAgree | server/agents/agent-runner.ts:1831-1879 | After any series of runs, whatever was skipped, failed before its cost was written or failed after that, an agent's run rows, its running total and its daily rows add up to the same amount |
| CostLedger.MonthOvershootIsBounded | server/agents/agent-runner.ts:1356-1383 | Over any sequential series of runs costing at most c, whatever budgets up to B they read, no month's spending reaches B plus c |
| CostLedger.DayBoundIff | server/agents/agent-runner.ts:1385-1403 | For given times of the runs, and for all their costs up to c > 0 and all their caps, the agent's day stays below its largest cap plus c if and only if no run of the day slips past midnight, between its start and its gate, behind an earlier run of the day |
| CostLedger.DayOvershootIsBounded | server/agents/agent-runner.ts:1385-1403 | In particular if every gate is evaluated on the day its run started |
| CostLedger.DayOvershootInGeneral | server/agents/agent-runner.ts:1385-1403 | In every sequential series a day stays below its largest cap plus 2c, and below that cap plus c unless a run slips behind an earlier one |
| CostLedger.MidnightSlipExceedsCapPlusOne | server/agents/agent-runner.ts:1385-1403 | Two runs of 2 under a cap of 2, one gated after midnight, charge the day 4 |
| CostLedger.GateSeesTheMonth | server/agents/agent-runner.ts:1361-1364 | The gate's sum from the first of the month on is the month's own sum |
| CostLedger.CostStore.RunAgent | server/agents/agent-runner.ts:1356-2012 | The gates decide, then the run row and the three cost writes happen, exactly as the ledger specification says; a later throw turns the row to failed and keeps its cost |
| CostLedger.AfterIs | server/agents/agent-runner.ts:1831-2012 | What a run leaves in each of the three tables, by whether it was turned away, threw, finished or threw after that |
| CostLedger.GateIff | server/agents/agent-runner.ts:1356-1403 | After any sequential series, which gate turns a run away: the month and the day it is gated in have been charged the budget, or the cap, where these are above zero; otherwise it runs |
| CostLedger.ChargedWhere | server/agents/agent-runner.ts:1831-1879 | A run adds its cost to the month its end belongs to and to its agent's day it started on, and to no other, exactly if it passes its gates and finishes |
| CostLedger.CostStore.UpsertDaily | server/agents/agent-runner.ts:1868-1879 | The row with the same date, agent, business and provider gets the cost added, or a new row is written |
| CostLedger.AddDailyIs | server/agents/agent-runner.ts:1868-1879 | The first row with the key gets the cost, all others stay; without one a new row holds it |
| FailureStreak.ScanAgrees | server/agents/agent-runner.ts:572-582 | The scan of ten rows finds the true streak over all runs that were not skipped, up to ten |
| FailureStreak.StreakIs | server/agents/agent-runner.ts:561-582 | The true streak is the number of the agent's failed runs behind which every one that was not skipped failed |
| FailureStreak.OneOpenIff | server/system/system-issues.ts:155-162 | Over every history of runs and of status changes to any of the four statuses, an agent never has two open streak issues if and only if none is re-opened while another is open |
| FailureStreak.OneIssuePerStreak | server/agents/agent-runner.ts:561-616 | Then one issue is open right after a failure with a streak of three or more, be it of a run that ends or of one already recorded as complete, and none right after a completed run |
| FailureStreak.StepCounts | server/agents/agent-runner.ts:561-616 | Whatever the number of open issues before, what a run, its later failure or a status change makes of it; another agent's never changes |
| FailureStreak.OpenCountIs | server/agents/agent-runner.ts:588-616 | These counts are numbers of rows: issues of the agent whose status is open |
| FailureStreak.RaisesIff | server/agents/agent-runner.ts:582-600 | A failure raises an issue if and only if the streak is three or more and none of the agent's is open |
| FailureStreak.AcknowledgingRaisesAgain | server/agents/agent-runner.ts:582-600 | Acknowledged in the middle of a streak, an issue is raised a second time by the next failure |
| FailureStreak.ReopeningLeavesTwo | server/routes/intelligence.ts:98-107 | Dismissed, raised again and re-opened, two are open, and a completed run leaves one of them |
| FailureStreak.StepKeepsOne | server/agents/agent-runner.ts:561-616 | From at most one open issue, any step leaves at most one if and only if it does not re-open one while another is open |
| FailureStreak.IssueStore.CheckAgentFailureStreak | server/agents/agent-runner.ts:570-600 | The bounded counting loop decides as the unbounded streak does, and records min(streak, 10) |
| FailureStreak.CheckedIs | server/agents/agent-runner.ts:570-600 | An open issue with min(streak, 10) is written exactly if the streak is three or more and the agent has none open |
| FailureStreak.IssueStore.ResolveAgentFailureStreak | server/agents/agent-runner.ts:607-616 | Closes the one open issue of the agent, if any |
| FailureStreak.RecoveredIs | server/agents/agent-runner.ts:607-616 | The first open issue of the agent becomes resolved, every other stays |
| FailureStreak.IssueStore.UpdateSystemIssueStatus | server/system/system-issues.ts:155-162 | Sets any status on an existing issue and refuses one that does not exist |
| FailureStreak.IssueStore.EndRun | server/agents/agent-runner.ts:1831-1864 | A run ends and the hook of its status fires, as one step of the history |
| FailureStreak.ApplyIs | server/agents/agent-runner.ts:1831-2012 | What each step does to the rows: which run is logged or turned, which hook fires, which issue gets which status |
| FailureStreak.IssueStore.FailLater | server/agents/agent-runner.ts:2002-2012 | A run recorded as complete turns to failed and the check fires, as one step of the history; any other run is left alone |
| AgentInbox.FileRefinesLog | server/agents/agent-inbox.ts:85-216 | After any interleaving of deliveries and marks the trimmed file is the last fifty lines of the never-trimmed log with the same marks |
| AgentInbox.MarkThenTrim | server/agents/agent-inbox.ts:178-216 | Marking and trimming commute |
| AgentInbox.NothingLeftUnread | server/agents/agent-inbox.ts:202-205 | Marking by the timestamps of the unread entries leaves nothing unread |
| AgentInbox.LimitIsKeptIff | server/agents/agent-inbox.ts:166 | A limit is kept if and only if it is positive or there is nothing to read; zero reads everything, and any limit reads the end of what there is |
| AgentInbox.BufferIsLastOfEverything | server/agents/agent-runner.ts:530-532 | The learnings buffer is always the last fifty of everything ever learned |
| AgentInbox.Inbox.DeliverAgentBrief | server/agents/agent-inbox.ts:85-103 | Refuses empty fields and briefs to oneself; otherwise appends the brief, cut to 2000 characters and unread, and trims, keeping the file a view of the log |
| AgentInbox.Inbox.ReadInbox | server/agents/agent-inbox.ts:154-171 | The most recent entries, unread ones only if asked, with JavaScript's reading of the limit |
| AgentInbox.EntriesInOrder | server/agents/agent-inbox.ts:154-166 | Before the limit, exactly the entries of the lines that parse, or of the unread ones, are collected, in the order of the file |
| AgentInbox.Inbox.MarkInboxAsRead | server/agents/agent-inbox.ts:178-196 | Exactly the entries with one of the timestamps are marked, lines that do not parse are kept |
| AgentInbox.MarkedIs | server/agents/agent-inbox.ts:178-196 | Line by line: the mark is set on exactly the entries with one of the timestamps, nothing else changes |
| AgentInbox.Inbox.MarkAllInboxAsRead | server/agents/agent-inbox.ts:202-205 | Afterwards every entry in the file is marked as read, and nothing else has changed |
| ConflictTable.OneOpenPerPair | server/brain/conflict-engine.ts:82-122 | After any sequence of steps from the empty table, each business has at most one open conflict per unordered pair, and ids are distinct |
| ConflictTable.ClosedNeverReopens | server/brain/conflict-engine.ts:454-543 | Over any sequence of steps rows are never lost, keep what they are about, and no closed one reopens |
| ConflictTable.InsertReturnsTheOpenConflict | server/brain/conflict-engine.ts:82-122 | In every reachable table an insert that does not throw returns the id of the pair's one open conflict; it throws only for a taken id of a pair that has none |
| ConflictTable.InsertMeans | server/brain/conflict-engine.ts:82-122 | In any table without two open conflicts of a pair: the open conflict is returned and nothing written, or a row is added that says what was asked, with the category its type stands for, or the id is taken |
| ConflictTable.MatchingIsUnordered | server/brain/conflict-engine.ts:84-96 | The duplicate check finds exactly the open conflicts of the unordered pair in that business |
| ConflictTable.SweepTwiceIsSweepOnce | server/brain/conflict-engine.ts:143-172 | A detector's sweep repeated, with pairs either way round and fresh ids, records nothing and returns the ids of the first |
| ConflictTable.CleanUpIsRowByRow | server/brain/conflict-engine.ts:499-541 | The four updates together close exactly the stale open rows, each with the note of the first update that catches it |
| ConflictTable.SettledMeans | server/brain/conflict-engine.ts:499-541 | When a row is stale and the note it gets, read off the tables of tasks, goals and measured actions |
| ConflictTable.EveryStaleRowCountsOnce | server/brain/conflict-engine.ts:499-542 | The number reported is the number of stale rows, none counted by two updates |
| ConflictTable.CleanUpTwice | server/brain/conflict-engine.ts:499-543 | Cleaning up again in the same world finds and changes nothing |
| ConflictTable.ConflictStore.InsertConflict | server/brain/conflict-engine.ts:82-122 | Returns the existing open conflict or inserts one, keeping the table sound |
| ConflictTable.ConflictStore.Sweep | server/brain/conflict-engine.ts:143-172 | The collecting loop inserts one request after the other and stops at a throw |
| ConflictTable.SweepMeans | server/brain/conflict-engine.ts:143-172 | Behind the rows there were come only rows as requested, and each id returned is that of an open row of the requested pair |
| ConflictTable.NewIdsNeverThrow | server/brain/conflict-engine.ts:143-172 | With new ids no sweep throws |
| ConflictTable.ConflictStore.ResolveConflict | server/brain/conflict-engine.ts:454-460 | The row with that id becomes resolved with the given note, whatever its status was, and keeps everything else; all other rows stay |
| ConflictTable.ConflictStore.DismissConflict | server/brain/conflict-engine.ts:475-481 | The row with that id becomes dismissed with the given reason, whatever its status was, and keeps everything else; all other rows stay |
| ConflictTable.ConflictStore.AutoResolveStale | server/brain/conflict-engine.ts:499-543 | Every row becomes what its pair's state makes of it, and the number returned is that of the rows closed |
| Calibration.Accumulate | server/brain/calibration.ts:111-145 | The loop throws if and only if some agent, its prefix stripped, has a name that plain objects inherit; otherwise it leaves one bucket for each agent, holding the sums over that agent's rows |
| Calibration.AgentIs | server/brain/calibration.ts:119-120 | A row counts for an agent if it names it behind one of the two prefixes or, having neither, as it is |
| Calibration.RowsOfAre | server/brain/calibration.ts:118-127 | An agent's rows are those that name it, as often as they occur |
| Calibration.BucketOfOneMore | server/brain/calibration.ts:128-145 | The updates made for one row turn the sums over some rows into the sums with that row |
| Calibration.BinIndex | server/brain/calibration.ts:90-92 | The index is that of the fifth of [0, 1] the confidence lies in, the last for one and above, the first below zero |
| Calibration.BinsAddUp | server/brain/calibration.ts:128-145 | Weights, successes and counts of the five bins add up to the agent's totals |
| Calibration.BinsHoldTheirRange | server/brain/calibration.ts:90-145 | The average confidence stated in a bin lies in that bin's fifth |
| Calibration.AveragesAreMeans | server/brain/calibration.ts:150-151 | Bounds on all stated confidences bound the average, and the outcome average is one exactly if everything improved |
| Calibration.CalibratedIsSensible | server/brain/calibration.ts:150-181 | For confidences in [0, 1] averages, score and shrunken rates are in [0, 1], and the score is 1 - abs(error) without clamping |
| Calibration.CalibratedSays | server/brain/calibration.ts:150-153 | For any confidences: the averages, the error, the score with its clamping, and the counts of rows, false positives and false negatives |
| Calibration.BinsSay | server/brain/calibration.ts:155-166 | Each bin's rows, raw rate and rate with five observations of the overall rate added |
| Calibration.TrendAndOffsetSay | server/brain/calibration.ts:173-187 | When the trend is improving, declining or stable, and what the offset is |
| Calibration.ShrunkIsBetween | server/brain/calibration.ts:155-166 | A shrunken rate lies strictly between the raw and the overall rate when they differ, and equals the overall rate for an empty bin |
| Calibration.ShrunkDivides | server/brain/calibration.ts:155-166 | Its distances to the raw and to the overall rate are as five to the weight of the bin |
| Calibration.ShrinkageConserves | server/brain/calibration.ts:155-166 | The sum of (weight + 5) times shrunken rate over the bins is (W + 25) times the average outcome |
| Calibration.OffsetCentres | server/brain/calibration.ts:150-152 | The error is the one amount whose removal from every stated confidence makes the weighted confidences equal the weighted successes |
| Calibration.ScaledIff | server/brain/calibration.ts:168-181 | The offset is scaled by 1.5 exactly if two of the at most three latest errors exceed 0.05 |
| Calibration.ScalingBackfiresIff | server/brain/calibration.ts:168-181 | The scaling raises confidences further exactly after two overconfident periods followed by an underconfident one |
| Calibration.AdjustedIsProbabilityIff | server/brain/calibration.ts:260-266 | The adjusted confidence is in [0, 1] if and only if the stated one is or a non-zero offset applies |
| Calibration.AdjustedIs | server/brain/calibration.ts:260-266 | The offset is taken off, and what then lies outside [0, 1] is moved to the nearer end |
| Calibration.AdjustedIsMonotone | server/brain/calibration.ts:260-266 | A higher stated confidence is never adjusted to a lower one |
| Calibration.AdjustedCorrects | server/brain/calibration.ts:260-266 | An overconfident agent is never rated above its claim, an underconfident one never below |
| Calibration.CalibrationStore.Recalculate | server/brain/calibration.ts:100-229 | Unless that loop throws, in which case nothing is stored, exactly the agents with three outcomes or more get one new row, computed with the errors of their last two rows; confidences in [0, 1] keep every stored row sensible |
| Calibration.LastErrorsAre | server/brain/calibration.ts:173-177 | The errors of the last two rows, newest first |
| Calibration.CalibrationStore.AdjustedConfidence | server/brain/calibration.ts:234-266 | The latest row's offset is applied; without a row the confidence is returned, without a confidence nothing is |

## Left out

- Grounding.VerifySummaryGrounding: compares figures through an arbitrary canonical form, because the conversion `String(Number(raw))` is floating point; every statement holds for any such function.
- Calibration.CalibrationStore.Recalculate: exact arithmetic instead of floating point, recency weights as parameters in (0, 1], the query's rows as a parameter, no order of the result list, no acceptance and execution rates.
- CostLedger.MonthOvershootIsBounded: sequential runs only; runs in parallel could pass the same gate. Exact costs instead of floating point, and none of the three writes fails.
- FailureStreak.ScanAgrees: run rows are listed in the order in which they started; two with the same start time are not told apart. Which of several open issues a query finds first is taken to be the oldest.
- Conductor.RunConductor: profile files, connector checks, cron expressions (`due`), briefings and the task sweep are parameters or absent; matched agents of one cycle may have overlapping scopes, since matching reads the stored states only.
- AgentMatcher.MatchAgent: the knowledge areas of a signal, derived by regular expressions over its text, and the parsing of JSON scope columns are inputs.
- ActivationService.RunWithActivation: the runner does not touch the lifecycle, and the database takes every write to the agent's row and to the event log; `current_task_id` is not claimed to be cleared on the path with evidence; activation records are left out.
- ToolLoop.RunToolLoop: prompts, JSON extraction, sanitising and event logging are functions of an arbitrary world; a model or tool that throws does so with a readable message, as otherwise the loop itself throws and returns no result.
- AgentInbox.Inbox.DeliverAgentBrief: the entry's recipient, business and metadata columns, intelligence events, the immediate trigger and file errors.
- ConflictTable.ConflictStore.InsertConflict: titles, severity, descriptions, recommendations, webhooks and the decisions recorded on resolution; identifiers are parameters, and a taken one throws.
- Calibration.CalibrationStore.AdjustedConfidence: looks within one business; the lookup over all businesses and the trust tier are left out.
- RateLimiter.Limiter.Handle: response headers and the fallback from agent id to IP address; one process only.
- KnowledgeGraph.KnowledgeGraph.DeriveEdgesForBusiness: the relational rows it reads are a parameter, and identifiers are drawn from a counter instead of at random.
- Record search beyond its LIKE clause: fetching, scoring, snippets and date ranges.
- Run statuses and run counters of an agent's memory: the final write has no status guard and the counter is overwritten, so nothing is claimed about them.
- Hiring leases, webhook retries, pollers, routes, sessions, cryptography, the client and the scripts.
