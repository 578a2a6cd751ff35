# Course allocation by distributed local search — a Dafny model

The system allocates university courses to students. Each student is an agent of
a distributed constraint optimisation problem (DCOP). An agent's domain values
are rows of a combination table, each row a fixed-size set of courses. The agent
scores a value by its own course ratings (unary utility). It adds a friendship
weight for every course it shares with a friend (binary utility). Every course
has a capacity, the course limit, and an assignment's overflow is the number of
enrolments above it.

Agents exchange `ASSIGNMENT` and `START` messages. They run one of several
search strategies:

- DSA: stochastic local search.
- DSA_RC and DSA_RCUnary: DSA with a repair step that leaves an overloaded course.
- HBS and HBSUnary: a hill-climbing token that sweeps a ring of agents.
- IterativeUnary and IterativeAgent: a single chain of best responses.
- Greedy and GreedyAgent: one independent best response each.
- CourseAlgoAgent: repair search with an anytime incumbent, from the earlier agent framework.

A shared builder does the course bookkeeping:

- the enrolment map of an assignment;
- the overflow;
- a value's utility;
- the two-phase best response `find_max_value`;
- the report written once every agent has finished.

Two `FirstModel` generators build the problem instances. They sample student
rankings into score rows and draw friendship rows. They enumerate the course
combinations. The older one also shuffles which student each agent stands for.

The model has one Dafny module per agent source file; the builder and the generators are split by concern:

| module | models |
|---|---|
| `Common` | options, the assignment view, the scan-for-best loop |
| `BuilderLoads`, `BuilderCost`, `BuilderSearch`, `BuilderReport` | the builder |
| `Strategies` | the domain filters, the beta probability and the anytime rule that the repair agents share |
| one module per agent | that agent |
| `Combinations`, `GeneratorText`, `RandomPicks`, `FirstModel`, `FirstModelGen` | the generators |

Agents that update fields in place are classes. Each has a `Valid()` invariant,
and its methods are proved against pure decision functions. Those functions are
characterised by lemmas. The agents interleave through message passing; the
model runs them in one sequential order, where each step is one handler call.

DSA, DSA_RC and HBS call the builder's `find_max_value` on an enrolment map built
from the agent's view just before the call. The model runs that search as it is
written, including the repeated withdrawal described under "## Findings", on a
fresh map. The corrected search is modelled beside it, as the corrected half of
that finding.

The covering filter of the repair agents (noValidDomain) keeps every value whose
combination holds all the courses within the limit, whatever its other courses
hold (Strategies.CoversMeaning).

## Model

| member | source | states |
|---|---|---|
| BuilderLoads.LoadMapMeaning | code/java/agents/Builder.java:104-115 | a course is a key of mapAssignments exactly when some assigned agent's combination holds it, and its value is the number of times it occurs in assigned combinations |
| BuilderLoads.LoadOfIsHolders | code/java/agents/Builder.java:104-115 | when no combination repeats a course, a course's load is the number of assigned agents enrolled in it |
| BuilderLoads.LoadMapPositive | code/java/agents/Builder.java:104-115 | every key of the enrolment map has a load of at least 1 |
| BuilderLoads.MapAssignments | code/java/agents/Builder.java:104-115 | the nested loop builds exactly the enrolment map LoadMap |
| BuilderLoads.Over | code/java/agents/Builder.java:94-102 | a course contributes excess exactly when its load is above the limit |
| BuilderLoads.TotalExcessZeroIff | code/java/agents/Builder.java:94-102 | calculate_extra_courses is never negative, and it is zero iff no course is above the limit |
| BuilderLoads.TotalExcessAtLeast | code/java/agents/Builder.java:94-102 | the total overflow is at least any single course's excess |
| BuilderLoads.CalculateExtraCourses | code/java/agents/Builder.java:94-102 | the loop over the key set computes the order-independent total overflow |
| BuilderLoads.SelfKeyMeaning | code/java/agents/Builder.java:117-128 | checkSelfAssignment returns "" iff no course of the value is above the limit, and otherwise the first-scanned course of maximal load among those above it |
| BuilderLoads.SelfKeyHot | code/java/agents/Builder.java:117-128 | a non-empty answer is an overloaded course of the value |
| BuilderLoads.CheckSelfAssignment | code/java/agents/Builder.java:117-128 | the loop returns SelfKey of the value's combination |
| BuilderLoads.NewKeyMeaning | code/java/agents/Builder.java:138-145 | the post-move scan returns "" iff every course is absent or below the limit, and otherwise the last-scanned course of maximal load at or above the limit |
| BuilderLoads.NewAssignmentKey | code/java/agents/Builder.java:138-145 | the second loop returns NewKey |
| BuilderLoads.Decremented | code/java/agents/Builder.java:133-137 | withdrawing one enrolment per course keeps the key set |
| BuilderLoads.CourseLoads.WithdrawValue | code/java/agents/Builder.java:133-137 | the caller's map loses one enrolment per course of the old value, unless that is -1 |
| BuilderLoads.CourseLoads.CheckNewAssignment | code/java/agents/Builder.java:130-146 | checkNewAssignment withdraws the old value in place and then scans the new value against the changed map |
| BuilderLoads.WithdrawTwice | code/java/agents/Builder.java:130-146 | a second call withdraws the old value's enrolments again, so its courses' loads fall twice |
| BuilderLoads.MinExcessMeaning | code/java/agents/Builder.java:292-300 | checkMinAssignment equals the sum of the value's courses' excess, is never negative, and is zero iff no course of the value is above the limit |
| BuilderCost.NumericValue | code/java/agents/Builder.java:302-311 | for an ASCII character, Character.getNumericValue yields -1..35: a digit its own value, a letter 10..35 in either case, anything else -1 |
| BuilderCost.Courses | code/java/agents/Builder.java:302-311 | convertDomain2Courses yields an array of exactly numCourses entries |
| BuilderCost.UnaryOfValue | code/java/agents/Builder.java:313-319 | a value's unary utility is the sum of the agent's ratings of its courses, plus the rating of course 0 once per padding entry |
| BuilderCost.BinaryUpTo | code/java/agents/Builder.java:321-332 | the binary utility summed over any prefix of the friend columns is never negative |
| BuilderCost.AgentCostFrame | code/java/agents/Builder.java:321-337 | an agent's utility depends on the others only through the friends it weighs positively |
| BuilderCost.AgentCostWithoutFriends | code/java/agents/Builder.java:321-337 | a friend without a usable value is skipped, so with no such friend the utility is the unary part alone |
| BuilderCost.BinaryBounds | code/java/agents/Builder.java:321-332 | the binary utility lies between 0 and numCourses times the sum of the positive friendship weights |
| BuilderCost.IntersectionSize | code/java/agents/Builder.java:394-404 | intersectionSize is the number of distinct common entries, at most either array's length |
| BuilderCost.PairMatchesShared | code/java/agents/Builder.java:148-157 | without repeated tokens, intersection_courses counts the shared courses |
| BuilderSearch.Phase2Last | code/java/agents/Builder.java:356-369 | phase 2 keeps its start or ends on the last value of least excess and, among those, highest utility |
| BuilderSearch.FindMaxEmpty | code/java/agents/Builder.java:339-372 | an empty domain yields -1 |
| BuilderSearch.FindMaxInDomain | code/java/agents/Builder.java:339-372 | the result is -1 or a domain value, and a non-empty domain whose excess values stay below Integer.MAX_VALUE always yields a domain value |
| BuilderSearch.CleanMeaning | code/java/agents/Builder.java:130-146 | a value passes the post-move check iff each of its courses stays within the limit once the agent joins it |
| BuilderSearch.FindMaxPhase1 | code/java/agents/Builder.java:348-355 | when some value passes the check with utility above -1, the result is the first such value of highest utility, and all its courses stay within the limit |
| BuilderSearch.FindMaxPhase2 | code/java/agents/Builder.java:356-369 | when phase 1 accepts nothing, the result has the least excess and, among those, the highest utility, the last one scanned on ties |
| BuilderSearch.FindMaxValue | code/java/agents/Builder.java:339-372 | the corrected search, which withdraws the agent's own enrolments once, returns FindMax |
| BuilderSearch.ScanClean | code/java/agents/Builder.java:348-355 | phase 1's loop returns the first clean value of highest utility |
| BuilderSearch.ScanExcess | code/java/agents/Builder.java:356-369 | phase 2's loop returns the lexicographic best, least excess first and then utility |
| BuilderSearch.SearchLands | code/java/agents/Builder.java:339-372 | with a non-negative limit and narrow combinations, the search over a non-empty domain lands on one of its values |
| BuilderSearch.FindMaxValueAsWritten | code/java/agents/Builder.java:339-372 | the search as the source runs it, on the caller's map, returns FindMaxAsWritten and leaves the map it computes |
| BuilderSearch.Phase1AsWrittenOutcome | code/java/agents/Builder.java:348-355 | phase 1 as written keeps its start or ends on a domain value, and its repeated withdrawals never raise a load of the caller's map |
| BuilderSearch.FindMaxAsWrittenInDomain | code/java/agents/Builder.java:339-372 | the search as written answers -1 or a domain value, leaves no load higher than it was, and answers a domain value for a non-empty domain whose excess values on the map it leaves stay below Integer.MAX_VALUE |
| BuilderSearch.SearchLandsAsWritten | code/java/agents/Builder.java:339-372 | with a non-negative limit and narrow combinations, the search as written over a non-empty domain lands on one of its values |
| BuilderSearch.ScanCleanAsWritten | code/java/agents/Builder.java:348-355 | phase 1 as written withdraws the old value from the caller's map once per post-move check |
| BuilderSearch.RepeatedWithdrawal | code/java/agents/Builder.java:348-355 | on a concrete instance, the search as written accepts a value whose course is over the limit after the move, while the corrected search does not |
| BuilderReport.Utilities | code/java/agents/Builder.java:219-225 | one utility per agent, 0 for an unassigned slot |
| BuilderReport.TotalSplit | code/java/agents/Builder.java:219-241 | calculateTotalCost equals calculateTotalUnary plus calculateTotalBinary |
| BuilderReport.TotalBinaryNonNegative | code/java/agents/Builder.java:235-241 | the total binary utility is never negative |
| BuilderReport.GiniZeroIff | code/java/agents/Builder.java:80-92 | the Gini numerator is non-negative, and zero iff all utilities are equal |
| BuilderReport.SampleIds | code/java/agents/Builder.java:286-290 | three sampled agents, all in range and in ascending order, and distinct when n >= 3 |
| BuilderReport.PairMatchesZeroIff | code/java/agents/Builder.java:148-157 | intersection_courses is zero iff the combinations share no course |
| BuilderReport.FindFriendsZeroIff | code/java/agents/Builder.java:167-173 | an agent's friend-course count is zero iff it shares no course with any neighbour |
| BuilderReport.CalcFriendsZeroIff | code/java/agents/Builder.java:159-165 | a run's friend count is zero iff no agent shares a course with any neighbour |
| BuilderReport.MakeReport | code/java/agents/Builder.java:247-284 | the report line carries the total, the unary and binary parts, the friend count, three sampled utilities and the overflow |
| BuilderReport.Aggregator.constructor | code/java/agents/Builder.java:50-62 | the counters start at zero and no line is written |
| BuilderReport.Aggregator.Rebuild | code/java/agents/Builder.java:50-62 | a later builder resets the count, sets the overflow to Integer.MAX_VALUE, and keeps the number of lines and the lines |
| BuilderReport.Aggregator.Update | code/java/agents/Builder.java:68-72 | one more finished agent is counted |
| BuilderReport.Aggregator.SetExtraCourses | code/java/agents/Builder.java:520-522 | the overflow to report is replaced |
| BuilderReport.Aggregator.Clear | code/java/agents/Builder.java:74-78 | the count resets, the overflow restarts at 0 rather than Integer.MAX_VALUE, and the written lines stay |
| BuilderReport.Aggregator.Output | code/java/agents/Builder.java:247-284 | a line is written and the counters cleared only once all agents have finished; otherwise nothing changes |
| BuilderReport.Aggregator.OutputOnce | code/java/agents/Builder.java:247-284 | a second output writes nothing until n more agents have finished |
| Common.ArgMaxFirst | code/java/agents/binary/Greedy.java:40-53 | a `>` scan keeps its start or ends on the first eligible value of maximal cost |
| Common.ArgMaxLast | code/java/agents/unary/DSA_RCUnary.java:152-163 | a `>=` scan keeps its start or ends on the last eligible value of maximal cost |
| Strategies.WithoutKeyMeaning | code/java/agents/binary/DSA_RC.java:59-71 | validDomain keeps exactly the domain values whose combination lacks the key, and adds none |
| Strategies.ValidDomain | code/java/agents/binary/DSA_RC.java:59-71 | the loop returns the domain without the values holding the key |
| Strategies.CoveringValuesMeaning | code/java/agents/binary/DSA_RC.java:73-91 | noValidDomain keeps exactly the values that contain as many valid courses as there are |
| Strategies.CountInDuplicateFree | code/java/agents/binary/DSA_RC.java:73-91 | courses_contained counts the valid courses a combination holds |
| Strategies.CoversMeaning | code/java/agents/binary/DSA_RC.java:73-91 | for a combination without repeats, a value is kept iff every course within the limit belongs to it |
| Strategies.NoValidDomain | code/java/agents/binary/DSA_RC.java:73-91 | the loops return the covering values of the domain |
| Strategies.CollectValid | code/java/agents/binary/DSA_RC.java:73-91 | the map loop gathers exactly the courses within the limit |
| Strategies.CountContained | code/java/agents/binary/DSA_RC.java:73-91 | the loop counts the positions of a combination that hold a valid course |
| Strategies.CleanCountOrder | agents/CourseAlgoAgent.java:296-300 | counting with `<` never gives more than counting with `<=`, and the two agree iff no course sits at the limit |
| Strategies.CountClean | code/java/agents/binary/DSA_RC.java:141-146 | the loop counts the courses strictly (or, inclusively, at most) below the limit |
| Strategies.BetaRange | code/java/agents/binary/DSA_RC.java:123-127 | beta is positive for an overloaded course; it is at most 1 iff the limit is not negative, and below 1 iff the limit is positive |
| Strategies.Anytime | code/java/agents/binary/DSA_RC.java:129-135 | the incumbent and shared overflow after one tick, by the two-key rule |
| Strategies.AnytimeMonotone | code/java/agents/binary/DSA_RC.java:129-135 | the shared best overflow never rises, at equal overflow the incumbent's cost never falls, and a repeated tick changes nothing |
| Strategies.ScanBest | code/java/agents/binary/DSA_RC.java:151-160 | the set-draining loop returns the ArgMax scan of the values in order |
| Strategies.AllOk | code/java/agents/binary/DSA_RC.java:151-160 | the unfiltered fallback treats every value as eligible |
| Strategies.StrictFallback | code/java/agents/binary/DSA_RC.java:151-161 | the `>` fallback from (0, -1) gives 0 when the set is empty or no cost exceeds -1, and otherwise the first value of highest cost |
| Strategies.LooseFallback | code/java/agents/unary/DSA_RCUnary.java:152-163 | the `>=` fallback gives 0 when the set is empty or every cost is below -1, and otherwise the last value of highest cost |
| Dsa.DsaDecideMeaning | code/java/agents/binary/DSA.java:63-89 | the value changes iff the draw is below p; the new value is find_max_value as written over the domain, which is -1 or a domain value, and a domain value whenever the domain is non-empty, the limit is not negative and the combinations are narrow enough that no excess reaches Integer.MAX_VALUE |
| Dsa.DsaAgent.constructor | code/java/agents/binary/DSA.java:43-53 | a fresh agent with an empty view and nothing submitted |
| Dsa.DsaAgent.AssignNewValue | code/java/agents/binary/DSA.java:96-100 | the value is recorded, submitted and broadcast to every other agent |
| Dsa.DsaAgent.Start | code/java/agents/binary/DSA.java:43-53 | the first agent creates the shared state, and every agent starts from an empty view with its random first value |
| Dsa.DsaAgent.HandleAssignment | code/java/agents/binary/DSA.java:56-58 | another agent's value is recorded in the view |
| Dsa.DsaAgent.Finish | code/java/agents/binary/DSA.java:64-75 | the agent is counted and finishes; the last writes its incumbent and drops the builder |
| Dsa.DsaAgent.Tick | code/java/agents/binary/DSA.java:63-89 | the incumbent follows the anytime rule, then find_max_value as written, run on a freshly built map, sets the value as DsaDecide says |
| DsaRc.BetaKey | code/java/agents/binary/DSA_RC.java:116-120 | the most overloaded course of the submitted value, or "" when there is none or the lookup throws |
| DsaRc.DecideMeaning | code/java/agents/binary/DSA_RC.java:137-166 | one draw decides both branches; a repair either runs find_max_value as written over the values avoiding the overloaded course, or lands on a value covering every valid course; without one, exploration is find_max_value as written over the whole domain |
| DsaRc.ChooseValue | code/java/agents/binary/DSA_RC.java:139-166 | the scans, with find_max_value as written on a freshly built map, return the value Decide names |
| DsaRc.Shared.constructor | code/java/agents/binary/DSA_RC.java:41-48 | no incumbent and no builder yet |
| DsaRc.Shared.Offer | code/java/agents/binary/DSA_RC.java:129-135 | the shared incumbent follows the two-key anytime rule |
| DsaRc.Agent.constructor | code/java/agents/binary/DSA_RC.java:41-48 | a fresh agent with an empty view |
| DsaRc.Agent.AssignNewValue | code/java/agents/binary/DSA_RC.java:169-173 | the value is recorded, submitted and broadcast |
| DsaRc.Agent.Start | code/java/agents/binary/DSA_RC.java:41-48 | the first agent creates the builder; every agent starts with an empty view and its random first value |
| DsaRc.Agent.HandleAssignment | code/java/agents/binary/DSA_RC.java:52-54 | another agent's value is recorded in the view |
| DsaRc.Agent.Finish | code/java/agents/binary/DSA_RC.java:97-105 | the agent finishes; the last writes the shared incumbent and drops the builder |
| DsaRc.Agent.Tick | code/java/agents/binary/DSA_RC.java:107-166 | the anytime update, then the decision of Decide, whose searches are find_max_value as written |
| DsaRcUnary.DecideUnaryMeaning | code/java/agents/unary/DSA_RCUnary.java:102-170 | the repair draw and the exploration draw each decide their own branch; the repair asks the unary search over the values without the overloaded course, or drains the covering values with `>=` |
| DsaRcUnary.ChooseValueUnary | code/java/agents/unary/DSA_RCUnary.java:142-169 | the scans return the value DecideUnary names |
| DsaRcUnary.UnaryShared.constructor | code/java/agents/unary/DSA_RCUnary.java:44-54 | no builder yet, empty utility arrays |
| DsaRcUnary.UnaryAgent.constructor | code/java/agents/unary/DSA_RCUnary.java:44-54 | a fresh agent with an empty view |
| DsaRcUnary.UnaryAgent.AssignNewValue | code/java/agents/unary/DSA_RCUnary.java:177-181 | the value is recorded, submitted and broadcast |
| DsaRcUnary.UnaryAgent.Start | code/java/agents/unary/DSA_RCUnary.java:44-54 | the first agent creates the shared state; every agent starts from an empty view with its random first value |
| DsaRcUnary.UnaryAgent.HandleAssignment | code/java/agents/unary/DSA_RCUnary.java:58-60 | another agent's value is recorded in the view |
| DsaRcUnary.UnaryAgent.Finish | code/java/agents/unary/DSA_RCUnary.java:103-113 | the agent is counted and finishes; the builder and the arrays stay live until the last agent finishes |
| DsaRcUnary.UnaryAgent.Tick | code/java/agents/unary/DSA_RCUnary.java:114-169 | the agent's own incumbent follows the anytime rule, then DecideUnary applies |
| Hbs.HandOffAfter | code/java/agents/binary/HBS.java:77-99 | START goes to the next agent on even rounds and to the previous one on odd rounds, or nowhere at the end of a sweep |
| Hbs.Sweep | code/java/agents/binary/HBS.java:77-99 | sweep r has one turn per agent of the ring |
| Hbs.ScheduleLength | code/java/agents/binary/HBS.java:77-99 | s sweeps are s * n turns |
| Hbs.ScheduleCount | code/java/agents/binary/HBS.java:77-99 | each agent acts exactly once per sweep |
| Hbs.SweepHandOff | code/java/agents/binary/HBS.java:77-99 | within a sweep each agent passes START to its successor, and consecutive sweeps meet at the same end agent |
| Hbs.Advance | code/java/agents/binary/HBS.java:77-99 | one turn extends the schedule by the token holder and moves the token along it |
| Hbs.SettledStep | code/java/agents/binary/HBS.java:35-38 | a turn adds the holder, with a value of its domain, to the agents that hold one |
| Hbs.EveryAgentActs | code/java/agents/binary/HBS.java:77-99 | with at least one sweep every agent takes a turn |
| Hbs.ReadyAfterRun | code/java/agents/binary/HBS.java:63-75 | a fully assigned ring whose values come from the domains can be reported |
| Hbs.Reply | code/java/agents/binary/HBS.java:35-38 | a turn answers find_max_value as written over the holder's domain, and that answer is always a value of the domain |
| Hbs.Sweeps | code/java/agents/binary/HBS.java:77-99 | a run makes at least one sweep, since the first starts whatever `it` is, and exactly `it` sweeps when it >= 1 |
| Hbs.StepOnTrack | code/java/agents/binary/HBS.java:77-99 | whatever value the holder takes, the token moves to the next agent of the schedule |
| Hbs.StepKeeps | code/java/agents/binary/HBS.java:35-38 | a turn with a domain value keeps the assignment settled |
| Hbs.Ring.constructor | code/java/agents/binary/HBS.java:41-50 | empty views, and the first agent holds the token |
| Hbs.Ring.Iterate | code/java/agents/binary/HBS.java:77-99 | the ring's state after the turn is Step applied to the holder's reply: it takes the answer of find_max_value as written, on a map rebuilt from its view, and hands the token on, or advances rounds at the end of a sweep |
| Hbs.Ring.Turn | code/java/agents/binary/HBS.java:35-38 | one turn, with the holder moving to the answer of find_max_value as written, keeps the ring on schedule and settled, and moves the token forward |
| Hbs.Ring.Run | code/java/agents/binary/HBS.java:41-99 | the token makes exactly Sweeps(it) sweeps of as-written find_max_value answers, after which every agent holds a value of its domain |
| Hbs.Ring.Finish | code/java/agents/binary/HBS.java:63-75 | the last agent to finish sets the overflow of the live assignment, writes the line and resets rounds |
| HbsUnary.SlotOf | code/java/agents/unary/HBSUnary.java:89-102 | an agent's accumulator slot is 0, 1 or 2, or -1 when it has none |
| HbsUnary.Owner | code/java/agents/unary/HBSUnary.java:89-102 | the agent that feeds slot k is an agent of the ring, or -1 |
| HbsUnary.SlotOwner | code/java/agents/unary/HBSUnary.java:89-102 | an agent feeds slot k exactly when it is the slot's owner |
| HbsUnary.SlotsFed | code/java/agents/unary/HBSUnary.java:89-102 | slot 0 is always fed, slot 1 from two agents on, slot 2 only from four agents on |
| HbsUnary.Credit | code/java/agents/unary/HBSUnary.java:89-102 | x is added to slot k and the other slots stay as they were |
| HbsUnary.TallyStep | code/java/agents/unary/HBSUnary.java:89-102 | crediting after each turn keeps each slot at its owner's turn count and gain sum |
| HbsUnary.UnaryRing.constructor | code/java/agents/unary/HBSUnary.java:45-56 | zeroed accumulators, empty views, the token at the first agent |
| HbsUnary.UnaryRing.AssignUtility | code/java/agents/unary/HBSUnary.java:89-102 | the holder's gain and one turn go to its slot, if it has one |
| HbsUnary.UnaryRing.Iterate | code/java/agents/unary/HBSUnary.java:104-127 | the holder credits its contribution, takes the unary best response and hands the token on as in HBS |
| HbsUnary.UnaryRing.Turn | code/java/agents/unary/HBSUnary.java:38-42 | one turn keeps the schedule and the tallies |
| HbsUnary.UnaryRing.Run | code/java/agents/unary/HBSUnary.java:45-127 | Sweeps(it) sweeps, after which every agent holds a value and each fed slot counted one turn per sweep |
| HbsUnary.UnaryRing.Finish | code/java/agents/unary/HBSUnary.java:69-82 | the last agent sets the overflow, resets rounds and drops the accumulators |
| IterativeUnary.Chain | code/java/agents/unary/IterativeUnary.java:32-35 | the chained view has one slot per agent |
| IterativeUnary.ChainShape | code/java/agents/unary/IterativeUnary.java:74-82 | each of the first k agents holds its answer to the view left by the agents before it |
| IterativeUnary.Upto | code/java/agents/unary/IterativeUnary.java:60-72 | the ids 0..k-1, in ascending order |
| IterativeUnary.SequentialPass.constructor | code/java/agents/unary/IterativeUnary.java:38-48 | the builder is created, last_done is lowered, views are empty |
| IterativeUnary.SequentialPass.Iterate | code/java/agents/unary/IterativeUnary.java:74-82 | the holder takes the unary best response and passes START on; the last raises last_done |
| IterativeUnary.SequentialPass.Run | code/java/agents/unary/IterativeUnary.java:32-82 | after the pass the view is Chain(n) and last_done is up |
| IterativeUnary.SequentialPass.OnMailBoxEmpty | code/java/agents/unary/IterativeUnary.java:60-72 | agents finish strictly in id order; the last sets the overflow from its view and drops the builder |
| Greedy.ChoiceMeaning | code/java/agents/binary/Greedy.java:40-53 | 0 for an empty domain or when no cost exceeds -1, otherwise the first value of highest unary cost; peers' values play no part |
| Greedy.FindMaxValue | code/java/agents/binary/Greedy.java:40-53 | the draining loop returns Choice |
| Greedy.Statics.constructor | code/java/agents/binary/Greedy.java:31-38 | no builder yet |
| Greedy.Agent.constructor | code/java/agents/binary/Greedy.java:31-38 | a fresh agent with an empty view |
| Greedy.Agent.AssignNewValue | code/java/agents/binary/Greedy.java:72-76 | the value is recorded, submitted and broadcast |
| Greedy.Agent.Start | code/java/agents/binary/Greedy.java:31-38 | the agent takes find_max_value's answer at once |
| Greedy.Agent.HandleAssignment | code/java/agents/binary/Greedy.java:56-58 | another agent's value is recorded in the view |
| Greedy.Agent.Finish | code/java/agents/binary/Greedy.java:61-70 | the last agent sets the overflow of its view, writes it and drops the builder |
| GreedyAgent.Statics.constructor | agents/GreedyAgent.java:41-48 | Java's zero defaults for the statics |
| GreedyAgent.Statics.Init | agents/GreedyAgent.java:41-48 | the first agent of a run raises `first` and stamps the time; later calls change nothing |
| GreedyAgent.Statics.CalculateExtraCourses | agents/GreedyAgent.java:137-143 | the overflow of the map is added to the running total |
| GreedyAgent.Statics.Clear | agents/GreedyAgent.java:160-164 | the total and the count are zeroed and `first` is lowered |
| GreedyAgent.Agent.constructor | agents/GreedyAgent.java:51-59 | a fresh agent with an empty view |
| GreedyAgent.Agent.AssignNewValue | agents/GreedyAgent.java:178-182 | the value is recorded, submitted and broadcast |
| GreedyAgent.Agent.Start | agents/GreedyAgent.java:51-59 | init once, then the value of highest added cost on the empty view |
| GreedyAgent.Agent.HandleAssignment | agents/GreedyAgent.java:77-79 | another agent's value is recorded in the view |
| GreedyAgent.Agent.OnMailBoxEmpty | agents/GreedyAgent.java:146-158 | the agent that completes the count adds its view's overflow, writes the line and clears the statics |
| IterativeAgent.FullCount | agents/IterativeAgent.java:62-70 | the number of positions naming a full course, at most the combination's length |
| IterativeAgent.FullCountPositive | agents/IterativeAgent.java:52-70 | the count is positive iff the combination names some full course |
| IterativeAgent.CheckSelfAssignment | agents/IterativeAgent.java:52-60 | the loop says whether some course of the value is full |
| IterativeAgent.CheckMinAssignment | agents/IterativeAgent.java:62-70 | the loop counts the value's full courses |
| IterativeAgent.Phase2Taken | agents/IterativeAgent.java:103-115 | the second scan ends on its start or on a value that no later value beats |
| IterativeAgent.ChoiceMeaning | agents/IterativeAgent.java:91-117 | the first value of highest added cost among those with no full course, else the second scan's value; -1 only for an empty domain |
| IterativeAgent.FindMaxValue | agents/IterativeAgent.java:91-117 | the two draining scans return Choice |
| IterativeAgent.Statics.constructor | agents/IterativeAgent.java:38-50 | Java's zero defaults for the statics |
| IterativeAgent.Agent.constructor | agents/IterativeAgent.java:44-50 | a fresh agent with an empty view |
| IterativeAgent.Agent.AssignNewValue | agents/IterativeAgent.java:228-234 | the value is recorded, submitted and broadcast, and START passes on unless this is the last agent |
| IterativeAgent.Agent.Iterate | agents/IterativeAgent.java:38-41 | the map is rebuilt from the view and kept, and find_max_value's answer is taken |
| IterativeAgent.Agent.Start | agents/IterativeAgent.java:44-50 | only the first agent stamps the time and iterates |
| IterativeAgent.Agent.HandleAssignment | agents/IterativeAgent.java:120-122 | another agent's value is recorded in the view |
| IterativeAgent.Agent.OnMailBoxEmpty | agents/IterativeAgent.java:197-209 | the last agent adds the overflow of the map kept from its last iterate, writes the line and clears the statics |
| IterativeAgent.Agent.OnMailBoxEmptyRemapped | agents/IterativeAgent.java:197-209 | with the map rebuilt from the final view, the line carries the overflow of the final joint assignment |
| IterativeAgent.StaleOverflow | agents/IterativeAgent.java:188-194 | on a concrete run the kept map shows no overflow while the final assignment has one |
| CourseAlgoAgent.CheckAllAssignments | agents/CourseAlgoAgent.java:110-116 | the loop holds exactly when no course is over the limit, so exactly when calculate_extra_courses is zero |
| CourseAlgoAgent.SettledFlags | agents/CourseAlgoAgent.java:155-166 | one flag per candidate, true iff checkSelfAssignment returns "" for it |
| CourseAlgoAgent.ScanTop | agents/CourseAlgoAgent.java:303-310 | the strict scan ends on a candidate of maximal added cost when one beats the start, and otherwise on the start |
| CourseAlgoAgent.AvoidingTop | agents/CourseAlgoAgent.java:301-311 | the repair scan over the valid domain ends on a value of maximal added cost among those that avoid the overloaded course and are settled, or on the previous best value when there is none |
| CourseAlgoAgent.CoveringTop | agents/CourseAlgoAgent.java:313-323 | the repair scan over the covering values ends on a value of maximal added cost among every value covering all valid courses, or on the previous best value when there is none |
| CourseAlgoAgent.SettledTop | agents/CourseAlgoAgent.java:327-337 | the exploration scan ends on a settled value whose added cost beats the current one and is maximal, or on the previous best value when none beats it |
| CourseAlgoAgent.ScanSettled | agents/CourseAlgoAgent.java:303-310 | the draining loop returns the scan over the settled candidates |
| CourseAlgoAgent.DecideMeaning | agents/CourseAlgoAgent.java:294-338 | the agent moves iff the draw is below beta (overloaded) or p1 (not); a repair takes the best candidate that avoids the course or covers every valid course, and exploration only a settled value of higher added cost |
| CourseAlgoAgent.ChooseValue | agents/CourseAlgoAgent.java:294-338 | the scans of a tick return the value Decide names |
| CourseAlgoAgent.SteadyExploration | agents/CourseAlgoAgent.java:327-337 | with bestVal equal to the submitted value, exploration never lowers the added cost, and a repair that finds no candidate keeps the value |
| CourseAlgoAgent.BestStep | agents/CourseAlgoAgent.java:279-283 | the feasible incumbent never has overflow and its cost never falls |
| CourseAlgoAgent.MinStep | agents/CourseAlgoAgent.java:285-290 | the shared smallest overflow never rises, and the fallback's cost never falls |
| CourseAlgoAgent.Statics.constructor | agents/CourseAlgoAgent.java:56-67 | Java's defaults for the statics |
| CourseAlgoAgent.Statics.Init | agents/CourseAlgoAgent.java:56-67 | once per run: a fresh count, no line written, no overflow seen |
| CourseAlgoAgent.Statics.Output | agents/CourseAlgoAgent.java:182-198 | one line is written once every agent is counted and none was written before |
| CourseAlgoAgent.Statics.Clear | agents/CourseAlgoAgent.java:216-219 | a zero count, and `first` lowered |
| CourseAlgoAgent.Agent.constructor | agents/CourseAlgoAgent.java:70-79 | a fresh agent with an empty view and no incumbents |
| CourseAlgoAgent.Agent.AssignNewValue | agents/CourseAlgoAgent.java:361-372 | only a value different from the submitted one is recorded, submitted and broadcast |
| CourseAlgoAgent.Agent.Start | agents/CourseAlgoAgent.java:70-79 | init once per run with bestVal = 0, then the random first value |
| CourseAlgoAgent.Agent.StartSeeded | agents/CourseAlgoAgent.java:70-79 | as Start, with bestVal seeded from the first value |
| CourseAlgoAgent.Agent.HandleAssignment | agents/CourseAlgoAgent.java:86-88 | another agent's value is recorded in the view |
| CourseAlgoAgent.Agent.Track | agents/CourseAlgoAgent.java:274-290 | the feasible incumbent follows BestStep and the fallback follows MinStep |
| CourseAlgoAgent.Agent.Tick | agents/CourseAlgoAgent.java:264-338 | the map, the incumbent updates, then Decide's value is assigned and stored in bestVal, keeping the agent seeded |
| CourseAlgoAgent.Agent.Finish | agents/CourseAlgoAgent.java:250-262 | an agent without an incumbent takes its fallback; the one completing the count writes the line once |
| CourseAlgoAgent.StaleExploration | agents/CourseAlgoAgent.java:327-337 | on a concrete run, started as written, the first exploration moves the agent from value 1 (cost 5) to value 0 (cost 0) |
| Combinations.ExtendCount | modules/FirstModel.java:197-206 | helper records C(end - start + 1, k minus the prefix length) lists from a prefix |
| Combinations.ExtendForm | modules/FirstModel.java:197-206 | every list helper records has k entries, starts with the prefix and continues strictly increasing within [start, end] |
| Combinations.ExtendOrdered | modules/FirstModel.java:197-206 | helper records its lists in strictly increasing lexicographic order |
| Combinations.ExtendComplete | modules/FirstModel.java:197-206 | every such completion of the prefix is recorded |
| Combinations.CombosMember | modules/FirstModel.java:191-206 | a list is produced by generate(n, k) iff it is a strictly increasing k-list within 0..n-1 |
| Combinations.CombosMeaning | modules/FirstModel.java:191-206 | generate(n, k) lists exactly the strictly increasing k-lists within 0..n-1, C(n, k) of them, in lexicographic order, without repeats |
| Combinations.Helper | modules/FirstModel.java:197-206 | the backtracking over the scratch array appends the Extend lists and restores the prefix |
| Combinations.Generate | modules/FirstModel.java:191-195 | generate returns Combos(n, k) |
| Combinations.Named | modules/FirstModel.java:230-242 | entry j of the named combination is the name of course index j |
| Combinations.CombosIndexCourses | modules/FirstModel.java:244-248 | the indices generate produces over the course list all name courses |
| Combinations.CombinationTable.constructor | modules/FirstModel.java:32 | d starts at 6 and the table is empty |
| Combinations.CombinationTable.ConvertCombinations | modules/FirstModel.java:230-242 | d becomes the number of combinations, and entry i is combination i with its indices replaced by course names |
| GeneratorText.NatToString | modules/FirstModel.java:319-325 | the decimal numeral of a natural number is a non-empty string of digits |
| GeneratorText.ParseIntToString | modules/FirstModel.java:382-390 | Integer.parseInt(Integer.toString(x)) == x for every int |
| GeneratorText.Names | modules/FirstModel.java:319-333 | k names, name i being the letter followed by i + 1 |
| GeneratorText.NamesMeaning | modules/FirstModel.java:319-333 | each name starts with the letter and reads back as its column number, so the names are distinct, and a shorter row is a prefix |
| GeneratorText.RemoveSpacesJoin | code/java/modules/FirstModel.java:199-205 | removing the spaces of a ", "-joined row of numerals gives the ","-joined row |
| GeneratorText.WrittenRowMeaning | code/java/modules/FirstModel.java:199-220 | a written row is the row's numerals joined by ",", with no space or bracket, and each numeral reads back as its entry |
| GeneratorText.ConvertRatingsFails | modules/FirstModel.java:382-390 | convertRatings throws exactly when some course number lies outside 1..m |
| GeneratorText.ConvertRatingsInverts | modules/FirstModel.java:382-390 | for a ranking of 1..m, the course at position i scores m - i, no entry stays null, and the scores are a permutation of 1..m |
| RandomPicks.FriendsWithin | modules/FirstModel.java:309-317 | friends are drawn ids in [0, n), never the agent itself |
| RandomPicks.PickRandomFriends | modules/FirstModel.java:309-317 | the loop stops at the first draw that completes `amount` friends, all in [0, n) and none the agent itself; it is None only when the draws run out |
| FirstModel.PickRandomAgents | modules/FirstModel.java:301-307 | the loop stops with exactly `amount` distinct line numbers in 1..limit |
| FirstModel.FriendText | modules/FirstModel.java:364-376 | one entry per agent column |
| FirstModel.FriendRow | modules/FirstModel.java:364-376 | the column loop with its friend counter writes FriendText |
| FirstModel.FriendRowShape | modules/FirstModel.java:362-376 | an entry is nonzero exactly in a friend's column, so never on the diagonal; weights are 6, 4 or 2 and fall strictly from left to right |
| FirstModel.ScoreRow | modules/FirstModel.java:382-390 | one score text per entry of the converted ranking |
| FirstModel.GenerateCourses | modules/FirstModel.java:336-360 | the reading loop writes CourseFile of the sampled rows, stopping at a line that fails to convert |
| FirstModel.FailureStops | modules/FirstModel.java:341-359 | once a line has failed to convert, later lines add nothing |
| FirstModel.SampledRows | modules/FirstModel.java:344-355 | every sampled row is the score row of a sampled line that converted, and when that line is a ranking naming each course once, its scores are the values m..1, each exactly once |
| FirstModel.CourseFileMeaning | modules/FirstModel.java:346-353 | the header comes first and is the only name row, sized by the first sampled row; every later row is a sampled line's score row |
| FirstModel.GenerateFriends | modules/FirstModel.java:362-379 | the "a1".."an" header, then for each agent a row of the friends drawn for it; None when the draws run out |
| FirstModel.FriendRowsShape | modules/FirstModel.java:362-379 | every friendship row written has the FriendRowShape shape |
| FirstModel.GenerateProblem | modules/FirstModel.java:335-380 | courses.csv from the sampled lines, then friendship.csv |
| FirstModel.DefineProblem | modules/FirstModel.java:244-250 | the table is set from generate(m, c) over the m course names; a negative c throws |
| FirstModelGen.Permuted | code/java/modules/FirstModel.java:139-144 | row i of the result is row s[i] |
| FirstModelGen.PermutedMultiset | code/java/modules/FirstModel.java:139-144 | permuting by a permutation keeps the multiset of rows |
| FirstModelGen.SwapOrder | code/java/modules/FirstModel.java:128-137 | the swap order the map holds for rows 0..n-1 |
| FirstModelGen.RelabelledMeaning | code/java/modules/FirstModel.java:222-234 | relabelling rows and columns alike keeps each friendship between the same two students, keeps the zero diagonal and keeps each row's weights |
| FirstModelGen.SelfFriendship | code/java/modules/FirstModel.java:233 | permuting only the rows of [[0,6],[6,0]] by [1,0] puts a weight on the diagonal |
| FirstModelGen.BuildHeader | code/java/modules/FirstModel.java:236-247 | the header loop and the substring give the names joined by ","; an empty row throws |
| FirstModelGen.HeaderMeaning | code/java/modules/FirstModel.java:236-247 | the header starts with the first name and ends in the digits of the last, with no trailing comma |
| FirstModelGen.WriteResults | code/java/modules/FirstModel.java:199-205 | one string per matrix row |
| FirstModelGen.Write2Csv | code/java/modules/FirstModel.java:207-220 | the header line, then each row without its first and last characters |
| FirstModelGen.SwapFileMeaning | code/java/modules/FirstModel.java:199-220 | the swap files hold the header, then each matrix row's numerals joined by "," |
| FirstModelGen.PickRandomAgents | code/java/modules/FirstModel.java:300-306 | the loop as written stops with amount + 1 distinct line numbers in 1..limit |
| FirstModelGen.Generator.constructor | code/java/modules/FirstModel.java:43 | an empty swap map and a fresh combination table |
| FirstModelGen.Generator.InitSwaps | code/java/modules/FirstModel.java:128-137 | row i maps to shuffled[i], and other keys keep their entries |
| FirstModelGen.Generator.Swap | code/java/modules/FirstModel.java:139-144 | in place, row i becomes the original row swaps[i] |
| FirstModelGen.Generator.SwapAgents | code/java/modules/FirstModel.java:139-144 | the friendship matrix is relabelled on both axes by the swap order |
| FirstModelGen.Generator.DefineProblem | code/java/modules/FirstModel.java:222-253 | exit when the row counts differ; otherwise permute the rows of both matrices by the swap order, write both files with headers sized by their first rows, and set up the combinations, throwing on an empty matrix, an empty first row or a negative c |

## Left out

- File reading and CSV parsing (readCourses, readFriendship, readCombinations, readParams): the model takes the parsed rows as values. File writing is modelled as the list of lines written.
- Floating point: gini_coef is modelled by its integer numerator only. The division, the mean and the scaling by 100 are left out. Beta is exact rational arithmetic.
- Randomness (`Random`, `rnd.nextInt`, `rnd.nextDouble`, `Collections.shuffle`, chooseAtRandom): the values drawn are parameters. A pick loop reports None when the given draws run out, whereas the source would keep drawing.
- Concurrency: agents run as sequential handler calls, and `synchronized` blocks are not modelled.
- The framework's costs (calcCost, calcAddedCost, calcCostWithout, getConstraintCost) are parameters. The abstract find_max_value_unary and outputUnary are given functions.
- HashSet iteration order: every domain or set scan follows the order of the given sequence.
- Clock values (LocalTime, getSystemTimeInTicks): the tick count is a parameter, and the time columns of the report are left out.
- The p2 and flag fields of CourseAlgoAgent are locals of a tick in the model; they are not read across ticks.
- courses_toString, friends_toString, saveAssignments and copyFile only format or copy text for the log and are left out.
- DSA.java:83-84 builds a domain copy that is never read; it is not modelled.
- Random.java is not part of this model.
- The problem construction of both FirstModel classes (generate(Problem, Random), initConstraints, unaryConstraints, binaryConstraints, intersectionSize, calculateUnary) goes through the framework's Problem API and is not modelled. Its counting is the one BuilderCost models.
- The friend rows of code/java/modules/FirstModel.java generate_problem iterate over `range(1, friends.size())`, a call the file does not define; only the friend rows of modules/FirstModel.java are modelled.
- FirstModelGen.PickRandomAgents: the call in code/java/modules/FirstModel.java is commented out; the loop is modelled as written.
- FirstModelGen.Generator.DefineProblem: System.exit is modelled as the Exit outcome and an exception as Crash; nothing after either runs.
- BuilderCost.NumericValue: only ASCII characters follow Character.getNumericValue. Every other character is read as -1, where Java gives -2 for some fractions, 50 for some Roman numerals, the value of a non-Latin digit and 10..35 for fullwidth Latin letters.
- Java's 32-bit `int`: integers are unbounded, so wrap-around in utilities, load counts and overflow sums is not modelled. The phase-2 sentinel Integer.MAX_VALUE is kept as the constant IntMax. The landing guarantees below hold only while no excess reaches it and the limit is not negative.
- BuilderSearch.SearchLands: requires a non-negative limit and combinations narrow enough that width * width * agents < Integer.MAX_VALUE; outside these, the source still runs and may answer -1.
- BuilderSearch.SearchLandsAsWritten: the same bound as SearchLands.
- Hbs.Reply: requires the same bound, so the model does not follow a ring whose limit is negative or whose loads could reach Integer.MAX_VALUE.
- Hbs.Ring.Iterate: requires RingReady, which carries the same bound.
- Hbs.Ring.Turn: requires RingReady, which carries the same bound.
- Hbs.Ring.Run: requires RingReady, which carries the same bound.
- Dsa.DsaDecideMeaning: promises a domain value only under the same bound; without it, only -1 or a domain value.
- BuilderReport.Aggregator.Output: requires ReportReady (a non-empty, fully assigned, scorable assignment whose friends are assigned) for the call that writes. On any other assignment, Builder.java:247-284 sets done and increments num_rounds first, then throws a NullPointerException or IndexOutOfBoundsException from calculateTotalCost, gini_coef or find_friends, with no line written and clear never called. That exception path is not modelled.
- Dsa.DsaAgent.Finish: requires an incumbent for the last agent. With `it <= 0` no tick runs, so DSA.java:64-69 passes a null bestCpa to output, which throws; that run is not modelled.
- DsaRc.Agent.Finish: requires a shared incumbent for the last agent. With `it <= 0` no tick runs, so DSA_RC.java:97-105 passes a null bestCpa to output, which throws; that run is not modelled.
- DsaRc.Agent.Tick: requires every value of the view to name a table row (Ready). A repair whose valid domain is empty broadcasts find_max_value's -1 (DSA_RC.java:148). Every later tick on a view holding that -1 throws in mapAssignments, on `courseCombinations.get(-1)`, and is not modelled. DsaRc.DecideMeaning does state that the -1 can be chosen.
- Greedy.Agent.Finish: requires the last agent's view to name table rows and to satisfy ReportReady. On any other view, mapAssignments or output (Greedy.java:62-67) throws; that path is not modelled.

## Findings

| source | as written | input that shows it | evidently intended | confidence | as-written member | corrected member |
|---|---|---|---|---|---|---|
| code/java/agents/Builder.java:339-372 | every post-move check (checkNewAssignment, lines 130-146) in phase 1 of find_max_value withdraws the agent's old value from the caller's map again | 3 agents, table [["c1"],["c2"]], limit 1, assignment [0,0,1], agent 0 rates c2 at 5, domain scanned [1,0]: value 0 passes its check after two withdrawals and is kept, although c1 stays over the limit | the old value is withdrawn once, from a copy, so value 1 is chosen by phase 2 | high, not executed | BuilderSearch.FindMaxValueAsWritten, BuilderSearch.RepeatedWithdrawal | BuilderSearch.FindMaxValue |
| agents/IterativeAgent.java:188-209 | the last agent adds the overflow of the map built in iterate (lines 38-41), before its own assignment | 2 agents, one course c1 with limit 1, both domains [0]: the kept map has c1 at 1 (no overflow), the final assignment has c1 at 2 (overflow 1) | the map is rebuilt from the final view, as GreedyAgent does | high, not executed | IterativeAgent.Agent.OnMailBoxEmpty, IterativeAgent.StaleOverflow | IterativeAgent.Agent.OnMailBoxEmptyRemapped |
| agents/CourseAlgoAgent.java:327-337 | bestVal starts at 0 (lines 56-67), and the exploration scan assigns it even when no value beats the current cost | 1 agent, table [["a"],["b"]], limit 1, start on value 1 of added cost 5, value 0 of added cost 0: the first exploration moves the agent to value 0 | bestVal starts at the agent's first value, so a scan that finds nothing keeps it | medium, not executed | CourseAlgoAgent.Agent.Start, CourseAlgoAgent.StaleExploration | CourseAlgoAgent.Agent.StartSeeded, CourseAlgoAgent.SteadyExploration |
| code/java/modules/FirstModel.java:139-144 | swap, called on line 233, permutes only the rows of the friendship matrix, so each agent keeps its original columns | friendship [[0,6],[6,0]], swap order [1,0]: row 0 becomes [6,0], so agent 0 has weight 6 for itself | rows and columns relabelled alike, keeping a zero diagonal | medium, not executed | FirstModelGen.Generator.Swap, FirstModelGen.SelfFriendship | FirstModelGen.Generator.SwapAgents, FirstModelGen.RelabelledMeaning |
