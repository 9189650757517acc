# A verified model of the companion's durable cores

This project models six parts of the repository in Dafny and proves what they promise over every
input, every run or every reachable state.

- **Durable conversation protocol** (`conversation_*.dfy`, `sequence_allocator.dfy`). Several stores
  share one database, each with the runtime epoch it adopted. Every short transaction is one step
  function on the tables; `ConversationStore` holds the classes whose methods read and write row by
  row under the tables' constraints, roll back, and are proved to be those steps. The theorems
  quantify over any interleaving of process starts and calls by stores of any epoch.
- **Planner** (`planner_*.dfy`): the loops of `evaluate` proved against a ranking defined on the set
  of scored rows, and the merge of proposals as a least upper bound.
- **Learner-state estimator** (`estimator_*.dfy`): claims, evidence groups and correlated clusters,
  the three reported families (abilities, transfer, support dependency), and the loops that compute them.
- **Reading face** (`narrative_*.dfy`): the position re-derived from committed rows, against an
  in-memory program counter; derived scripts; and the face itself, with its replay-first writer,
  drive loop and submission, whose every write is a step of those runs.
- **Deletion planner** (`deletion_*.dfy`): the worklist against the least closure of its rules.
- **Local runtime** (`runtime_*.dfy`): locks, moments, actions, attempts, deliveries and the recovery plan.

`ordering.dfy` and `permutations.dfy` hold ORDER BY and permutation facts that several parts use.
Check everything with `dafny verify dfyconfig.toml`.

## How the model reads the code

- Ids, words and instants are integers: opaque, but ordered where the code sorts by them. Minted ids
  and clock readings are parameters of the step that uses them. `newestEpoch` is 0 while the epoch
  table is empty. The store's three UNIQUE `turn_id` columns become map keys.
- Floats are reals. The planner's `round` is any monotone function; the estimator's figures are
  unrounded, and `exp` is any positive increasing function with `exp(0) == 1`. Profile files hold
  non-negative weights and factors (`ProfileFile`).
- SQL `LIKE` in the visibility filter keeps its two surprises: it ignores case, and `_` matches any
  character.
- The orchestrator's scene run is the abstract replay step its callers rely on: committed beats write
  nothing, one fresh segment adds one row, and a ruled gate closes in the commit of its continuation.
- Cluster keys are structured values, so two different keys never collide as strings.

## Where the code does less than one might expect

- **Retried CP0.** A retry returns the original turn exactly when the first command was *stamped*
  (`RetryReturnsTheOriginal`, `UnstampedRetryOpensASecondTurn`): if its client message is new but its
  input is already durable without that message, a later ingest of the same message lets the retry
  open a second turn.
- **Deletion.** The branch at security_reference_v1.py:127 deletes without setting `changed`
  (`ForgottenMemoryLeavesADigest`). The plan is exact for every selection if and only if no
  rebuildable node is listed after a node it could take down (`ExactExactlyInThisOrder`), for tables
  where such a dependent, if pending or rebuildable, has no other source that falls and shares none;
  for every table the plan is exact if and only if one more pass would delete nothing
  (`ExactIffStable`).
- **Adjacent gates.** `continuation_after` skips gates. The walk keeps step with a program counter
  over all runs if and only if every gate is directly followed by a segment
  (`InStepExactlyWhenCarried`), which for a derived script means that its plan keeps gates apart
  (`DerivedIsCarriedExactly`, `TwoQuestionsFallOutOfStep`).
- **The gateless floor after an answer.** The submission hands its passage on to be counted towards
  the floor of its scene (narrative_web.py:2337-2354), but the loop starts with no counted scene and
  sets the count to zero (narrative_web.py:1983-2012). Past its last gate the scene so gains more
  passages than the floor exactly when its script still had a floor's worth of segments
  (`FloorIgnoresTheAnswer`, `FivePassagesAfterAGate`).
- **Foreign results.** The attempt of an accepted result need not be one of the action's own; handed to
  another action it is marked there, and its own action can mark a second (`ForeignResultMarksASecond`).
- **Cancelling with another word.** An action stays closed exactly when cancellation uses a closing
  word (`OtherWordsReopen`).
- **Early failures.** A failure dated before others of its cluster moves them down a weight, and can
  raise the estimate (`SlipBeforeGapRaises`). For diminishing weights it never does, whatever the
  claims, if and only if its place weighs as much as the last one, counted up to the cap
  (`NeverRaisesExactlyWhenLevel`, with failures of recognition as the witnesses; `FailureNeverRaises`
  is the safe half for every dimension).

## Model

| member | source | states |
|---|---|---|
| `ConversationInvariants.StepKeeps` | src/elc/conversation/store.py:189-745 | every step of any store keeps all row links, number uniqueness and density, input/turn dedup, and ownership facts |
| `ConversationInvariants.ReachableIsConsistent` | src/elc/conversation/store.py:189-745 | every state reachable by any interleaving satisfies that invariant |
| `ConversationHistory.StepIsLater` | src/elc/conversation/store.py:324-745 | a step never lowers a version, owner epoch or counter, never rewrites a transcript row or a terminal record |
| `ConversationHistory.SnapshotsAreOrdered` | src/elc/conversation/store.py:324-745 | any two snapshots of a run are related that way |
| `ConversationHistory.VersionIdentifiesRecord` | src/elc/conversation/store.py:449-516 | versions never decrease, equal versions are equal records, the owner epoch never decreases nor exceeds the newest epoch |
| `ConversationHistory.TerminalIsForEver` | src/elc/conversation/store.py:646-705 | terminal exactly when an outcome is stored, and then frozen for ever (which status goes with which outcome: `StatusTellsOutcome`) |
| `ConversationHistory.OneStepPerVersion` | src/elc/conversation/store.py:449-516 | over a whole run at most one step consumes a given version of a turn |
| `ConversationHistory.OneWinnerPerExpectedVersion` | src/elc/conversation/store.py:475-516 | of all transitions racing with one expected version, at most one is told Ok |
| `ConversationHistory.StaleStoreIsInert` | src/elc/conversation/store.py:177-185 | a store whose epoch is not the newest changes no turn record, transcript row or counter |
| `ConversationHistory.FencedForEver` | src/elc/conversation/store.py:177-185 | once a newer epoch exists, nothing an older store does later reaches them |
| `ConversationRecovery.LiveTurnsHaveOneKeeper` | src/elc/conversation/store.py:1142-1158 | in every reachable state a live turn is owned by the newest epoch or listed exactly once by the scan, never both |
| `ConversationRecovery.ScanListsExactly` | src/elc/conversation/store.py:1142-1158 | the scan lists old-epoch nonterminal turns, each once, and nothing else |
| `ConversationRecovery.ClaimMany` | src/elc/conversation/store.py:714-745 | claiming any list of turns rewrites exactly the listed recoverable records, by one version each |
| `ConversationRecovery.ClaimingTheScanEmptiesIt` | src/elc/conversation/store.py:714-745 | claiming the whole scan leaves it empty and changes no status, outcome, counter or transcript row |
| `ConversationRetry.RetryReturnsTheOriginal` | src/elc/conversation/store.py:324-447 | after any further run, a retry of an acknowledged stamped CP0, repeating its client message under any input id, returns the original ids and numbers and writes nothing |
| `ConversationRetry.UnstampedRetryOpensASecondTurn` | src/elc/conversation/store.py:1162-1189 | for every acknowledged unstamped CP0 one later ingest makes a retry open a second turn |
| `ConversationRetry.UnstampedIsReachable` | src/elc/conversation/store.py:271-299 | a three-step run (epoch, conversation, ingest without a message) reaches a state that acknowledges an unstamped CP0 |
| `SequenceAllocation.SequenceAllocator.AllocateTurn` | src/elc/conversation/types.py:226-229 | hands out the peeked turn number and moves only that conversation's counter |
| `SequenceAllocation.SequenceAllocator.AllocateMessage` | src/elc/conversation/types.py:231-234 | the same for message numbers |
| `SequenceAllocation.Cp0TakesTheNextNumbers` | src/elc/conversation/store.py:324-447 | a first CP0 numbers its row as the reference allocator would, and both counters stay in agreement |
| `SequenceAllocation.AnswerTakesTheNextNumber` | src/elc/conversation/store.py:591-642 | an answer takes the next message number and its question's turn number |
| `SequenceAllocation.DurableCountersRefineTheAllocator` | src/elc/conversation/types.py:208-240 | in every reachable state the durable counters stand where the allocator, replayed over the units that wrote, stands |
| `SequenceAllocation.EveryNumberHasOneRow` | src/elc/conversation/store.py:324-447 | turn numbers 1..next-1 and message numbers 1..next-1 are each held by exactly one row; answer count is next_message - next_turn; an answer follows its question |
| `ConversationStore.SqliteConversationStore.constructor` | src/elc/host.py:971 | a process start opens the next epoch and adopts it |
| `ConversationStore.SqliteConversationStore.OpenConversation` | src/elc/conversation/store.py:189-224 | an atomic step; an existing conversation is left alone |
| `ConversationStore.SqliteConversationStore.BindPersonaIfUnbound` | src/elc/conversation/store.py:226-269 | an atomic step behind the fence; a bound persona is never replaced |
| `ConversationStore.SqliteConversationStore.IngestInput` | src/elc/conversation/store.py:271-299 | an atomic step; a known client message answers with its first envelope |
| `ConversationStore.SqliteConversationStore.DurableInput` | src/elc/conversation/store.py:1162-1189 | finds the envelope that already carries the client message |
| `ConversationStore.SqliteConversationStore.ReplayOf` | src/elc/conversation/store.py:1191-1209 | finds the one turn an input owns, if any |
| `ConversationStore.SqliteConversationStore.WriteCp0` | src/elc/conversation/store.py:370-447 | statement by statement, writes all rows of the unit or rolls back to the exact old tables; only an id clash can fail it |
| `ConversationStore.SqliteConversationStore.CommitUserTurn` | src/elc/conversation/store.py:324-447 | is the atomic CP0 step and keeps the invariant |
| `ConversationStore.SqliteConversationStore.TransitionTurn` | src/elc/conversation/store.py:449-516 | is the atomic compare-and-set step and keeps the invariant |
| `ConversationStore.SqliteConversationStore.TerminalizeTurn` | src/elc/conversation/store.py:646-705 | is the atomic terminal step and keeps the invariant |
| `ConversationStore.SqliteConversationStore.ClaimTurnForRecovery` | src/elc/conversation/store.py:714-745 | is the atomic claim step and keeps the invariant |
| `ConversationStore.SqliteConversationStore.CanonicalizeAssistantTurn` | src/elc/conversation/store.py:518-644 | is the atomic canonicalization step and keeps the invariant |
| `ConversationEffects.StatusTellsOutcome` | src/elc/conversation/store.py:646-705 | in every reachable state a turn is CANCELLED_BY_USER exactly when its outcome is CANCELLED, FAILED_FINAL exactly when it is FAILED_USER_VISIBLE, and COMPLETED exactly for the other three outcomes |
| `ConversationEffects.TerminalizeEndsTheTurn` | src/elc/conversation/store.py:646-705 | succeeds exactly for the newest store on a live turn it owns; then stores the requested outcome, the instant and the status that goes with it, moves one version, and touches no other row |
| `ConversationEffects.TransitionSetsTheStatus` | src/elc/conversation/store.py:449-516 | succeeds exactly for the newest store on a live turn it owns at the expected version, towards a status that is no ending; then stores that status and no other change but version and time |
| `ConversationEffects.GrantedStatusStays` | src/elc/conversation/store.py:475-516 | over any run a transition that was told Ok finds its status stored until the next version |
| `ConversationEffects.TranscriptIsDelivered` | src/elc/conversation/store.py:518-560 | no reachable transcript holds output that was not delivered, whole or in part |
| `ConversationEffects.CanonicalizeStoresTheText` | src/elc/conversation/store.py:518-644 | succeeds exactly for delivered text on a turn the newest store owns, answered already or under a free answer id; a first answer holds the given text, action and delivery state |
| `ConversationEffects.CommitStoresTheUtterance` | src/elc/conversation/store.py:324-447 | a CP0 that writes stores what the user sent under the winning input and opens the record of version 1, owned by the store |
| `ConversationEffects.NewConversationTakesATurn` | src/elc/conversation/store.py:189-224 | a conversation just opened takes a first turn, numbered one and one |
| `ConversationEffects.PersonaIsBoundOnce` | src/elc/conversation/store.py:226-269 | the first offer fills an empty persona and no later one changes it |
| `ConversationEffects.IngestHoldsTheMessage` | src/elc/conversation/store.py:271-299 | the answer is the envelope that carries the client message from then on, as sent when it is new |
| `ConversationEffects.TransitionRefusals` | src/elc/conversation/store.py:449-516 | each refusal of a transition has exactly one cause: an ending, a stale store, an unknown, foreign or ended turn, a lost race |
| `ConversationEffects.TerminalizeRefusals` | src/elc/conversation/store.py:646-705 | the same for terminalizing, which no version can make fail |
| `ConversationEffects.ClaimAnswers` | src/elc/conversation/store.py:714-745 | an ended or own turn is handed back unchanged; another live one changes owner and version only, and a stale store is refused exactly there |
| `ConversationEffects.CanonicalizeRefusals` | src/elc/conversation/store.py:518-644 | each refusal of a canonicalization has exactly one cause |
| `ConversationEffects.CommitRefusals` | src/elc/conversation/store.py:324-447 | a CP0 is refused exactly by a stale store, for an unknown or closed conversation, or when a first commit's ids are taken |
| `ConversationWindows.ReachableIsOrderly` | src/elc/conversation/store.py:794-923 | turn sequences order the visible turns of every reachable state strictly |
| `ConversationWindows.WindowIsHistorySuffix` | src/elc/conversation/store.py:794-923 | in every reachable state the persona window of n is the last n slices of the full persona history |
| `ConversationWindows.UserWindowMirrorsPersona` | src/elc/conversation/store.py:960-1013 | the user window shows the same turns, each answer being the persona's or one hidden from it, and hidden exactly when it is not an ordinary reply |
| `ConversationWindows.HistoryHoldsUtterances` | src/elc/conversation/store.py:869-923 | no command turn appears in the history |
| `ConversationWindows.HistoryHoldsEveryUtterance` | src/elc/conversation/store.py:869-923 | every other user turn of the conversation does |
| `ConversationWindows.HistoryIsOldestFirst` | src/elc/conversation/store.py:869-923 | strictly by turn sequence, so none twice |
| `ConversationWindows.SpokenTurnIsShown` | src/elc/conversation/store.py:869-923 | whatever the payload of its input, a turn with words in it is in the history |
| `ConversationWindows.TeachingCommandIsHidden` | src/elc/conversation/store.py:869-923 | a wordless turn whose input carries a teaching request or response, in any letter case, is not |
| `ConversationWindows.PlainSilenceIsShown` | src/elc/conversation/store.py:869-923 | a wordless turn whose payload carries neither is |
| `PlannerCandidates.DominanceIsStrict` | behavioral_baselines/planner/planner_reference_v1_1.py:230-265 | dominance is irreflexive and asymmetric |
| `PlannerCandidates.DominanceIsTransitive` | behavioral_baselines/planner/planner_reference_v1_1.py:230-265 | and transitive |
| `PlannerCandidates.DominatingPays` | behavioral_baselines/planner/planner_reference_v1_1.py:202-228 | a dominating candidate has at least the rounded utility of the dominated one |
| `PlannerCandidates.LexTotal` | behavioral_baselines/planner/planner_reference_v1_1.py:285-295 | tie keys are totally ordered |
| `PlannerRanking.DecisionUnique` | behavioral_baselines/planner/planner_reference_v1_1.py:339-421 | a set of scored rows has one decision |
| `PlannerRanking.PrunedHasKeptDominator` | behavioral_baselines/planner/planner_reference_v1_1.py:267-283 | every contender is kept or has a kept dominator with at least its utility, so pruning keeps someone and the best utility |
| `PlannerRanking.SelectedIsNearBest` | behavioral_baselines/planner/planner_reference_v1_1.py:388-405 | the winner is undominated and within epsilon of every contender |
| `PlannerRanking.WinnerIgnoresOutsiders` | behavioral_baselines/planner/planner_reference_v1_1.py:373-405 | removing a row outside the tie set leaves the winner |
| `PlannerEvaluate.ValidateInput` | behavioral_baselines/planner/planner_reference_v1_1.py:102-155 | accepts exactly the lists of well-formed candidates without repeated id or key |
| `PlannerEvaluate.ScoreAll` | behavioral_baselines/planner/planner_reference_v1_1.py:308-337 | every candidate is listed once, as the row of an eligible one or as an excluded id with its reason, and nothing else is listed |
| `PlannerEvaluate.ParetoPrune` | behavioral_baselines/planner/planner_reference_v1_1.py:267-283 | keeps exactly the undominated rows; every dropped row is reported, every report names a dropped row and a dominator of it |
| `PlannerEvaluate.Contenders` | behavioral_baselines/planner/planner_reference_v1_1.py:373-386 | exactly the activated rows of the class and priority that explicit intent restricts to |
| `PlannerEvaluate.Choose` | behavioral_baselines/planner/planner_reference_v1_1.py:397-405 | a row that beats every tied row by tie key, then id |
| `PlannerEvaluate.Evaluate` | behavioral_baselines/planner/planner_reference_v1_1.py:297-422 | degrades, raises, or returns the ranking's decision, with exactly the excluded candidates, scored rows, kept ids, dominated ids and tie set |
| `PlannerMeaning.ScoredExactly` | behavioral_baselines/planner/planner_reference_v1_1.py:157-200 | a candidate is scored if and only if it is not expired, deprecated, suppressed, without modality or blocked, its open prerequisite can be probed or scaffolded, it fits the scope, and it is ready enough or asked for and ready at run time |
| `PlannerMeaning.SelectionIsOfferable` | behavioral_baselines/planner/planner_reference_v1_1.py:297-421 | so is whatever is selected, kept or tied |
| `PlannerMeaning.ExcludedExactly` | behavioral_baselines/planner/planner_reference_v1_1.py:157-200 | an id is excluded with a reason if and only if a candidate of it has that reason and none of the earlier ones |
| `PlannerMeaning.RaisedExactly` | behavioral_baselines/planner/planner_reference_v1_1.py:91-155 | an evaluation raises exactly for an unknown scope or policy, an ill-formed candidate, or a repeated id or key, and degrades exactly without a complete and valid snapshot |
| `PlannerMeaning.UtilityOfNothing` | behavioral_baselines/planner/planner_reference_v1_1.py:202-228 | promising and costing nothing scores the bonus of a critical service at a natural break under two policies, and zero otherwise |
| `PlannerMeaning.BenefitCounts` | behavioral_baselines/planner/planner_reference_v1_1.py:202-228 | each benefit moves the utility by its own weight under the multiplier of the initiative |
| `PlannerMeaning.CostCounts` | behavioral_baselines/planner/planner_reference_v1_1.py:202-228 | each cost moves it the other way by its own weight under the policy's multiplier |
| `PlannerMeaning.ActivatedExactly` | behavioral_baselines/planner/planner_reference_v1_1.py:202-228 | a row is activated if and only if it was asked for in a request to learn or its utility reaches the threshold |
| `PlannerMeaning.SelectsExactly` | behavioral_baselines/planner/planner_reference_v1_1.py:354-421 | something is selected if and only if a scored candidate is worthwhile, and nothing is eligible if and only if nothing is scored |
| `PlannerMeaning.BelowThresholdNamesTheTop` | behavioral_baselines/planner/planner_reference_v1_1.py:354-371 | otherwise the answer names the candidate of greatest utility, the largest id among equals |
| `PlannerMeaning.RequestsComeFirst` | behavioral_baselines/planner/planner_reference_v1_1.py:373-386 | if anything was asked for, the selection was asked for, and with the smallest priority number |
| `PlannerMeaning.OutclassesIsDominates` | behavioral_baselines/planner/planner_reference_v1_1.py:230-265 | dominance means the same class, no benefit smaller, no cost larger, and not the same vectors |
| `PlannerMeaning.ReportedExactly` | behavioral_baselines/planner/planner_reference_v1_1.py:373-421 | the reported kept ids and tie set are exactly the unbeaten candidates and those within epsilon of every unbeaten one |
| `PlannerMeaning.BeatenAreReported` | behavioral_baselines/planner/planner_reference_v1_1.py:267-283 | every beaten candidate is reported with one that outclasses it, and no other |
| `PlannerMeaning.SelectedIsPreferred` | behavioral_baselines/planner/planner_reference_v1_1.py:388-421 | the selection is one of the tie set and preferred to each of it: aligned, asked, initiative, expiry, interruption, overexposure, load, id |
| `PlannerTheorems.DecisionIgnoresOrder` | behavioral_baselines/planner/planner_reference_v1_1.py:297-422 | every permutation of the candidates raises, degrades or decides alike |
| `PlannerTheorems.SelectionIgnoresOutsiders` | behavioral_baselines/planner/planner_reference_v1_1.py:354-421 | removing any one candidate outside the reported tie set leaves a selection unchanged |
| `PlannerTheorems.SelectionIsNearBest` | behavioral_baselines/planner/planner_reference_v1_1.py:388-421 | the selected candidate is undominated and within epsilon of the best of its class |
| `PlannerProposals.CanonicalizeProposals` | behavioral_baselines/planner/planner_reference_v1_1.py:28-55 | raises exactly on unmergeable lists; otherwise one row a key, in key order, holding the least upper bound of its proposals |
| `PlannerProposals.MergeIgnoresOrder` | behavioral_baselines/planner/planner_reference_v1_1.py:28-55 | one order raises exactly when all do, and merged origins, initiative, priority and flags agree up to defaults |
| `PlannerProposals.MergeIsIdempotent` | behavioral_baselines/planner/planner_reference_v1_1.py:28-55 | merging a merged list returns it unchanged |
| `PlannerProposals.MergedRowsAreJoins` | behavioral_baselines/planner/planner_reference_v1_1.py:28-55 | each merged row is the least upper bound of the proposals of its key |
| `PlannerProposals.MergedFlags` | behavioral_baselines/planner/planner_reference_v1_1.py:40-52 | a merged flag is set if and only if some proposal of the key sets it |
| `PlannerProposals.MergedOrigins` | behavioral_baselines/planner/planner_reference_v1_1.py:40-52 | merged origins are exactly those of the key's proposals |
| `PlannerProposals.MergedPriority` | behavioral_baselines/planner/planner_reference_v1_1.py:40-52 | the merged priority is the smallest of the key's proposals, and one of theirs |
| `PlannerProposals.MergedInitiative` | behavioral_baselines/planner/planner_reference_v1_1.py:40-52 | the merged initiative is the most reactive of the key's proposals, and one of theirs |
| `EstimatorGrouping.ValidateClaims` | behavioral_baselines/estimator/estimator_reference_v1_1.py:25-52 | reports no error exactly when the claim contract holds |
| `EstimatorGrouping.FileByCluster` | behavioral_baselines/estimator/estimator_reference_v1_1.py:251-253 | files every representative once, under its cluster, oldest first |
| `EstimatorGrouping.Arrange` | behavioral_baselines/estimator/estimator_reference_v1_1.py:235-237 | a dictionary of lists holding exactly the claims of each key |
| `EstimatorEvaluate.AggregateGroup` | behavioral_baselines/estimator/estimator_reference_v1_1.py:157-164 | the strongest contribution of the group to each dimension, on each side |
| `EstimatorEvaluate.AggregateCluster` | behavioral_baselines/estimator/estimator_reference_v1_1.py:166-188 | the diminished sum of the positive group values under the cap |
| `EstimatorEstimate.GroupRows` | behavioral_baselines/estimator/estimator_reference_v1_1.py:239-249 | one row a group, with an earliest claim as exemplar and the group's strongest contributions |
| `EstimatorEstimate.MeasureAbility` | behavioral_baselines/estimator/estimator_reference_v1_1.py:255-283 | the two totals of a dimension, its telling clusters and the variety of the claims behind them |
| `EstimatorRun.MeasureTransfer` | behavioral_baselines/estimator/estimator_reference_v1_1.py:299-350 | strongest representative a cluster, oldest as base, diverse strength summed, worst failure a cluster |
| `EstimatorRun.MeasureSupport` | behavioral_baselines/estimator/estimator_reference_v1_1.py:382-415 | the most confident diagnostic claim a group, diminished inside its cluster, totalled by burden and kind |
| `EstimatorRun.Estimate` | behavioral_baselines/estimator/estimator_reference_v1_1.py:223-436 | refuses exactly the strict invalid lists; otherwise all three families follow from one consistent choice of representatives |
| `EstimatorFiles.SupportChoiceUnique` | behavioral_baselines/estimator/estimator_reference_v1_1.py:382-402 | with one primary claim a group, the support-dependency choice is unique |
| `EstimatorFiles.ChoicesUnique` | behavioral_baselines/estimator/estimator_reference_v1_1.py:235-415 | with distinct timestamps and valid claims nothing is left to choose |
| `EstimatorTheorems.EstimateIgnoresOrder` | behavioral_baselines/estimator/estimator_reference_v1_1.py:223-436 | every permutation of a list whose active timestamps are distinct is refused alike or estimated alike, in every mass, count and kind |
| `EstimatorTheorems.PartialSettles` | behavioral_baselines/estimator/estimator_reference_v1_1.py:111-138 | only PARTIAL successes of one directly mapped performance: every known direct estimate is of/(of+residual), whatever the groups, clusters, confidences and caps |
| `EstimatorMeaning.QualitySettles` | behavioral_baselines/estimator/estimator_reference_v1_1.py:140-148 | successes all judged q in accuracy or fit, where the mapping gives that dimension no weight: every known estimate is exactly q, whatever the groups, clusters, confidences and caps |
| `EstimatorMeaning.QualityIsReported` | behavioral_baselines/estimator/estimator_reference_v1_1.py:223-297 | the same of a whole estimation |
| `EstimatorMeaning.JudgementIsMonotone` | behavioral_baselines/estimator/estimator_reference_v1_1.py:140-148 | raising one claim's judgement never lowers its positive part nor raises its negative part |
| `EstimatorMeaning.SuccessSettles` | behavioral_baselines/estimator/estimator_reference_v1_1.py:111-155 | full successes alone: every known estimate but the two judged ones is one |
| `EstimatorMeaning.FailureSettles` | behavioral_baselines/estimator/estimator_reference_v1_1.py:111-155 | failures alone: every known estimate is zero |
| `EstimatorMeaning.NothingToTell` | behavioral_baselines/estimator/estimator_reference_v1_1.py:111-117 | unsure and abstaining claims contribute nothing, and failures nothing positive |
| `EstimatorMeaning.FailedAttemptsLand` | behavioral_baselines/estimator/estimator_reference_v1_1.py:90-101 | a failed attempt weighs on the tier it was made at, a natural unsupported one also three quarters on the tier below, and on nothing easier or judged |
| `EstimatorMeaning.MisusesLand` | behavioral_baselines/estimator/estimator_reference_v1_1.py:102-109 | a misuse weighs fully on accuracy and half on the production tier it came from, both tiers for a natural one |
| `EstimatorMeaning.MissesLand` | behavioral_baselines/estimator/estimator_reference_v1_1.py:88-89 | a failed recognition weighs on recognition only |
| `EstimatorMeaning.UnaskedRepairCountsHalf` | behavioral_baselines/estimator/estimator_reference_v1_1.py:135-138 | an unasked repair without full exposure adds half its strength to spontaneous production and changes nothing else |
| `EstimatorMeaning.HalfSuccessLeavesDoubt` | behavioral_baselines/estimator/estimator_reference_v1_1.py:128-138 | a PARTIAL success leaves its residue at its own tier and nowhere else, but for an unasked repair; a full one leaves none |
| `EstimatorMeaning.CorrelatedExactly` | behavioral_baselines/estimator/estimator_reference_v1_1.py:67-80 | two claims share a cluster if and only if they come from one teaching moment, or outside teaching from one conversation, day, persona, context and realization, a new unnamed context or realization being its group's own |
| `EstimatorMeaning.VarietyExactly` | behavioral_baselines/estimator/estimator_reference_v1_1.py:263-271 | the variety behind an estimate is exactly that of its claims |
| `EstimatorTheorems.MassStretches` | behavioral_baselines/estimator/estimator_reference_v1_1.py:157-188 | a common factor of all contributions passes through all three levels, caps included |
| `EstimatorTheorems.ClusterIsWorthOneGroup` | behavioral_baselines/estimator/estimator_reference_v1_1.py:175-187 | a cluster's mass never exceeds the cap multiple of one of its groups, however many repeats it holds |
| `EstimatorTheorems.EstimateInRange` | behavioral_baselines/estimator/estimator_reference_v1_1.py:273-297 | known ability estimates lie in [0, 1] |
| `EstimatorRange.TransferInRange` | behavioral_baselines/estimator/estimator_reference_v1_1.py:352-376 | known transfer estimates lie in [0, 1] |
| `EstimatorRange.SupportInRange` | behavioral_baselines/estimator/estimator_reference_v1_1.py:404-430 | known support-dependency estimates lie in [0, 1] |
| `EstimatorSupport.BurdenSettles` | behavioral_baselines/estimator/estimator_reference_v1_1.py:382-423 | observations of one burden give that burden, whatever the clusters, repeats and confidences |
| `EstimatorSupport.UnaidedIsFree` | behavioral_baselines/estimator/estimator_reference_v1_1.py:382-423 | successes without any help give zero |
| `EstimatorSupport.DependencyAtLeast` | behavioral_baselines/estimator/estimator_reference_v1_1.py:382-423 | successes of burden b or more and any failures give b or more: a failure is the heaviest burden |
| `EstimatorSupport.FailuresAloneTellNothing` | behavioral_baselines/estimator/estimator_reference_v1_1.py:378-423 | failures alone leave the dependency unknown |
| `EstimatorSupport.HelpAloneTellsNothing` | behavioral_baselines/estimator/estimator_reference_v1_1.py:378-423 | so do helped successes and helped failures, without an unhelped observation |
| `EstimatorSupport.NoDependencyIsReported` | behavioral_baselines/estimator/estimator_reference_v1_1.py:223-436 | a whole estimation over unaided successes reports no dependency or none known |
| `EstimatorSupport.FailuresReportNothing` | behavioral_baselines/estimator/estimator_reference_v1_1.py:223-436 | a whole estimation whose productions all failed reports no dependency estimate |
| `EstimatorSupport.EvidenceIsProportional` | behavioral_baselines/estimator/estimator_reference_v1_1.py:388-402 | an observation weighs in proportion to confidence and outcome factor, and a failure also to its attribution |
| `EstimatorSupport.StrongExactly` | behavioral_baselines/estimator/estimator_reference_v1_1.py:213-221 | transfer is read from exactly the clusters of sure, little assisted full successes at unaided production, each by its strongest claim |
| `EstimatorSupport.TransferNeedsElsewhere` | behavioral_baselines/estimator/estimator_reference_v1_1.py:299-332 | positive transfer mass exists if and only if some cluster shows the use elsewhere than the earliest one |
| `EstimatorSupport.WorstExactly` | behavioral_baselines/estimator/estimator_reference_v1_1.py:334-345 | against transfer counts, once a cluster, the worst attempt or misuse said to be under new conditions |
| `EstimatorSupport.FailureWeighsAsBlame` | behavioral_baselines/estimator/estimator_reference_v1_1.py:334-345 | with what it weighs against ability, but for its outcome |
| `EstimatorSupport.SameConditionsTellNoTransfer` | behavioral_baselines/estimator/estimator_reference_v1_1.py:347-376 | one context, persona and realization among all strong claims leaves transfer unknown |
| `EstimatorSupport.OneClusterTellsNoTransfer` | behavioral_baselines/estimator/estimator_reference_v1_1.py:347-376 | so does a single cluster |
| `EstimatorRange.RawConfidenceInRange` | behavioral_baselines/estimator/estimator_reference_v1_1.py:193-206 | confidence is in [0, 1) already before it is clamped |
| `EstimatorRange.ConfidenceGrows` | behavioral_baselines/estimator/estimator_reference_v1_1.py:190-206 | confidence lies in [0, 1] and never falls with more mass or more variety |
| `EstimatorRange.LoneConditionIsHeldBack` | behavioral_baselines/estimator/estimator_reference_v1_1.py:190-206 | evidence of one day, context, persona and realization is believed to four fifths at most |
| `EstimatorRange.CapabilitiesAreCapped` | behavioral_baselines/estimator/estimator_reference_v1_1.py:202-206 | a capability seen in one realization, or for transfer one context, stays under its cap, exactly in the capped dimensions |
| `EstimatorRange.ReportedConfidences` | behavioral_baselines/estimator/estimator_reference_v1_1.py:284-430 | every reported confidence, of the six abilities, of transfer under its own cap and of support dependency, lies in [0, 1], and a positive one comes with positive mass |
| `EstimatorRange.MoreEvidenceIsSurer` | behavioral_baselines/estimator/estimator_reference_v1_1.py:273-289 | an ability with more mass and a superset of days, contexts, personas and realizations is reported with no less confidence |
| `EstimatorGrowth.LateFailureNeverRaises` | behavioral_baselines/estimator/estimator_reference_v1_1.py:150-188 | a negative group later than all others keeps a known estimate known and never raises it |
| `EstimatorGrowth.FailureNeverRaises` | behavioral_baselines/estimator/estimator_reference_v1_1.py:150-188 | a negative group at a safe place among the groups of its cluster that weigh on a dimension keeps a known estimate known and never raises it |
| `EstimatorGrowth.ShippedPlaces` | behavioral_baselines/estimator/estimator_reference_v1_1.py:183-187 | with the shipped weights and cap the safe places are the last one and every place from the third on |
| `EstimatorInsertion.NeverLowersExactlyWhenLevel` | behavioral_baselines/estimator/estimator_reference_v1_1.py:175-187 | for diminishing weights, a repeat at place i of a cluster of n never lowers it, whatever the values, if and only if weights i and n agree up to the cap |
| `EstimatorEarly.NeverRaisesExactlyWhenLevel` | behavioral_baselines/estimator/estimator_reference_v1_1.py:150-289 | the same for estimates: negative groups arriving at place i of n never raise one, whatever the claims, if and only if weights i and n agree up to the cap |
| `EstimatorEarly.SlipBeforeGapRaises` | behavioral_baselines/estimator/estimator_reference_v1_1.py:166-188 | three valid claims under the shipped numbers: a slip dated before a knowledge gap of the same teaching moment raises the estimate of recognition |
| `NarrativeWalk.WalkScene` | src/elc/narrative_web.py:1257-1340 | the prefix replays exactly the settled beats and the answer is about the first unsettled one |
| `NarrativeWalk.ContinuationAfter` | src/elc/narrative_web.py:1342-1359 | the first segment after the gate, other gates skipped |
| `NarrativeWalk.ContinuationIsNext` | src/elc/narrative_web.py:1342-1359 | it is the very next beat exactly when the next beat is a segment |
| `NarrativeRuns.RunsAgree` | src/elc/narrative_web.py:2239-2330 | after any presses and restarts the rows agree with the program counter, phase included |
| `NarrativeRuns.WalkIsTheCounter` | src/elc/narrative_web.py:1257-1340 | the walk stands at the counter's beat, all gates before it closed with a stored submission |
| `NarrativeRuns.InStepExactlyWhenCarried` | src/elc/narrative_web.py:1342-1359 | walk and counter agree over all runs if and only if every gate is directly followed by a segment |
| `NarrativeRuns.AdjacentGatesLeak` | src/elc/narrative_web.py:1342-1359 | otherwise a passage from beyond an unopened gate is committed |
| `NarrativeRuns.PassagesStay` | src/elc/narrative_web.py:770-782 | no committed passage is ever rewritten |
| `NarrativeScript.PlanScript` | src/elc/narrative_web.py:913-973 | a script exactly when a usable gate exists; it follows the usable plan, numbers gates 1..k apart and ends in its only terminal segment |
| `NarrativeScript.DerivedIsCarriedExactly` | src/elc/narrative_web.py:913-973 | every gate of a derived script is directly followed by a segment if and only if no gate of its plan directly follows another |
| `NarrativeScript.TwoQuestionsFallOutOfStep` | src/elc/narrative_web.py:913-973 | the script of a plan with two gates in a row has a run whose walk and counter disagree |
| `NarrativeScenes.WalkReplays` | src/elc/narrative_web.py:1280-1329 | the prefix the walk hands over replays exactly the committed passages before its beat |
| `NarrativeDrive.ReadingFace.WriteSegment` | src/elc/narrative_web.py:770-782 | a committed key is answered with its stored prose; only another one reaches the inner writer |
| `NarrativeDrive.ReadingFace.RunScene` | src/elc/narrative_web.py:1854-1876 | the re-presented prefix replays without conflict and writes nothing; one passage lands, and the inner writer is asked once, exactly when the prefix was everything committed |
| `NarrativeScenes.BeforeTheGate` | src/elc/narrative_web.py:1282-1310 | a segment the walk offers lies before every gate not yet passed |
| `NarrativeDrive.ReadingFace.TakeStep` | src/elc/narrative_web.py:2013-2123 | writes if and only if the current scene stands at a segment or is open, nothing fails and nothing is denied, and then exactly that passage; otherwise halts for the reason that holds, opening a gate it just came to |
| `NarrativeDrive.ReadingFace.PressOn` | src/elc/narrative_web.py:1949-2163 | terminates, and each stop is given if and only if what it means holds; writes if and only if it may begin, first of all what its scene calls for; at most max(1, 12-w) segments after w, at most 4 in a scene with no gate ahead, none past an unsubmitted gate, one writer call for each, scenes moving along their own steps, and the first scene is left only once it is committed |
| `NarrativeDrive.ReadingFace.Advance` | src/elc/narrative_web.py:1917-1947 | the same for a press, which keeps every scripted scene in the rows of some run of it |
| `NarrativeScenes.StopsAreExact` | src/elc/narrative_web.py:1949-2163 | no two stops mean the same thing of the scenes before and after a drive |
| `NarrativeScenes.FirstPressStopsAtTheGate` | src/elc/narrative_web.py:1949-2163 | a press on an untouched scene of segment, gate, segment writes the first segment, opens the gate with the script's options and stops there |
| `NarrativeScenes.ActiveSceneIsCurrent` | src/elc/narrative_web.py:1633-1640 | the scene driven is the first active one, and without one the first that is not committed |
| `NarrativeDrive.ReadingFace.Answer` | src/elc/narrative_web.py:2252-2320 | rejects and moves nothing without a scene, under the preflight, away from a gate, or for words the waiting gate does not take; it succeeds only for words the gate takes, and otherwise fails only where the world does; the gate is then closed on the reader's or the stored words and one passage follows |
| `NarrativeDrive.ReadingFace.Submit` | src/elc/narrative_web.py:2239-2354 | an answered gate is no stop: from the scenes the answer left, the drive goes on with the answer's passage counted and means what its stop says; a rejected request moves nothing; whatever fails, scenes move along their own steps and the inner writer is asked once per landed passage |
| `NarrativeFloor.PassagesFollowTheScript` | src/elc/narrative_web.py:1257-1340 | over any run the j-th passage carries the ticks and last flag of the j-th segment |
| `NarrativeFloor.EndsWithTheScript` | src/elc/narrative_web.py:1257-1340 | so a scene's last passage ends it exactly when the script has no segment left |
| `NarrativeFloor.FloorStartsAnew` | src/elc/narrative_web.py:1983-2012 | after an answered last gate the drive writes in its scene what the script has left, up to a whole floor |
| `NarrativeFloor.FloorIgnoresTheAnswer` | src/elc/narrative_web.py:2337-2354 | counting the passage of the answer, as the comment there says, the floor is exceeded if and only if the script had a floor's worth of segments left |
| `NarrativeFloor.FivePassagesAfterAGate` | src/elc/narrative_web.py:2337-2354 | a scene of one gate and six segments gains five passages |
| `NarrativeDrive.UntouchedIsOnCourse` | src/elc/narrative_web.py:1257-1301 | a chapter nobody has driven starts in the rows of the empty run of each scene |
| `NarrativeDrive.OnCourseIsInStep` | src/elc/narrative_web.py:1257-1340 | so after any presses and submissions the walk of a scene whose gates are carried stands where a program counter does |
| `DeletionClosure.ClosureIsLeast` | behavioral_baselines/security/security_reference_v1.py:116-132 | the closure of the deletion rules is the least closed set |
| `DeletionClosure.PassKeeps` | behavioral_baselines/security/security_reference_v1.py:116-132 | a pass deletes only closure nodes and keeps delete, rebuild and cancel consistent |
| `DeletionPlan.PassesShrinkTheRest` | behavioral_baselines/security/security_reference_v1.py:117-132 | every changed pass grows the deletions or the rebuilds |
| `DeletionPlan.RunPass` | behavioral_baselines/security/security_reference_v1.py:118-132 | is one pass of visits in table order |
| `DeletionPlan.Propagate` | behavioral_baselines/security/security_reference_v1.py:114-132 | terminates with the worklist's result |
| `DeletionPlan.WorklistKeeps` | behavioral_baselines/security/security_reference_v1.py:114-132 | the result is sound, and exact, rebuilds included, when rebuildable nodes come first |
| `DeletionPlan.PlanDeletion` | behavioral_baselines/security/security_reference_v1.py:93-136 | deletes only the non-public closure, plan parts consistent; exactly that closure, with a rebuild for every survivor that lost a source, when rebuildable nodes come first |
| `DeletionPlan.SourcesFirstIsEnough` | behavioral_baselines/security/security_reference_v1.py:93-136 | listing sources before dependents is such an order |
| `DeletionPlan.ExactIffStable` | behavioral_baselines/security/security_reference_v1.py:114-132 | a sound result is the whole closure if and only if one more pass deletes nothing |
| `DeletionPlan.TreacherousPairIsMissed` | behavioral_baselines/security/security_reference_v1.py:126-127 | a rebuildable node listed after one it could take down breaks every table it sits in: its dependent is neither deleted nor flagged |
| `DeletionPlan.ExactExactlyInThisOrder` | behavioral_baselines/security/security_reference_v1.py:114-132 | exact for all selections, rebuilds included, if and only if in that order; derived nodes may have any sources, and a pending or rebuildable node with a late rebuildable source no other source that falls |
| `DeletionPlan.ForgottenMemoryLeavesADigest` | behavioral_baselines/security/security_reference_v1.py:93-136 | a MEMORY_ITEM request over three nodes whose plan leaves a node of the closure behind, and is complete when sources are listed first |
| `DeletionMeaning.PlanDecides` | behavioral_baselines/security/security_reference_v1.py:93-136 | in the exact order a private record is deleted if and only if it was named or is queued work that lost a source or a rebuildable or derived record that lost all; rebuilt if and only if it lost some; cancelled if and only if it is unnamed queued work that lost one |
| `DeletionMeaning.ClosureExactly` | behavioral_baselines/security/security_reference_v1.py:114-132 | a record is in the closure if and only if it was selected or fell that way |
| `DeletionMeaning.UnreachedStand` | behavioral_baselines/security/security_reference_v1.py:114-132 | records that rest only on one another do not pull one another down |
| `DeletionMeaning.NothingPrivateIsLeft` | behavioral_baselines/security/security_reference_v1.py:93-136 | in any order, a request for everything deletes exactly the user's private records |
| `DeletionMeaning.NothingNamedNothingFalls` | behavioral_baselines/security/security_reference_v1.py:93-136 | a request that names no record plans nothing at all |
| `DeletionMeaning.EverythingIsWidest` | behavioral_baselines/security/security_reference_v1.py:98-101 | a request for everything names all but public records, and so whatever any other request names of them |
| `DeletionMeaning.HistoryIsEveryTarget` | behavioral_baselines/security/security_reference_v1.py:110-113 | the learning history is the projections and the history of every target |
| `DeletionMeaning.ScopesKeepApart` | behavioral_baselines/security/security_reference_v1.py:98-115 | talk, learning, bonds, profile and packages are each named by their own scopes only |
| `DeletionMeaning.KeysDecide` | behavioral_baselines/security/security_reference_v1.py:98-115 | and within their sort exactly by the request with their own key |
| `RuntimeTheorems.ReachableLocks` | behavioral_baselines/runtime/local_runtime_reference_v1.py:227-283 | in every reachable state, injected CP2 failures included, a moment is live exactly when it holds its own conversation's lock |
| `RuntimeTheorems.OneLiveMomentPerConversation` | behavioral_baselines/runtime/local_runtime_reference_v1.py:227-283 | so a conversation has at most one live moment |
| `RuntimeRecovery.PlanListsEachOnce` | behavioral_baselines/runtime/local_runtime_reference_v1.py:409-445 | after any run the plan lists each turn an older process left live exactly once with its resumption, each live moment and each waiting job exactly once, no orphan lock, and nothing else |
| `RuntimeEffects.ReachableStages` | behavioral_baselines/runtime/local_runtime_reference_v1.py:210-264 | a checkpoint says how far its turn got, in every reachable state |
| `RuntimeEffects.ResumeFitsTheStage` | behavioral_baselines/runtime/local_runtime_reference_v1.py:409-445 | a turn left live is resumed by analysis exactly while only the user's words are committed, by its action exactly once the decision is, and in no other way |
| `RuntimeTheorems.AcceptanceIsFinal` | behavioral_baselines/runtime/local_runtime_reference_v1.py:302-332 | with closing words, an accepted attempt is never replaced and a closed action never accepts again |
| `RuntimeEffects.AcceptanceRecords` | behavioral_baselines/runtime/local_runtime_reference_v1.py:302-332 | a result is accepted if and only if its action is known, open and holds nothing; the action then holds that attempt, and the attempt is marked |
| `RuntimeEffects.AcceptedForEver` | behavioral_baselines/runtime/local_runtime_reference_v1.py:302-332 | over any run whatever, from an accepting call on the action's accepted attempt is that one |
| `RuntimeEffects.OneAcceptancePerAction` | behavioral_baselines/runtime/local_runtime_reference_v1.py:302-332 | at most one call of a run accepts a result for an action |
| `RuntimeEffects.OneMarkPerAction` | behavioral_baselines/runtime/local_runtime_reference_v1.py:302-332 | while results go to their own actions, an action has at most one attempt marked, the one it holds |
| `RuntimeEffects.ForeignResultMarksASecond` | behavioral_baselines/runtime/local_runtime_reference_v1.py:302-332 | a result handed to another action marks a second attempt of its own |
| `RuntimeTheorems.OtherWordsReopen` | behavioral_baselines/runtime/local_runtime_reference_v1.py:334-337 | a closed action ignores late results after a cancellation exactly when its word is a closing one |
| `RuntimeTheorems.OrdinalsAreDense` | behavioral_baselines/runtime/local_runtime_reference_v1.py:285-295 | an action's attempt ordinals are exactly 1..n in every reachable state |
| `RuntimeTheorems.CommittedAnswerStays` | behavioral_baselines/runtime/local_runtime_reference_v1.py:339-370 | the assistant row a canonicalization commits is never rewritten |
| `RuntimeTheorems.OneCommitPerTurnAndAction` | behavioral_baselines/runtime/local_runtime_reference_v1.py:339-370 | at most one canonicalization a turn and one an action ever reports a commit |
| `RuntimeLocal.LocalRuntime.CommitCp2Open` | behavioral_baselines/runtime/local_runtime_reference_v1.py:227-264 | gate, moment, lock and action together or the exact old state, wherever a failure is injected |
| `RuntimeLocal.LocalRuntime.ReleaseTeachingLockTerminal` | behavioral_baselines/runtime/local_runtime_reference_v1.py:266-283 | ends the moment and drops its lock in one step, keeping the lock invariant |
| `RuntimeLocal.LocalRuntime.CreateProviderAttempt` | behavioral_baselines/runtime/local_runtime_reference_v1.py:285-295 | adds the attempt after the largest ordinal |
| `RuntimeLocal.LocalRuntime.AcceptProviderResult` | behavioral_baselines/runtime/local_runtime_reference_v1.py:302-332 | is the acceptance step |
| `RuntimeLocal.LocalRuntime.RecoveryPlan` | behavioral_baselines/runtime/local_runtime_reference_v1.py:409-445 | lists every due turn, job and lock once, sorted by kind and id |
| `RuntimeLocal.LocalRuntime.IngestInput` | behavioral_baselines/runtime/local_runtime_reference_v1.py:182-208 | keeps the first envelope and the first interrupt request of an input |
| `RuntimeLocal.LocalRuntime.EnqueueProjection` | behavioral_baselines/runtime/local_runtime_reference_v1.py:378-384 | one waiting job per turn and type |
| `RuntimeLocal.LocalRuntime.RunProjection` | behavioral_baselines/runtime/local_runtime_reference_v1.py:386-397 | refuses a missing job or a held guard, and otherwise completes that job only |
| `RuntimeLocal.LocalRuntime.TerminalizeOldTurnForInterrupt` | behavioral_baselines/runtime/local_runtime_reference_v1.py:399-407 | supersedes the action, ends the turn as cancelled, readies every interrupt against it, and changes nothing else |
| `RuntimeLocal.LocalRuntime.CanonicalizeDelivery` | behavioral_baselines/runtime/local_runtime_reference_v1.py:339-370 | is the canonicalization step, rolled back when a parent row is missing |
| `RuntimeEffects.Cp0CommitsTheTurn` | behavioral_baselines/runtime/local_runtime_reference_v1.py:210-225 | succeeds exactly for a new turn of an ingested input under free ids, and stores it as the current process's |
| `RuntimeEffects.Cp2OpensTheMoment` | behavioral_baselines/runtime/local_runtime_reference_v1.py:227-264 | leaves a live moment holding the lock, and a planned action with nothing accepted |
| `RuntimeEffects.ReleaseFreesTheConversation` | behavioral_baselines/runtime/local_runtime_reference_v1.py:266-283 | a released moment is over and its conversation can open the next |
| `RuntimeEffects.CanonicalizeEndsTheTurn` | behavioral_baselines/runtime/local_runtime_reference_v1.py:339-370 | the turn is completed with its outcome, and its action takes no result any more |
| `RuntimeEffects.CanonicalizeCommitsOnce` | behavioral_baselines/runtime/local_runtime_reference_v1.py:339-370 | reports a commit if and only if neither turn nor action had an answer, and then stores the text |
| `RuntimeEffects.InterruptEndsTheTurn` | behavioral_baselines/runtime/local_runtime_reference_v1.py:399-407 | the turn is cancelled with its outcome, its action takes no result any more, and exactly the requests against it become ready |
| `RuntimeEffects.ReachableJobs` | behavioral_baselines/runtime/local_runtime_reference_v1.py:378-384 | in every reachable state a turn has at most one job of a type |
| `RuntimeEffects.EnqueuedJobWaits` | behavioral_baselines/runtime/local_runtime_reference_v1.py:378-397 | a job asked for waits and can run, unless its turn has one of that type, which is left alone |
| `RuntimeEffects.JobRunsOut` | behavioral_baselines/runtime/local_runtime_reference_v1.py:386-397 | runs exactly when known and unguarded, and then waits no more |
| `RuntimeEffects.IngestFilesTheInput` | behavioral_baselines/runtime/local_runtime_reference_v1.py:182-208 | an input is filed once, and the first turn it interrupts is the one it stays with |
| `RuntimeEffects.InterruptsStay` | behavioral_baselines/runtime/local_runtime_reference_v1.py:182-208 | over any run an interrupt request keeps its turn, and once ready stays ready |

## Left out

- Interrupt requests of the conversation store, the decision-cycle store (which also advances turn records) and the deletion store over the same database.
- Conversation closing: no call of the store closes one, so the model only reads the status.
- SQLite, WAL, threads and real clocks: a transaction is one atomic step; ingest's lookup and insert may be separated by other steps.
- Estimator figures that are functions of the modelled ones or of the active set alone: coverage counts, freshness, bands, flags, rounding.
- Missing claim fields: a claim carries its confidence, outcome and polarity; the code's defaults would be filled in before.
- Planner context prechecks other than their pass or degrade answer; candidate fields that no rule reads.
- Local runtime client acknowledgements and the guard mutexes (whether a guard is held is a parameter); that a cancelled action cannot be canonicalized is not claimed, because its update is unconditional.
- Reading face: state rendering, request grammars, settlement and chapter planning, provider failures beyond "this step failed".
- Configuration, command line, secrets, log redaction, content building and the other reference tables.
