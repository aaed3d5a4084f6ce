# DebateOrchestrator: verified model

A Dafny 4.11 model of the algorithms of DebateOrchestrator, a Go module that runs
debates between language-model agents, tallies their votes, mines their failures and
generates and compares test runs. The model follows the code. The repository's own
README and roadmap still call several packages stubs, but the code is real.
`dafny verify dfyconfig.toml` checks the whole project.

| file | models |
|---|---|
| `Voting.dfy`, `TallyAgreement.dfy` | the vote store and the weighted, plurality and unanimity tallies; when they agree, and why the order of votes does not matter |
| `Ballots.dfy`, `SocialChoice.dfy`, `Monotonicity.dfy` | Borda and Condorcet tallies and the social-choice theorems between them |
| `Consensus.dfy`, `Protocol.dfy`, `ProtocolRuns.dfy` | round consensus and the debate runner with every way it can stop |
| `Batch.dfy` | the bounded concurrent batch as a transition system |
| `Contrastive.dfy` | the all-pairs comparison of test runs |
| `Stream.dfy` | the event stream of a debate and its progress values |
| `Delimiters.dfy` | the six-state delimiter scanner against an independent token reading |
| `AttackParser.dfy`, `I18nBundle.dfy` | two line parsers and the printers they invert |
| `Reflexion.dfy`, `Mining.dfy` | tokens, Jaccard top-k retrieval, the FIFO memory, and the pattern miner |
| `Rag.dfy` | substring retrieval, its in-place insertion sort, and the symbol table |
| `Orchestrator.dfy`, `Counters.dfy` | one debate call, and the shared counters under any interleaving |
| `DecimalPrinter.dfy` | printing a 64-bit number into a 20-byte buffer |
| `Wrappers.dfy`, `Fractions.dfy`, `Ordering.dfy`, `Permutations.dfy`, `Sums.dfy`, `Text.dfy` | shared vocabulary |

Conventions. A Go method that changes fields is a method of a class; a loop is a loop. What a
loop computes is said by specification functions and predicates (`CondorcetResult`,
`RunKept`, `IsTopK`, ...), and the lemmas prove what the repository promises about those.
Where Go ranges over a map, the model picks any remaining key. A context is an arbitrary
answer to each check the code makes (`cancelled`), so contexts that recover are included.
Invokers, handlers, clocks, digests and library parsers are arbitrary functions. Floating
point numbers are exact reals. Strings are sequences of characters.

## Findings

Where the code and its documentation disagree, the model follows the code.

- Borda confidence is documented as 1.0 when every voter ranks the winner first
  (voting/voting.go:300-306). It is 0 when no ballot ranks two choices, and exceeds 1 when a
  ballot lists the winner again before its last place (`TopRankedWithoutConfidence`,
  `DuplicatesInflateConfidence`); `DocumentedBordaConfidence` is the exact condition.
- The Condorcet tally is documented to return its error when there is no Condorcet winner
  (voting/voting.go:373-377). It tells "no winner" by the empty string, so a winner named ""
  is reported as a cycle (`EmptyNameIsReportedAsCycle`, `EmptyNameCanWin`), and it returns no
  error when there are no rankings (`NoRankingsNoError`). `NoWinnerErrorIff` is the exact
  condition.
- The plurality tie-break is documented as aggregate confidence and coded as average
  confidence (voting/voting.go:486-490); among tied leaders the two orders are the same
  (`TieBreakIsByAggregate`). The scan starts at -1, so with averages no higher, which AddVote
  lets in, the first name wins whatever the aggregates (`LowConfidenceMisleads`;
  `DocumentedTieBreakIff` is the exact condition).
- A comment calls the position of an unranked choice worse than every ranked one
  (voting/voting.go:409). On any ballot it is so exactly when the ballot is no longer
  than there are choices (`UnrankedIsLastIff`, `RepeatedIsNotAboveUnranked`).
- Consensus confidence is documented as a share of all responses and coded as a share of the
  non-blank ones; the two agree exactly when no response is blank (`DocumentedConfidence`,
  `BlankRaisesConfidence`).
- The stream documentation says the handler's error on any event is returned
  (comprehensive/manager.go:94-96). It is lost on the cancelled and the failed event, and
  only there (`HandlerErrorIff`, `HandlerErrorIsLost`, `FailedEventErrorIsLost`).
- After a cancelled event it promises the handler's error on that event, or else the
  context's error (comprehensive/manager.go:98-100). The promise is kept exactly when the
  handler accepts the event and the debate did not fail for a reason of its own
  (`PromisedErrorIff`, `HandlerErrorIsLost`, `ContextErrorIsLost`).
- A comment or literal inserted at a code position changes no delimiter count, except that a
  block comment put right after a code slash turns into a line comment
  (`BlockAfterSlashHides`). `BlockAfterSlashIff` says exactly when the counts stay the same
  there; a comment that ends with its first newline is harmless (`NewlineEndsHiding`).
- A comment in the bundle parser says trailing comments are stripped from unquoted values
  (orchestrator/i18n_bundle.go:125); none is (`BareLineMeaning`, `CommentsAreKept`). So the
  value is the announced one exactly when it carries no trailing comment
  (`CommentStrippedIff`).
- `GetStatistics` loads the total before the successes, so a rate above 1 can be reported;
  `RateCanExceedOneIff` says exactly when, and `RateExceedsOne` gives a run.
- The retrieval score is documented as the number of matches divided by the text length
  (tools/tools.go:305-308); the code also multiplies by the query length, which makes no
  difference exactly for a query of one character (`DocumentedScore`).
- The retrieval snippet is described as up to 80 characters (tools/tools.go:347). Its length
  is that of the match and what is kept on either side (`SnippetLengthIs`), which can be more
  (`LongSnippet`).

## Model

| member | source | states |
|---|---|---|
| Voting.WeightedVotingSystem.constructor | voting/voting.go:151-153 | a new system is empty |
| Voting.WeightedVotingSystem.AddVote | voting/voting.go:184-194 | a nil vote is refused and changes nothing; any other is appended, and the lifetime counters follow all votes ever accepted |
| Voting.WeightedVotingSystem.Reset | voting/voting.go:220-224 | only the current votes are dropped; the lifetime totals survive |
| Voting.WeightedVotingSystem.GetStatistics | voting/voting.go:204-212 | the count and the average confidence of every vote ever accepted, Reset or not; 0 when there was none |
| Voting.WeightedVotingSystem.Calculate | voting/voting.go:249-294 | below the minimum number of votes the empty result; otherwise the tally holds the declarative confidence sums of the votes that reach the minimum confidence, the winner has the highest sum and is the least name among equals (none when no sum exceeds -1), and the confidence is the winner's average |
| Voting.WeightedVotingSystem.CalculatePlurality | voting/voting.go:491-558 | the tally holds the declarative vote counts; the winner is among the most voted, and wins the confidence tie-break when it applies and the least-name rule otherwise |
| Voting.WeightedVotingSystem.BreakTie | voting/voting.go:534-547 | the tie-break scan finds the leader with the greatest average confidence, the least name among equals |
| Voting.WeightedVotingSystem.CalculateUnanimous | voting/voting.go:568-602 | the empty result without votes; otherwise no error exactly when all votes name one choice, which then wins with confidence 1, and else the disagreement error with no winner |
| Voting.ScanForBest | voting/voting.go:270-283 | the scan over sorted keys yields the unique highest-scoring, then least, key above -1 |
| Voting.TopScore | voting/voting.go:519-525 | the first pass finds the maximum, and some key attains it |
| Voting.AtScore | voting/voting.go:526-532 | the second pass keeps, in order, exactly the keys with the top score |
| Voting.UnanimousIsOneChoice | voting/voting.go:577-584 | all votes agree on a choice exactly when it is the only key of the tally |
| Ballots.CalculateBordaCount | voting/voting.go:307-363 | every listed choice's tally is the sum over voters of one point per lower place; the winner has the highest sum and the least name among equals; the confidence is the winner's sum over the most points the ballots could give |
| Ballots.CalculateCondorcet | voting/voting.go:378-481 | every choice's tally is the number of rivals that strictly more voters put below it than above it; without rankings the empty result, and otherwise no error exactly when some choice not named "" beats every rival, and that choice is returned with confidence 1 |
| Ballots.AllWins | voting/voting.go:437-454 | a choice has N-1 wins exactly when it beats every other choice, and never more |
| Ballots.OneCondorcetWinner | voting/voting.go:437-469 | at most one choice beats all others |
| Ballots.CountWins | voting/voting.go:437-450 | the row loop counts exactly the rivals beaten |
| Ballots.CompareAll | voting/voting.go:401-435 | the pairwise map counts, for every ordered pair of choices, the voters that strictly prefer the first |
| Ballots.PointsAtMost | voting/voting.go:322-335 | on a duplicate-free ballot no choice earns more than first place pays, and only the first one earns that |
| SocialChoice.PointsCountRivalsBelow | voting/voting.go:322-335 | a ballot's points for a choice are the number of choices it puts below it |
| SocialChoice.BordaIsPairwiseSum | voting/voting.go:322-335 | on complete ballots a Borda score is the sum of the choice's pairwise counts over all rivals |
| SocialChoice.ContestIsDecided | voting/voting.go:401-435 | on complete ballots the two counts of a contest add up to the number of voters |
| SocialChoice.TotalBordaScore | voting/voting.go:322-335 | the Borda scores of complete ballots add up to V*N*(N-1)/2 |
| SocialChoice.CondorcetWinnerAboveAverage | voting/voting.go:437-454 | a Condorcet winner scores strictly more than half of V*(N-1) |
| SocialChoice.CondorcetLoserBelowAverage | voting/voting.go:437-454 | a choice that loses every contest scores strictly less than half of V*(N-1) |
| SocialChoice.CondorcetWinnerIsNotBordaLoser | voting/voting.go:345-352 | some choice scores strictly less than the Condorcet winner |
| SocialChoice.BordaWinnerIsNotCondorcetLoser | voting/voting.go:345-352 | the Borda winner does not lose every contest |
| SocialChoice.NoWinnerErrorIff | voting/voting.go:369-480 | the error is returned exactly when there is no Condorcet winner, if and only if there are rankings and the winner is not named "" |
| SocialChoice.NoRankingsNoError | voting/voting.go:378-400 | without rankings there is neither a winner nor an error |
| SocialChoice.EmptyNameIsReportedAsCycle | voting/voting.go:450-470 | a Condorcet winner named "" draws the no-winner error |
| SocialChoice.EmptyNameCanWin | voting/voting.go:450-470 | such a winner exists |
| Monotonicity.BordaMonotone | voting/voting.go:322-352 | on any ballots, moving the Borda winner up one place in one ballot keeps it the winner |
| Monotonicity.CondorcetMonotone | voting/voting.go:411-454 | on any ballots, moving the Condorcet winner up one place in one ballot keeps it the winner |
| Monotonicity.BordaConfidence | voting/voting.go:300-361 | on duplicate-free ballots the confidence is in [0,1], and 1 exactly when some ballot ranks two choices and every ballot that does puts the winner first |
| Monotonicity.DocumentedBordaConfidence | voting/voting.go:300-361 | on any ballots, when every voter who ranked anything ranks the winner first, the confidence is 1 exactly when some ballot ranks two choices and none lists the winner again before its last place |
| Monotonicity.TopRankedWithoutConfidence | voting/voting.go:300-361 | a result ranked first by every voter with confidence 0 |
| Monotonicity.DuplicatesInflateConfidence | voting/voting.go:322-361 | a ballot that repeats a choice gives confidence above 1 |
| Monotonicity.UnrankedIsLast | voting/voting.go:400-435 | on duplicate-free ballots an unranked choice stands below every ranked one |
| Monotonicity.UnrankedIsLastIff | voting/voting.go:400-435 | on any ballot an unranked choice stands below every ranked one exactly when the ballot is no longer than there are choices |
| Monotonicity.RepeatedIsNotAboveUnranked | voting/voting.go:400-435 | a ballot that repeats its only choice does not put it above an unranked one |
| TallyAgreement.CalculateIgnoresOrder | voting/voting.go:249-294 | permuting the votes does not change the weighted result |
| TallyAgreement.PluralityIgnoresOrder | voting/voting.go:491-558 | permuting the votes does not change the plurality result |
| TallyAgreement.UnanimousIgnoresOrder | voting/voting.go:568-602 | permuting the votes changes neither result nor error of the unanimity tally |
| TallyAgreement.UnanimousWinsPlurality | voting/voting.go:577-595 | a choice the unanimity tally accepts wins the plurality tally |
| TallyAgreement.UnanimousWinsCalculate | voting/voting.go:259-287 | it also wins the weighted tally as soon as one vote reaches the minimum confidence, confidences are not negative and enough votes were cast |
| TallyAgreement.EqualConfidenceAgreement | voting/voting.go:259-287 | when all votes carry one positive confidence meeting both minimums, the weighted and plurality winners are the same |
| TallyAgreement.TieBreakIsByAggregate | voting/voting.go:534-547 | among tied leaders, comparing averages is comparing sums |
| TallyAgreement.DocumentedTieBreakIff | voting/voting.go:486-547 | with the confidence tie-break enabled, the leader with the highest aggregate, least name first, is picked exactly when some leader's average is above -1 or no leader has a higher aggregate than the first by name |
| TallyAgreement.LowConfidenceMisleads | voting/voting.go:486-547 | two votes with confidences below -1 where the lower aggregate wins |
| Consensus.ComputeConsensus | protocol/protocol.go:763-815 | none exactly when every response is blank; otherwise the choice is the lexicographically least of the most frequent trimmed contents, the confidence its share of the non-blank responses, the contributors its authors in response order |
| Consensus.MostFrequent | protocol/protocol.go:784-799 | the scan finds the highest count and the least key among equals |
| Consensus.FrequenciesAddUp | protocol/protocol.go:801-804 | the counts of all contents add up to the number of non-blank responses |
| Consensus.OneConsensus | protocol/protocol.go:763-815 | the responses determine the consensus |
| Consensus.ConsensusConfidence | protocol/protocol.go:805-814 | confidence is in (0,1], is 1 exactly when the non-blank responses agree, and there are as many contributors as occurrences |
| Consensus.DocumentedConfidence | protocol/protocol.go:757-815 | the documented share of all responses is what is computed exactly when no response is blank |
| Consensus.BlankRaisesConfidence | protocol/protocol.go:757-815 | with one blank and one other response the confidence is 1 and the documented share one half |
| Consensus.ConsensusIgnoresOrder | protocol/protocol.go:763-815 | permuting the responses keeps choice and confidence and permutes the contributors |
| Protocol.Protocol.RegisterAgent | protocol/protocol.go:445-460 | an empty ID and a nil invoker are refused and change nothing; otherwise exactly that agent is added or replaced |
| Protocol.Protocol.Execute | protocol/protocol.go:551-727 | a cancelled context, a blank topic, a non-positive round count and an empty registry are refused in that order; every other run keeps `RunKept`: the phases are a prefix of the rounds times the eight phases, all but possibly the last hold one answer per agent in sorted order, each answer is the invoker's to the prompt over the last 16 responses with empty fields filled in, invocations exceed responses by at most the one that failed, and the run ended with the first failing answer or context check, at the first round that met the threshold, or after all rounds |
| Protocol.RunRounds | protocol/protocol.go:605-726 | the round loop keeps that invariant and exits early exactly at the first round whose consensus meets the threshold |
| Protocol.RunRound | protocol/protocol.go:611-697 | one round adds its eight phases in order or stops inside one of them |
| Protocol.RunPhase | protocol/protocol.go:615-696 | one phase collects the agents' answers in sorted order up to the first failure, missing answer or cancellation |
| Protocol.AnswersSawTheLatest | protocol/protocol.go:516-755 | in every run, however it ends, answer a of phase p stands under the scheduled phase and round and is what that agent said when shown the topic, the context, that phase and round and a transcript that is the last 16, or all, of the earlier answers; content is kept and only unset fields are filled in |
| Protocol.CleanReturnCount | protocol/protocol.go:605-726 | a clean return collected agents times eight times rounds responses |
| Protocol.UntroubledRunIsClean | protocol/protocol.go:605-726 | a run that is never cancelled and always answered returns without error |
| ProtocolRuns.OneRun | protocol/protocol.go:551-727 | the invokers' answers, the clock and the context checks determine the whole result: the contract of Execute admits one outcome |
| ProtocolRuns.SamePhases | protocol/protocol.go:605-697 | two runs in the same world hold the same phases, so none stops where another went on |
| Batch.Collect | testing/testing.go:466-492 | the successes in slot order, and the error of the lowest failing slot with both counts |
| Batch.SuccessCount | testing/testing.go:466-481 | the successes are as many as the slots exactly when none failed |
| Batch.SuccessesInRequestOrder | testing/testing.go:466-478 | the success of slot i stands at the place given by the successes before it |
| Batch.StepKept | testing/testing.go:444-464 | every atomic step of dispatcher, goroutine or caller keeps the invariant tying semaphore and wait group to the goroutines' stages |
| Batch.RunKept | testing/testing.go:444-464 | so does every run |
| Batch.BoundedAndWriteOnce | testing/testing.go:444-464 | in every reachable state at most four Generate calls are in flight, and a slot was written at most once, by its own goroutine, with its own outcome |
| Batch.BlocksAtFour | testing/testing.go:444-464 | a dispatcher that waits for a token gets one exactly while fewer than four are held |
| Batch.ResultDependsOnOutcomes | testing/testing.go:444-493 | a run that ends without the dispatcher seeing a cancellation returns what collecting the per-slot outcomes gives |
| Batch.InterleavingDoesNotMatter | testing/testing.go:444-493 | two such runs of the same job return the same |
| Batch.NeverStuck | testing/testing.go:444-464 | in every reachable state before the return some step other than a cancellation can be taken |
| Batch.RunsEnd | testing/testing.go:444-493 | every run ends within seven steps per slot, two more and one cancellation |
| Contrastive.Analyze | testing/testing.go:920-998 | fewer than two results and the first nil result are refused; the report lists per axis, in lexicographic order, exactly the pairs that differ, agreement is an empty list, and the score is one minus the share of pairs that differ somewhere |
| Contrastive.Compare | testing/testing.go:940-997 | the double loop visits every pair once and stops exactly at a cancelled check |
| Contrastive.ComparePair | testing/testing.go:948-981 | one pair extends each axis it differs on, and the count when it differs on any |
| Contrastive.AllPairs | testing/testing.go:940-980 | agreeing and diverging pairs add up to n(n-1)/2 |
| Contrastive.AgreeingPairsAreInClasses | testing/testing.go:940-980 | the agreeing pairs are the pairs inside the classes of identical results |
| Contrastive.DivergenceBound | testing/testing.go:940-980 | unless all n results are identical at least n-1 pairs diverge |
| Contrastive.ConsistencyScoreGap | testing/testing.go:985-989 | the score is 1 when all are identical and otherwise at most 1 - 2/n |
| Contrastive.ExitCodesReported | testing/testing.go:940-964 | exit codes are reported to agree exactly when they are all equal, and the pairs listed are exactly those that differ, with the two codes on their sides |
| Contrastive.OutputsReported | testing/testing.go:940-971 | the same for the outputs, with their lengths |
| Contrastive.ErrorTextsReported | testing/testing.go:940-978 | the same for the error texts |
| Contrastive.ScoreReported | testing/testing.go:944-989 | the score takes the same share off 1 for each of the n(n-1)/2 pairs that diverges |
| Contrastive.NotesReported | testing/testing.go:979-995 | a note tells of each pair of different results when asked for, and one of a score below a positive threshold |
| Stream.StreamDebate | comprehensive/manager.go:105-276 | how the run can end, and for each end the exact trace the handler saw: a prefix of started, phases with their answers, completed, followed by at most one cancelled or failed event |
| Stream.DeliveredPrefix | comprehensive/manager.go:105-276 | every trace is a prefix of the full stream, followed by at most one cancelled or failed event |
| Stream.AnswersInOrder | comprehensive/manager.go:184-255 | however a run ends, phase, agent, team and content of the answers the handler heard are the first of those of the response, in order; without error they are all of them |
| Stream.EventsFollowScript | comprehensive/manager.go:105-276 | the kind, debate, phase, agent, team and content of all events are those of the script read off the response, up to a closing event; without error they are the whole script |
| Stream.CancellationNamesNext | comprehensive/manager.go:164-228 | a cancelled event of a replay names the agent and phase about to speak, or nobody between phases |
| Stream.ErrorByLastEvent | comprehensive/manager.go:105-276 | after a cancelled or failed event a run returns why it stopped, whatever the handler says of the event; after any other last event it returns the handler's error on it, or none |
| Stream.HandlerErrorIff | comprehensive/manager.go:94-276 | when the handler fails on the last event its error is returned exactly when that event is neither cancelled nor failed |
| Stream.PromisedErrorIff | comprehensive/manager.go:98-248 | after a cancelled event the documented error, the handler's on the event or else the context's, is returned exactly when the handler accepts the event and the debate did not fail for a reason of its own |
| Stream.HandlerErrorIsLost | comprehensive/manager.go:119-128 | with a context cancelled from the start and a handler that fails on the cancelled event, the context's error is returned and the documented one is not |
| Stream.FailedEventErrorIsLost | comprehensive/manager.go:143-162 | a handler that fails on the failed event does not get its error back |
| Stream.ContextErrorIsLost | comprehensive/manager.go:143-162 | with a debate that fails for a reason of its own while the context is cancelled, the handler accepts the cancelled event and the context's error is not returned |
| Stream.Replay | comprehensive/manager.go:150-275 | the phases are replayed in order until the handler or the context stops them |
| Stream.ReplayPhase | comprehensive/manager.go:184-255 | one phase is phase_started, one event per answer, phase_completed, or stops inside |
| Stream.ProgressIsPlace | comprehensive/manager.go:340-366 | inside its range the progress is (phase + step/steps)/phases, and the clamps do not act |
| Stream.ProgressMonotone | comprehensive/manager.go:340-356 | progress grows with the steps of a phase, ends a phase where the next begins, and stays in [0,1] |
| Stream.CanonicalProgress | comprehensive/manager.go:105-276 | the full stream's progress never decreases, stays in [0,1] and ends at 1 |
| Stream.ProgressNeverDecreases | comprehensive/manager.go:105-276 | what the handler sees never decreases and stays in [0,1] however a run ends, and ends at 1 when no error is returned |
| Stream.CancellationKeepsProgress | comprehensive/manager.go:164-183 | a cancelled event between phases repeats the progress reached |
| Delimiters.CountDelimiters | validation/validation.go:278-362 | the one-pass counts are the net delimiters over the code characters, for every way of reading the text as well-formed tokens |
| Delimiters.CountsAreDifferences | validation/validation.go:340-359 | in every reading each count is the number of its own opening code delimiters less that of its own closing ones |
| Delimiters.Tokenise | validation/validation.go:278-362 | every text can be read as well-formed tokens |
| Delimiters.ReadingsAgree | validation/validation.go:278-362 | all readings of a text have the same net counts |
| Delimiters.WellNestedIsBalanced | validation/validation.go:340-359 | well-nested text has counts (0,0,0) |
| Delimiters.BalancedNeedNotNest | validation/validation.go:340-359 | the converse fails for every kind of delimiter |
| Delimiters.InsertionIsInvisible | validation/validation.go:289-361 | inserting a complete comment or literal at a code position changes no count, a block comment right after a code slash excepted |
| Delimiters.BlockAfterSlashIff | validation/validation.go:328-339 | for a block comment inserted right after a code slash, in any reading of the text around it: the slash opens a line comment up to the first newline of the body, or else of the rest, and the counts stay the same exactly when what is read instead counts the same as the rest read as code |
| Delimiters.NewlineEndsHiding | validation/validation.go:328-339 | a block comment that ends with its first newline leaves the counts as they are there, too |
| Delimiters.BlockAfterSlashHides | validation/validation.go:328-339 | the exception is real for every delimiter: the comment between a slash and a delimiter takes its count away |
| I18nBundle.ParseFlatYAMLBundle | orchestrator/i18n_bundle.go:112-136 | the map holds each key's last value, or the first bad line is reported with its number and problem |
| I18nBundle.UnescapeEscape | orchestrator/i18n_bundle.go:144-157 | leftmost replacement of doubled quotes undoes doubling them |
| I18nBundle.UnescapeFirstPair | orchestrator/i18n_bundle.go:152-155 | the leftmost pair of quotes becomes one, and the replacement goes on behind it |
| I18nBundle.LineWithoutEntry | orchestrator/i18n_bundle.go:114-122 | blank lines and lines led by a number sign are skipped, any other line without a colon is bad, whatever space surrounds it |
| I18nBundle.QuotedLineMeaning | orchestrator/i18n_bundle.go:123-151 | a double-quoted value is what unquoting gives for it, or the line is bad |
| I18nBundle.SingleQuotedLineMeaning | orchestrator/i18n_bundle.go:123-155 | a single-quoted value is what stands between the quotes, unescaped |
| I18nBundle.KeylessLineMeaning | orchestrator/i18n_bundle.go:123-132 | a line without a key is bad; a value that cannot be unquoted is reported first |
| I18nBundle.PrintedLineMeaning | orchestrator/i18n_bundle.go:117-133 | a printed line means its key and value |
| I18nBundle.BareLineMeaning | orchestrator/i18n_bundle.go:144-157 | a value that is not opened and closed by one kind of quote is taken verbatim, a trailing comment included |
| I18nBundle.CommentStrippedIff | orchestrator/i18n_bundle.go:125-157 | the value is the one without its trailing comment exactly when it has none |
| I18nBundle.CommentsAreKept | orchestrator/i18n_bundle.go:125-157 | two lines whose comments end up in the value, one of them led by a quoted text |
| I18nBundle.ParsePrint | orchestrator/i18n_bundle.go:112-157 | printing a bundle as single-quoted lines in any order and parsing it gives the bundle back |
| AttackParser.SplitSections | agents/adversarial.go:463-502 | section h holds, in order, exactly the trimmed non-blank texts between neighbouring header or separator lines that stand below the header h |
| AttackParser.OneSection | agents/adversarial.go:463-502 | the lines determine what a section holds |
| AttackParser.PopulateField | agents/adversarial.go:504-514 | the value of the first line that names the field |
| AttackParser.ExtractRisk | agents/adversarial.go:563-578 | the scanned value of the first line that names the risk, 0 when there is none or it does not scan |
| AttackParser.ParseAttackResponse | agents/adversarial.go:291-337 | the three lists of entries that have an ID or a description, in order; nothing at all is no report |
| AttackParser.SectionsOfPrint | agents/adversarial.go:463-502 | the sections of a printed report are its entries, with the risk line as a last stress entry |
| AttackParser.FieldOfBlob | agents/adversarial.go:504-514 | every printed field of an entry is read back |
| AttackParser.RiskOfPrint | agents/adversarial.go:563-578 | the printed risk text is the one scanned |
| AttackParser.RiskEntryIsDropped | agents/adversarial.go:319-328 | the stray risk entry has neither ID nor description |
| AttackParser.ParsePrint | agents/adversarial.go:291-337 | parsing a printed non-empty report gives back its three lists in order |
| Reflexion.Tokenize | reflexion/reflexion.go:432-448 | the loop builds the token set |
| Reflexion.TokenIsRun | reflexion/reflexion.go:428-462 | a token is exactly a maximal run of letters and digits of the lower-cased text with at least three characters |
| Reflexion.Jaccard | reflexion/reflexion.go:465-488 | iterating the smaller set gives shared over all tokens |
| Reflexion.SimilarityLaws | reflexion/reflexion.go:465-488 | similarity is symmetric, in [0,1], positive exactly when a token is shared, and 1 exactly for equal non-empty sets |
| Reflexion.StableSort | reflexion/reflexion.go:391-396 | similarity descending, then later timestamp, then insertion order, on the same candidates |
| Reflexion.GetRelevant | reflexion/reflexion.go:353-405 | nothing when a check is cancelled or the limit is not positive; otherwise ranked hits, at most the limit, with nothing left out that outranks one returned |
| Reflexion.TopKCount | reflexion/reflexion.go:397-404 | the number returned is the smaller of the limit and the number of positive scores |
| Reflexion.OneTopK | reflexion/reflexion.go:369-404 | documents, query and limit determine the answer |
| Reflexion.BestEpisodes | reflexion/reflexion.go:353-429 | the places retrieved are those of the stored episodes whose texts share a token with the query, more similar first, then later, then earlier stored; one is left out only when the limit is reached and then ranks below all returned |
| Reflexion.TokensOfJoin | reflexion/reflexion.go:432-448 | the tokens of two texts joined by a space are those of either |
| Reflexion.EpisodicMemoryBuffer.constructor | reflexion/reflexion.go:236-241 | a negative capacity counts as 0 |
| Reflexion.EpisodicMemoryBuffer.Store | reflexion/reflexion.go:245-260 | the buffer always holds exactly the latest episodes of all ever stored, as many as the capacity allows; nil is refused |
| Reflexion.LastOfConcat | reflexion/reflexion.go:254-258 | what a full buffer keeps of its history is exactly its last episodes, whatever came before |
| Reflexion.EpisodicMemoryBuffer.GetRecent | reflexion/reflexion.go:318-334 | the latest n episodes, newest first |
| Reflexion.EpisodicMemoryBuffer.GetRelevantEpisodes | reflexion/reflexion.go:353-405 | the stored episodes at the top-k places over their combined text |
| Mining.EpisodeGroupKey | reflexion/reflexion.go:1057-1073 | the trimmed root cause, or else the first token of the failure analysis |
| Mining.KeylessEpisode | reflexion/reflexion.go:1057-1073 | there is no key exactly when there is neither a root cause nor a token |
| Mining.KeyOfEpisode | reflexion/reflexion.go:1057-1073 | a root cause that is not blank is the key, without the space around it; otherwise the key is the first run of at least three letters or digits in the lower-cased failure analysis, every earlier run being shorter |
| Mining.GroupEpisodes | reflexion/reflexion.go:1003-1013 | one group per occurring key, holding its episodes in order |
| Mining.CommonTokens | reflexion/reflexion.go:1115-1150 | the sorted intersection of the token sets, early exit included |
| Mining.AccumulatedWisdom.Store | reflexion/reflexion.go:836-849 | the record is appended and indexed; an ID is issued exactly when it has none; the index stays exact |
| Mining.AccumulatedWisdom.RecordUsage | reflexion/reflexion.go:957-975 | exactly the indexed record changes, and its success rate is the share of successes among recorded uses |
| Mining.AccumulatedWisdom.GetRelevantWisdom | reflexion/reflexion.go:882-934 | the stored records at the top-k places over their combined text |
| Mining.BestRecords | reflexion/reflexion.go:882-952 | the places retrieved are those of the records whose pattern, description, domain or tags share a token with the query, more similar first, then later, then earlier stored; one is left out only when the limit is reached and then ranks below all returned |
| Mining.AccumulatedWisdom.RecordGroups | reflexion/reflexion.go:1021-1050 | the key loop stops exactly at the first cancelled check, having stored exactly the records it returns |
| Mining.AccumulatedWisdom.ExtractFromEpisodes | reflexion/reflexion.go:999-1052 | the store grows by exactly the returned fresh records, one per recurring key before the first cancelled check, in order, with IDs and times from consecutive seeds and the description of their group; uncancelled, one per pattern |
| Mining.PatternsAreRecurringKeys | reflexion/reflexion.go:1017-1031 | the patterns are the keys of at least two episodes, ascending and distinct |
| Mining.FrequenciesPartition | reflexion/reflexion.go:1024-1050 | also after a cancellation, the frequencies add up to the episodes with one of the recorded keys |
| Mining.FrequenciesAddUp | reflexion/reflexion.go:1003-1050 | uncancelled, the frequencies add up to the number of episodes whose key occurs at least twice |
| Mining.TagsAreShared | reflexion/reflexion.go:1115-1150 | a record's tags are, ascending, exactly the tokens that occur in every episode with its key |
| Mining.RecordConfidence | reflexion/reflexion.go:1032-1035 | confidence is a fifth of the frequency up to five episodes and 1 exactly from there on, and is in (0,1] |
| Mining.MiningIgnoresOrder | reflexion/reflexion.go:999-1052 | permuting the episodes keeps patterns, frequencies, confidences and tags |
| Rag.CountIsReached | tools/tools.go:333-337 | the substring count is attained by occurrences that do not overlap |
| Rag.CountIsMaximum | tools/tools.go:333-337 | no choice of non-overlapping occurrences has more |
| Rag.CountFits | tools/tools.go:338-346 | count times query length is at most the text length, with equality exactly when the text is the query repeated |
| Rag.ScoreBounds | tools/tools.go:338-346 | scores are in (0,1] without the clamp, and 1 exactly when the text repeats the query |
| Rag.DocumentedScore | tools/tools.go:304-346 | the documented score, matches over text length, is the one computed exactly for a query of one character |
| Rag.SnippetOf | tools/tools.go:347-359 | the window is in bounds around the first match |
| Rag.SnippetLengthIs | tools/tools.go:347-359 | the snippet is as long as the query, up to 20 characters before the first match and up to 60 after it, as far as the text goes; so it keeps to 80 exactly when these add up to no more |
| Rag.LongSnippet | tools/tools.go:347-359 | a one-character query with enough text around it gives 81 characters |
| Rag.SnippetShowsMatch | tools/tools.go:347-359 | the snippet shows the whole match within its first 20 characters |
| Rag.MoveLeft | tools/tools.go:380-382 | the inner loop inserts one element by exchanges, in place |
| Rag.InsertionSort | tools/tools.go:377-383 | the array becomes its insertion-sorted contents, in place |
| Rag.SortRanks | tools/tools.go:377-383 | that is the stable sort by descending score, a permutation |
| Rag.ToolIntegration.AddRAGDocument | tools/tools.go:283-302 | empty content is refused; otherwise the document is appended |
| Rag.ToolIntegration.QueryRAG | tools/tools.go:312-389 | an error exactly when a check is cancelled; otherwise the cut of the ranking of exactly the matching documents to the limit, no cap for a limit that is not positive |
| Rag.OneAnswer | tools/tools.go:312-389 | documents, query and limit determine the answer |
| Rag.BestMatchesReturned | tools/tools.go:377-389 | the results are hits, higher score first and then in document order; their number is that of the matching documents, or a smaller positive limit; a match is left out only when the limit is reached and then ranks below everything returned |
| Rag.ToolIntegration.IndexSymbol | tools/tools.go:397-417 | an empty name or file is refused; otherwise the symbol is appended |
| Rag.ToolIntegration.GetCodeDefinition | tools/tools.go:426-474 | the first indexed symbol with the least position at or after the query in that file, not found exactly when there is none |
| Orchestrator.ConfidenceGrows | orchestrator/orchestrator.go:510-519 | confidence is in (0,1] for every score and never falls from one round to the next |
| Orchestrator.ConfidencePerRound | orchestrator/orchestrator.go:291-331 | in each round each participant answers in its place under its own ID with what the invoker gave; its confidence is its score, at most 1, or one half without one, in the first round, and one twentieth more, up to 1, in each later one |
| Orchestrator.HigherScoreMoreConfident | orchestrator/orchestrator.go:510-519 | a higher positive score never gives less confidence |
| Orchestrator.MetricsAreSums | orchestrator/orchestrator.go:306-332 | token and latency totals are the sums of a quarter of each content length and of the latencies over all responses, and the quality is the mean of their confidences |
| Orchestrator.OneRoundQuality | orchestrator/orchestrator.go:291-332 | the quality of a one-round debate is the mean of its participants' scores |
| Orchestrator.RequestDefaults | orchestrator/orchestrator.go:395-414 | the response follows the request's own identifier, rounds and threshold, and the generated, configured and 0.6 where they are missing |
| Orchestrator.SelectParticipants | orchestrator/orchestrator.go:419-438 | the agents from preferred providers, or everybody when there are none |
| Orchestrator.ParticipantsAre | orchestrator/orchestrator.go:419-438 | both cases by membership; nobody takes part only when the pool is empty |
| Orchestrator.DebateOrchestrator.constructor | orchestrator/orchestrator.go:83-126 | no agents, no sessions, all counters 0, and a configuration with at least one agent and round |
| Orchestrator.DebateOrchestrator.RegisterProvider | orchestrator/orchestrator.go:133-153 | a missing name or model or a score outside [0,1] is refused; otherwise exactly that agent joins the pool |
| Orchestrator.DebateOrchestrator.CancelSession | orchestrator/orchestrator.go:185-194 | exactly the named session is marked; an unknown one is refused |
| Orchestrator.DebateOrchestrator.ConductDebate | orchestrator/orchestrator.go:254-393 | the active count is back where it was, the total grows by one and the successes by one exactly on success; too few agents fail, the first cancelled round check cancels, and the session's status says which; a success holds one phase per round with one response per participant and the sums over them |
| Orchestrator.ConductRound | orchestrator/orchestrator.go:296-325 | one response per participant in order, and token, latency, confidence and call totals extended by exactly these |
| Orchestrator.SuccessfulDebate | orchestrator/orchestrator.go:291-372 | provider calls are rounds times participants, and the quality score is in (0,1] |
| Orchestrator.MoreRoundsNeverLowerQuality | orchestrator/orchestrator.go:291-340 | one more round never lowers the quality score |
| Counters.StepKeeps | orchestrator/orchestrator.go:268-270 | every atomic step keeps total, active and success equal to the calls in the stages they stand for |
| Counters.CountersBounded | orchestrator/orchestrator.go:268-391 | under every interleaving success and active are at most the total, and once all calls have returned nothing is active and the counters are the outcomes |
| Counters.RateCanExceedOneIff | orchestrator/orchestrator.go:163-168 | after the first load, the reported rate can exceed 1 exactly when more calls are yet to be counted than counted calls have failed |
| Counters.ReportedRateCanExceedOneIff | orchestrator/orchestrator.go:163-168 | the same for every call that some interleaving of n debates reaches |
| Counters.RateExceedsOne | orchestrator/orchestrator.go:163-168 | with two debates, one of them counted at the first load, a run reports a rate above 1 |
| Counters.QuietRate | orchestrator/orchestrator.go:163-168 | the rate is in [0,1] when no debate is counted between the two loads |
| DecimalPrinter.UintToStr | testing/sandbox_linux.go:74-86 | for every 64-bit value the buffer suffices, the digits stand for the value, and there is no leading zero but in "0" |
| DecimalPrinter.WidthIsExact | testing/sandbox_linux.go:78-78 | 20 bytes hold every 64-bit value, 19 would not |
| DecimalPrinter.OneNumeral | testing/sandbox_linux.go:74-86 | a number has one such numeral, so no two values print alike |

## Left out

- Transports, TCP client, JSON framing, federated requests and generated identifiers: input, output and foreign calls.
- Wall-clock time and durations; timestamps and latencies are given by an arbitrary clock.
- float64 rounding: scores, confidences and progress are exact reals, so order independence and monotonicity are those of exact arithmetic.
- Mutexes: a locked method is one atomic step, except where `Batch` and `Counters` interleave atomic steps. Two GetStatistics calls at once do not affect each other, so one reader is modelled.
- Pointer aliasing: votes, responses and episodes are values, so a caller that later changes one through its own pointer is not modelled. Wisdom records and sessions are objects.
- Nil entries inside the stored votes and episodes: AddVote and Store refuse them, so they cannot arise.
- Rag.ToolIntegration.QueryRAG: text is ASCII, because outside ASCII lower-casing may change byte lengths; document metadata is not carried.
- Rag.ToolIntegration.AddRAGDocument: document metadata is not carried.
- Reflexion.Tokenize: lower-casing is that of ASCII text; a non-ASCII letter that lower-cases into ASCII is not modelled.
- Reflexion.StableSort: the standard library's sort is modelled by its contract, not by its algorithm; so is sorting strings.
- Mining.AccumulatedWisdom.ExtractFromEpisodes: the description text and the identifier digest are arbitrary functions, so no uniqueness of identifiers is claimed.
- Protocol.Protocol.Execute: the prompt is the tuple of what is printed into it, not its text; durations, the text of the early-exit reason and the topology lookup of an agent's details are left out.
- Orchestrator.DebateOrchestrator.ConductDebate: the texts of the consensus, timestamps and durations are left out, and so is a session cancelled by another goroutine meanwhile.
- Stream.StreamDebate: the refusals of a nil manager, handler or request, the wording of a failed debate's own error, the translated texts of the events, their timestamps, the lookup of an answering agent's details and the conversion of requests are left out.
- Contrastive.Analyze: a divergence entry and a note carry the values that their texts are made of.
- AttackParser.ExtractRisk: scanning a float is an arbitrary function of the text.
- I18nBundle.ParseFlatYAMLBundle: double-quoted scalars go through an arbitrary function in place of the standard library's unquoting; templates and their cache are left out.
- GenerateBatch's checks before dispatching, Generate itself, hint flattening, prompts and the test-case validator: short checks and text.
- The rounds of AdversarialProtocol and of ReflexionLoop, their fallbacks and the defense parser: sequencing around language-model calls whose parts worth proving are the parser and the memory above.
- The validation pipeline's passes: library regular expressions and text heuristics around the delimiter scanner.
- Sandboxed execution, resource limits and process groups: operating-system behaviour.
- The pool, registries, audit, gates, evaluation, topology, personas, embeddings, formatting and the MCP tool registry: simple stores and selectors.
