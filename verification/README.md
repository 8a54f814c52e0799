# Kick channel roles: a verified model

A Dafny model of the Kick-Channel-Role plugin: a service that watches Kick channels, keeps facts about
viewers, evaluates rule trees over those facts and keeps Discord role lists on a remote service in step.
Times are integers in microseconds; Discord ids are integers standing for their rank in the database's text
order; tables are maps; every SQL statement is one atomic step and `now()` is an argument.

The modules follow the program:

* **Rules.** `Conditions` and `RuleValidator` parse and normalise a rule tree. `ConditionEval` interprets it.
  `RuleSql` compiles it to the tokens of a WHERE clause and a list of binds. `SqlClause` reads such a text
  back with a recursive-descent parser (AND binds tighter than OR) and evaluates it in three-valued logic over
  the joined row; `LikePattern` gives LIKE. `SqlBinds` follows the numbered placeholders. `RuleAgreement`
  proves that the two back ends pick the same people, and exactly where they would not. LIKE and three-valued
  logic are those of the PostgreSQL 16 manual, sections 9.1 and 9.7.1.
* **Relations.** `FollowSync` is what one follow-probe answer may do. `RelationEvents` is a (channel, viewer)
  cell, its row and its per-day chat buckets, as a state machine over webhook events, probes, sweeps and
  ageing. `ColumnLaws` says what each column holds, `FollowRuns` and `ChatWindow` hold further theorems over
  runs. `RelationStore` is the tables with the operations that write them. `RelationHistory` shows that every
  run of the tables is, cell by cell, exactly the run of that cell's own row events; with `JoinedRuns`, which
  puts runs end to end, `RelationRuns` restates the theorems for the tables. `FollowUps` adds the booked
  follow-up probes. `Resyncs` tells which operations re-evaluate a player, and `PendingSyncs` that no moved fact
  is forgotten.
* **Protocols.** `TokenRefresh` interleaves callers of the token refresh and reconnects. `JobQueue` and
  `JobRuns` are the durable queue and its runs. `WebhookDedupe` interleaves deliveries of the same message
  with garbage collection.
* **Roles.** `RoleLogic` is the remote client and its two upload transports. `RoleSync` holds the per-player
  and bulk sync of one link, `RoleSyncAgreement` compares them with each other and with the preview,
  `BulkLaws` says what a bulk sync may do to whom, and `SyncEngine` runs them over the tables.
* **The rest.** `Paging` is the cursor pagination of the users API, `ChannelNames` the slugs under renames,
  `Backfill` the fairness of the probe backlog. `Text`, `Ascending`, `Facts` and `Wrappers` are shared.

Runs are sequences of states and steps related by a predicate `Moves`, so a theorem about a run is about every
run. Sorting and LIMIT are `Ascending.Sorted` and `Ascending.Lowest`.

Things found to hold only under a condition, which is stated exactly:

* The two rule back ends differ for a timestamp in the future by a broken number of days
  (`SettledAgesAreExact`: whole days are rounded toward zero by one and down by the other) and for a `not_in`
  over the nullable country whose list holds no string (`NullSafetyIsExact`).
* A rule loaded from the role configuration can be saved back if and only if none of its conditions is about chat
  messages (`ServedTreeSavesBack`): that target is stored and served as `chat_messages30d`, the derived name, and
  the validator knows only `chat_messages_30d`.
* A message is applied at most once if a delivery is inserted at most 24 h - 22 min + 2 us after it was
  verified, and one microsecond more admits a run that applies it twice (`LongerStallAppliesTwice`).
* A follow event does not clear the denials counted against a follow that is still stored; only a positive answer
  does (`OnlyAnswersClearMisses`), so the next denial can take a renewed follow away (`NewFollowIsTakenAway`).
* The spacing of a probe batch keeps its rate within the budget exactly when the budget divides the minute or is at
  least one a second (`SpacingFollowsTheBudget`).
* One per-player sync of every member equals one bulk sync if and only if the mirror holds nobody who has
  left the server (`SweepEqualsBulkWithoutStrays`).
* The mirror leaves the remote set exactly when the service carried a write out and its confirmation was lost
  (`PlayerSyncKeepsMirror`, `BulkSyncKeepsMirror`, over whole runs `MirrorTracksUntilALoss`).
* After such a loss an accepted bulk sync brings mirror and remote set together again unless the stale mirror
  already equals the target: then the upload is skipped and the remote set stays wrong (`RecoveryIsExact`).
* What a token refresh commits concerns the sign-in it was made for if and only if nobody reconnected while it
  ran (`RowChangesExactlyOnReconnect`). After a reconnect a refusal stamps the new sign-in, whose token was
  never sent (`RefusalStampsItsOwnSignIn`), and a grant overwrites it: the new token is lost for good
  (`GrantReplacesItsOwnSignIn`). `LateAnswersHitTheNewSignIn` gives a run of each.

Where comments and code differ the code is followed: the freshness window is documented as ten minutes and is
just under eleven either way (`FreshMeansElevenMinutes`); the note that a stale follow persists for good
(src/routes/webhooks.rs:335-336) predates the follow probe; migration 013 says an unavailable probe touches
no column, and it does stamp `follow_probe_attempted_at`.

## Model

| member | source | states |
|---|---|---|
| Conditions.TargetKeyRoundTrip | src/models/condition.rs:63-104 | every target's printed key reads back as that target and survives the trimming of input keys |
| Conditions.OperatorKeyRoundTrip | src/models/condition.rs:124-155 | every operator's printed key reads back as that operator |
| RuleValidator.ParseRuleTree | src/services/rule_validator.rs:48-91 | the nested loops give the whole normalised tree or the first error, numbered by group and condition |
| RuleValidator.ParseGroup | src/services/rule_validator.rs:64-82 | one group: empty and oversized groups are refused before any condition, then the first bad condition decides |
| RuleValidator.FirstErrorDecides | src/services/rule_validator.rs:77-79 | the first error is the outcome, whatever follows it |
| RuleValidator.ShapeErrorsAreExact | src/services/rule_validator.rs:48-62 | a tree is refused for its groups exactly when it has none or more than eight and is not the any-relation preset, which loses its groups |
| RuleValidator.GroupErrorsAreExact | src/services/rule_validator.rs:64-82 | a group is refused for its conditions exactly when it has none or more than twelve |
| RuleValidator.KeyErrorsAreExact | src/services/rule_validator.rs:93-113 | an unknown target, an unknown operator and an operator that does not fit are told apart, in this order |
| RuleValidator.LiteralErrorsAreExact | src/services/rule_validator.rs:114-150 | a bad literal, a between without its maximum and a pattern that does not compile are each refused exactly then |
| RuleValidator.AcceptedTreeIsWellFormed | src/services/rule_validator.rs:48-150 | an accepted tree respects both caps, every operator fits its target's kind, every value has the target's type, every between has a max |
| RuleValidator.ValidatedConditionIsWellFormed | src/services/rule_validator.rs:93-150 | an accepted condition has an allowed operator, a literal of the right type, a compiling pattern |
| RuleValidator.NormalFormsAreFixedPoints | src/services/rule_validator.rs:48-229 | a tree written with the catalogue's keys and parsed again comes back exactly when it is in normal form |
| RuleValidator.ServedTreeSavesBack | src/models/condition.rs:20-22 | the form a tree is stored and served in, posted back, is accepted as that tree exactly when the tree is well formed and no condition is about chat messages |
| RuleValidator.ServedChatTreeIsRefused | src/routes/admin.rs:664-688 | one condition about chat messages anywhere in a served tree is enough to have its save refused |
| RuleValidator.TypedBooleanMeansTheLiteral | src/services/rule_validator.rs:159-171 | the words true and false become those literals |
| RuleValidator.BooleanWordsAreSix | src/services/rule_validator.rs:159-171 | six words, however cased and padded, are booleans, and no other text |
| RuleValidator.TypedIntegerMeansTheLiteral | src/services/rule_validator.rs:172-192 | every i64 printed as text becomes that integer again |
| RuleValidator.FloatsTruncate | src/services/rule_validator.rs:172-192 | a float for an integer target loses its fraction toward zero and is clamped to an i64 |
| RuleValidator.NumbersBecomeIntegers | src/services/rule_validator.rs:172-192 | every number is an integer literal: an i64 keeps its value, a larger unsigned one becomes the greatest i64, a float is cast |
| RuleValidator.OtherLiteralsBecomeText | src/services/rule_validator.rs:216-229 | a text target keeps a text that is not blank and takes integers and booleans as the word they print as |
| RuleValidator.ListsLoseBlanks | src/services/rule_validator.rs:193-229 | a list loses exactly its nulls and empty texts, a bare literal becomes a list of itself |
| RuleValidator.CsvRoundTrip | src/services/rule_validator.rs:193-215 | a comma-separated text of clean words becomes the list of exactly those words |
| Text.WhitespaceIsListed | src/services/rule_validator.rs:100-104 | the blanks that trimming removes are exactly the listed code points |
| Text.TrimCutsExactlyTheBlanks | src/services/rule_validator.rs:100-104 | trimming cuts blanks only, off both ends, and leaves none there |
| Text.OnlyCapitalsAreLowered | src/services/rule_validator.rs:161 | lowering changes the 26 ASCII capitals and nothing else |
| LikePattern.EscapeIsOnePass | src/services/rule_sql.rs:185-189 | the three sequential replacements equal a one-pass escape of backslash, percent and underscore |
| LikePattern.LikeOfEscapedIsContains | src/services/rule_sql.rs:140-145 | for all texts, LIKE with the escaped pattern between percents holds exactly when the text contains the value |
| LikePattern.WildcardsMean | src/services/rule_sql.rs:140-145 | an underscore matches exactly one character, a percent any text, the empty pattern the empty text |
| RuleSql.BuildCondition | src/services/rule_sql.rs:79-172 | one condition's text numbered from the next free placeholder, and the binds it pushes onto the shared vector |
| RuleSql.BuildGroup | src/services/rule_sql.rs:40-50 | the inner loop emits a parenthesised AND of its conditions, FALSE for an empty group |
| RuleSql.BuildRuleWhere | src/services/rule_sql.rs:29-53 | the loops emit the text and the binds of the OR of ANDs |
| SqlClause.ComparisonsFollowSql | src/services/rule_sql.rs:96-170 | each comparison is its relation on two integers, equality on texts and booleans, and NULL with a NULL on either side |
| SqlClause.ConnectivesFollowSql | src/services/rule_sql.rs:40-52 | a true part decides OR and a false one AND; without one a NULL part makes the whole NULL |
| RuleSql.WhereTextParses | src/services/rule_sql.rs:37-52 | the emitted text, parsed with AND tighter than OR, gives back the OR-of-AND tree |
| RuleSql.ConditionReads | src/services/rule_sql.rs:79-172 | each condition's text reads back as the comparison it stands for, wherever it is embedded |
| RuleSql.PlaceholdersAreConsecutive | src/services/rule_sql.rs:79-172 | left to right the placeholders are exactly offset + 1 to offset + number of binds, so the caller's LIMIT is the next free one |
| RuleAgreement.CompiledRuleAgreesWithEvaluator | src/services/rule_sql.rs:29-172 | for every sound tree and every row, also without a relation or a country, the compiled clause is TRUE exactly when the evaluator accepts |
| RuleAgreement.IntConditionAgrees | src/services/condition_eval.rs:74-96 | every operator over an integer fact, missing facts failing closed on both sides |
| RuleAgreement.TextConditionAgrees | src/services/condition_eval.rs:98-127 | every operator over a text fact, NULL included |
| RuleAgreement.FlagConditionAgrees | src/services/condition_eval.rs:67-72 | a flag condition, a missing row reading as false |
| RuleAgreement.AcceptedTreesAreSound | src/services/rule_validator.rs:48-150 | every accepted tree whose country not_in lists name a string meets the agreement's hypotheses |
| RuleAgreement.NullSafetyIsExact | src/services/rule_sql.rs:160-170 | over all rows and moments a well-formed condition agrees exactly when it is null-safe |
| RuleAgreement.NumbersOnlyListDisagrees | src/services/rule_validator.rs:193-215 | an accepted list of numbers only on which the two back ends differ for a viewer without a country |
| RuleAgreement.SettledAgesAreExact | src/services/condition_eval.rs:136-138 | over all sound conditions a row agrees exactly when its ages are settled |
| RuleAgreement.OperatorsFitExactlyWhenTheyCanHold | src/models/condition.rs:157-166 | the validator allows an operator on a target exactly when some literal and some facts satisfy it |
| FollowSync.ResyncExactlyWhenFactsChange | src/services/follow_sync.rs:249-321 | the changed flag is raised exactly when the probe changes some rule input |
| FollowSync.SkippedResyncKeepsEveryVerdict | src/services/follow_sync.rs:166-177 | without the flag every rule tree gives the same verdict before and after, at any later moment |
| FollowSync.ProbedStaysConsistent | src/services/follow_sync.rs:341-373 | a probe keeps a follow date stored exactly for followers |
| FollowSync.SpacedDenialsRemoveTheFollow | src/services/follow_sync.rs:287-320 | exactly the missing number of further spaced denials takes a follow away, none earlier |
| RelationEvents.ReachableRowsAreConsistent | src/routes/webhooks.rs:337-353 | every reachable row has a follow date exactly for followers and no negative counter |
| RelationEvents.FollowChangesOnlyOnEvidence | src/services/follow_sync.rs:249-321 | after any step the flag is set exactly by a follow event or positive answer, or kept unless the last spaced denial came |
| RelationEvents.SubscriptionChangesOnlyOnEvidence | src/tasks/reconcile.rs:239-248 | any evidence of a subscription sets the flag, only the sweep of a lapsed expiry clears it |
| RelationEvents.BadgesChangeOnlyOnEvidence | src/routes/webhooks.rs:505-523 | chat sets and clears the three channel badges, a card only adds them, nothing else touches them |
| RelationEvents.TotalsNeverDecrease | src/routes/webhooks.rs:354-610 | months, gifted subs and kicks never decrease between two points of any run |
| RelationEvents.TotalsAreSums | src/routes/webhooks.rs:402-449 | the kicks total is the sum of the kicks events; the gifted total at least that of the gift events, equal without gifter badges |
| RelationEvents.MonthsAreTheHighestReport | src/routes/webhooks.rs:364-389 | after any step the months are the maximum of what was stored, one more for a renewal, and what the step reports |
| RelationEvents.MonthsCoverEveryReport | src/services/follow_sync.rs:354-368 | at the end of any run the months cover every report made to the stored row |
| RelationEvents.DatesAreWrittenOnce | src/routes/webhooks.rs:343-366 | the first subscription date stays for good, a follow date for as long as the follow lasts |
| RelationEvents.ChatChangesExactlyTheFacts | src/routes/webhooks.rs:503-584 | the chat arm's changed flag is raised exactly when a rule input besides the counter changes |
| RelationEvents.ShownSubscriptionSurvivesSweeps | src/routes/webhooks.rs:548-565 | after a subscriber badge at t (or a probed sub) no step before t + 3 days (t + 5 days) clears the subscription unless a later event supplies an earlier expiry |
| ColumnLaws.ExpiryAfterStep | src/routes/webhooks.rs:354-401 | a supplied expiry is stored as it is and a missing one keeps the old; a badge moves an expiry under a day away to three days, a card lifts it to three days; nothing else moves it |
| ColumnLaws.SuppliedExpiryRules | src/tasks/reconcile.rs:235-248 | from a supplied expiry on, without later evidence, the subscription lasts exactly until the first sweep more than two days past it |
| ColumnLaws.FollowDateIsNamedAtItsStart | src/services/follow_sync.rs:341-346 | in every run a stored follow's date is the one its first step named: the card's following-since, else the step's own time |
| ColumnLaws.FirstDateIsNamedOnce | src/routes/webhooks.rs:354-401 | the first step that can name a first subscription date decides it for good: a supplied creation date, else its own time |
| ColumnLaws.StreakCountsRenewals | src/routes/webhooks.rs:378-400 | between lapses a running streak grows by exactly the renewals |
| ColumnLaws.StreakStep | src/tasks/reconcile.rs:239-248 | a streak starts at one, grows by one per renewal and ends with a lapse |
| ColumnLaws.GiftMarkMeansAGift | src/routes/webhooks.rs:430-447 | the gift mark is set exactly by a gift sub received at some time |
| ColumnLaws.GiftedStep | src/routes/webhooks.rs:567-580 | a gifter badge lifts the gifted total to the count of the first such badge, gifts are added, nothing else moves it |
| ColumnLaws.MonthsStep | src/services/follow_sync.rs:354-368 | the months after each kind of report, clamped at the top of the column |
| ColumnLaws.FollowStampsStep | src/services/follow_sync.rs:341-354 | the confirmation stamp is the last usable answer that left the follow standing, the miss stamp the last counted denial |
| ColumnLaws.CountedDenialStep | src/services/follow_sync.rs:287-320 | a counted denial adds one miss up to the column's top and takes the follow away exactly when the setting is reached |
| ColumnLaws.AgeingStep | src/tasks/reconcile.rs:141-166 | the recount is the sum over the last thirty days, the clean-up drops exactly the older buckets, each unless it failed |
| ColumnLaws.ChatCounterStep | src/routes/webhooks.rs:485-503 | a message adds one to the counter and to its day, and only ageing otherwise touches either |
| FollowRuns.UnfollowNeedsSpacedDenials | src/services/follow_sync.rs:287-320 | in every run a step that turns a follow off ends at least n denials, consecutive ones 6 h apart, with the follow stored and no positive answer from the first on, so (n - 1) * 6 h passed |
| FollowRuns.SpacedDenialsEndTheFollow | src/services/follow_sync.rs:287-320 | conversely in every run in time order n spaced denials, the first of which counts, take the follow away by the last of them unless an answer affirmed it, whatever happens in between |
| FollowRuns.OnlyAnswersClearMisses | src/routes/webhooks.rs:337-353 | the misses counted against a stored follow are cleared exactly by a positive answer or with the follow; a new follow event keeps them |
| FollowRuns.NewFollowIsTakenAway | src/routes/webhooks.rs:343-351 | a run in which a follow event just before the last of three denials does not save the follow |
| FollowUps.BookedProbesEndTheFollow | src/services/follow_sync.rs:196-217 | n denials, each later one from a probe booked at the one before, take the follow away by the last unless an answer affirmed it in between |
| FollowUps.EachBooksTheNext | src/services/follow_sync.rs:173-217 | as long as the follow stands unaffirmed each of those probes asks for the next |
| FollowRuns.CounterIsTruthful | src/services/follow_sync.rs:341-354 | in every run the stored miss counter and its stamp are exactly the counted denials |
| FollowRuns.UnavailableProbesLeaveNoTrace | src/services/follow_sync.rs:136-159 | unavailable probes can be deleted from any run without changing any column but the attempt stamp |
| FollowRuns.StampsAreTheLastTimes | src/services/follow_sync.rs:346-347 | in every run the probed stamp is the last usable answer's time and the attempted stamp the last attempt's |
| ChatWindow.CounterIsTheLog | src/tasks/reconcile.rs:141-157 | in every run in time order the counter is the number of messages dated after the last recount's cutoff |
| ChatWindow.BucketsStayTruthful | src/routes/webhooks.rs:489-501 | the surviving buckets answer for every window from the last recount on |
| ChatWindow.CounterNeverUndercounts | src/tasks/reconcile.rs:137-153 | never below the true 30-day count, and equal to it right after a recount |
| ChatWindow.FilterSkipsNothing | src/tasks/reconcile.rs:150-150 | rows the recount's filter skips would not change |
| ChatWindow.BucketDeletionNeverShows | src/tasks/reconcile.rs:158-165 | deleting old buckets, or failing to, changes no value of the counter |
| RelationStore.Store.ApplyEvent | src/routes/webhooks.rs:270-617 | every cell moves by its own row events, the players to re-sync are queued in order, an unknown channel fails with nothing written |
| RelationStore.Store.ApplyChat | src/routes/webhooks.rs:455-585 | the sequence of updates equals one message's step on the row and bucket, and re-syncs exactly when a badge fact changed |
| RelationStore.ChatInOneGo | src/routes/webhooks.rs:505-580 | the statements one after the other equal the one-step form, their row counts the three parts of the changed flag |
| RelationStore.Store.ApplyGifts | src/routes/webhooks.rs:402-449 | a known gifter is credited once, each giftee in turn gets a gift sub, all are re-synced in that order |
| RelationStore.Store.ProbePlayer | src/services/follow_sync.rs:89-232 | nothing without a probe or an account; else each listed row takes its own probe in turn, at its own moment, the report totals what happened, a change queues a re-sync, one more probe is queued just past the spacing unless one waits |
| RelationStore.ReportMeans | src/services/follow_sync.rs:57-80 | every row is tried, and the flags say whether any fact changed and any denial awaits another |
| RelationStore.ReportCounts | src/services/follow_sync.rs:57-80 | the report's totals are the numbers of rows that answered, follow and lost their follow |
| RelationStore.Store.ExpireLapsed | src/tasks/reconcile.rs:239-248 | the sweep moves exactly the channel's lapsed rows |
| RelationStore.Store.AgeChatActivity | src/tasks/reconcile.rs:141-166 | recount then clean-up move every cell by one ageing step, under each failure |
| RelationHistory.CellHistory | src/routes/webhooks.rs:270-617 | in every run of the tables every cell goes through exactly the row events of the operations, standing where the tables stand between any two of them |
| RelationRuns.TablesKeepEveryRow | src/routes/webhooks.rs:619-633 | so no row of the tables becomes inconsistent and no total decreases |
| RelationRuns.StoredFollowNeedsSpacedRefusals | src/services/follow_sync.rs:106-178 | in every run of the tables an operation that turns a stored follow off is the last of at least n negative probes of that channel and viewer, 6 h apart, the follow stored and unaffirmed throughout |
| RelationRuns.StoredCounterIsTheLog | src/routes/webhooks.rs:485-503 | in every run of the tables the stored counter is the number of the viewer's delivered messages after the last recount's cutoff, never below those of the last 30 days |
| RelationRuns.StoredKicksAreTheSum | src/routes/webhooks.rs:586-610 | in every run of the tables the stored kicks are the initial ones plus those of the viewer's deliveries in the channel |
| RelationRuns.StoredSubscriptionSurvives | src/tasks/reconcile.rs:235-248 | in every run of the tables a subscription seen in chat or on a card lasts to its floor unless a later delivery supplies an earlier expiry |
| RelationRuns.PayloadsNameTheirViewer | src/routes/webhooks.rs:270-610 | a payload means its own event for the viewer it names, kicks only when positive and for the gifter only without a sender, and nothing for anybody else |
| RelationRuns.GiftsAreCredited | src/routes/webhooks.rs:402-449 | a delivery of gifts adds the number of giftees (at least one) to a named gifter's total, makes every giftee a subscriber by gift with the supplied expiry, and leaves everybody else's row alone |
| Resyncs.MovedFactsAreResynced | src/routes/webhooks.rs:270-617 | every delivery that moves a rule input other than the counter of a linked viewer, in any channel, queues that player's re-sync |
| Resyncs.QueuedAreNamed | src/routes/webhooks.rs:270-617 | only viewers for whom the delivery means something are queued |
| Resyncs.ChatResyncsExactlyOnChange | src/routes/webhooks.rs:503-584 | a message queues its sender exactly when it moves such a rule input |
| Resyncs.TouchesExactlyWithEvents | src/routes/webhooks.rs:270-617 | a delivery needs a known channel exactly when it means something for somebody |
| Resyncs.ProbeResyncsExactlyOnChange | src/services/follow_sync.rs:106-178 | a probe of a player's rows reports a change, and so queues a re-sync, exactly when a rule input moved in some channel |
| PendingSyncs.MovedFactsStayPending | src/routes/webhooks.rs:636-648 | in every run of deliveries, probes, sweeps, ageing and syncs, a linked viewer whose rule inputs other than the counter moved in a channel since the last evaluation there has a player sync or a sync of that channel pending |
| PendingSyncs.ActionQueuesTheMoved | src/tasks/reconcile.rs:235-260 | each action keeps what is pending and queues every viewer whose facts it moves, a sweep by way of its channel |
| TokenRefresh.Channel.ValidAccessToken | src/services/broadcaster_token.rs:56-145 | a lone call leaves the row and returns the token exactly as its reads and the answer dictate |
| TokenRefresh.LoneCallTells | src/services/broadcaster_token.rs:56-145 | the row and the result case by case: missing, revoked, good for more than five minutes, and each answer |
| TokenRefresh.RefreshedTokenIsReused | src/services/broadcaster_token.rs:126-144 | the stored token is returned without a request exactly while more than five minutes of its life, counted as at least a minute, remain |
| TokenRefresh.LoneCallerFollowsTheMethod | src/services/broadcaster_token.rs:61-144 | the steps of a lone caller in the protocol end in the method's row and result |
| TokenRefresh.AtMostOneInFlight | src/services/broadcaster_token.rs:74-100 | in every interleaving at most one refresh is in flight |
| TokenRefresh.ReadsTellTheRow | src/services/broadcaster_token.rs:61-97 | in every interleaving a read returns a good token, reports a missing or revoked sign-in, and else goes on to refresh |
| TokenRefresh.TransientAnswersChangeNothing | src/services/broadcaster_token.rs:123 | in every interleaving an answer that settles nothing fails its caller, leaves the row as it is and frees the lock |
| TokenRefresh.SpentTokenIsNeverSentAgain | src/services/broadcaster_token.rs:84-142 | a refresh token that bought a replacement is never sent again by anyone |
| TokenRefresh.NothingIsSentWhileRevoked | src/services/broadcaster_token.rs:92-122 | once a refusal is stamped nothing is sent until a reconnect, and readers are told the sign-in is revoked |
| TokenRefresh.WaiterUsesTheCommittedToken | src/services/broadcaster_token.rs:84-97 | in every run a caller whose re-read follows another one's granted commit returns that token without a request exactly while more than five minutes of it remain, else refreshes the new refresh token |
| TokenRefresh.RowChangesExactlyOnReconnect | src/services/broadcaster_token.rs:74-142 | in every run, while one caller refreshes, the stored refresh token is still the one it read if and only if nobody reconnected |
| TokenRefresh.RefusalStampsItsOwnSignIn | src/services/broadcaster_token.rs:102-122 | a refusal stamps the sign-in it was made for if and only if nobody reconnected meanwhile, else one whose token was never sent |
| TokenRefresh.GrantReplacesItsOwnSignIn | src/services/broadcaster_token.rs:126-144 | a grant replaces the sign-in it was made for if and only if nobody reconnected meanwhile, else it overwrites the new one, whose token is never sent, before or after |
| TokenRefresh.LateAnswersHitTheNewSignIn | src/routes/oauth.rs:222-253 | both happen: runs from an idle system in which a reconnect during a refresh ends stamped and ends overwritten |
| JobQueue.BackoffGrows | src/services/jobs.rs:178-186 | each further attempt waits longer whatever the jitter, from 2 s up to under 257 s |
| JobQueue.BackoffDoubles | src/services/jobs.rs:178-186 | two seconds, doubling with each attempt up to the eighth, plus less than a second of jitter |
| JobQueue.OnlyFiveKindsAreKnown | src/services/jobs.rs:44-53 | five words name a kind of job each, and no other word does |
| JobQueue.ClaimTakesTheOldest | src/services/jobs.rs:109-115 | a claim takes due jobs only, as many as there are up to the limit, smallest ids first |
| JobQueue.ClaimHandsOutTheOldest | src/services/jobs.rs:99-123 | the same of one claim statement as a function of the table, which the runs use |
| JobQueue.OnlyTransientErrorsAreRetried | src/tasks/job_worker.rs:71-133 | a dispatched job is retried exactly for a transient error with attempts left, completed exactly when its work succeeded, dead otherwise |
| JobQueue.ShutdownReleasesTheJob | src/tasks/job_worker.rs:63-69 | a job met by the shutdown is pending again with its attempts as they were, due after its backoff |
| JobQueue.JobTable.Enqueue | src/services/jobs.rs:73-97 | a new pending row with no attempts and eight allowed, and a notification exactly when it is due at once |
| JobQueue.JobTable.ClaimBatch | src/services/jobs.rs:99-123 | the worker is handed as many due jobs as there are up to the limit, smallest ids first and in order, each locked and counted once more; no other row changes |
| JobQueue.JobTable.FailRetry | src/services/jobs.rs:136-150 | the row is pending again, unlocked, due after the backoff of the claim's attempt |
| JobQueue.JobTable.ReapStuck | src/services/jobs.rs:165-176 | exactly the rows locked longer than 45 minutes are pending and due at once |
| JobQueue.JobTable.WorkBatch | src/tasks/job_worker.rs:63-105 | each job of a batch is completed, buried, retried or released by what it met, or left locked when that write failed, and no other row is written |
| JobQueue.WorkedTells | src/tasks/job_worker.rs:63-105 | from the shutdown on jobs are only released, before it each is settled by its verdict, and what could not be stored stays locked |
| JobRuns.LockAlwaysTells | src/services/jobs.rs:99-176 | in every run a job is in progress exactly when its lock fields are set, and its only holder is the one named |
| JobRuns.AtMostOneHolder | src/services/jobs.rs:109-115 | at most one worker holds a job |
| JobRuns.WorkerKeepsItsJob | src/services/jobs.rs:165-176 | in every run a job taken at t and not settled stays unchanged with its worker as long as nobody reaps later than t + 45 minutes |
| JobRuns.LateReapReturnsTheJob | src/tasks/job_worker.rs:21-38 | the first reap later than that returns it, pending and due at once, to nobody |
| JobRuns.ClaimTakesTheWaiting | src/services/jobs.rs:99-123 | a claim takes a job exactly when it is pending, due, and fewer than the limit of such jobs come before it |
| JobRuns.StalledJobIsTakenOver | src/services/jobs.rs:165-176 | a run in which a stalled worker's job is finished by another one |
| JobRuns.ClosedIsFinal | src/services/jobs.rs:125-163 | completed and dead jobs never change and are never claimed |
| JobRuns.CompletionIsStamped | src/services/jobs.rs:125-163 | a closed job carries the time of the settlement that closed it, an open one none |
| JobRuns.AttemptsAreClaims | src/services/jobs.rs:105-108 | the attempt counter is the number of claims, each settled, returned or still held |
| JobRuns.ClaimsAreBounded | src/tasks/job_worker.rs:84-101 | claims number at most max_attempts plus the job's reaps and shutdown releases |
| JobRuns.OrdinaryStepLowersRank | src/tasks/job_worker.rs:71-104 | without returns every claim and settlement lowers a rank, so ordinary work on a job ends |
| JobRuns.RetryWaitsOutItsBackoff | src/services/jobs.rs:136-150 | a retried job's row rests unchanged and is not claimed before its backoff is over |
| WebhookDedupe.FreshMeansElevenMinutes | src/services/kick.rs:566-574 | the freshness test accepts exactly the stamps less than eleven minutes away |
| WebhookDedupe.Deliveries.KickWebhook | src/routes/webhooks.rs:76-161 | each response exactly under its own condition; the id stays stored exactly for a first authentic delivery that is not JSON or whose apply worked; only the latter is applied |
| WebhookDedupe.SendTwice | src/routes/webhooks.rs:148-158 | a request whose apply failed, sent again while it still verifies, is applied if the apply then works, and never twice |
| WebhookDedupe.StatusesTellWhoFailed | src/routes/webhooks.rs:89-161 | 500 exactly for failures of the server, 4xx for those of the request |
| WebhookDedupe.AuthenticMeansSigned | src/services/kick.rs:552-600 | complete, signed under the cached or a freshly fetched key, stamped less than eleven minutes away |
| WebhookDedupe.LoneDeliveryFollowsTheMethod | src/routes/webhooks.rs:76-161 | the steps of a lone delivery in the protocol end in the rows and applies the method promises |
| WebhookDedupe.AppliedAtMostOnce | src/routes/webhooks.rs:109-158 | in every run with safe stalls a message has at most one successful apply |
| WebhookDedupe.FailedApplyLetsTheNextIn | src/routes/webhooks.rs:148-158 | in every run after a failed apply the next handler that comes to insert the message gets to apply it |
| WebhookDedupe.RowsAreKeptADay | src/tasks/reconcile.rs:130-134 | the clean-up keeps exactly the rows of the last 24 hours |
| WebhookDedupe.LongerStallAppliesTwice | src/tasks/reconcile.rs:130-134 | for every longer stall there is a run that applies a message twice |
| RoleLogic.UploadUsers | src/services/rolelogic.rs:255-317 | one PUT or a chunked session, chunks within the cap and adding up to the input; the remote set is swapped whole or stays |
| RoleLogic.UploadIsAtomic | src/services/rolelogic.rs:401-439 | an upload reports success exactly when it swapped the set and the reply to its last request was read |
| BulkLaws.RejectionsMean | src/services/rolelogic.rs:126-149 | which status and body mean gone, inactive, over the limit or held, at which endpoint |
| BulkLaws.OtherRepliesMean | src/services/rolelogic.rs:255-317 | an accepted request succeeds, an unread reply is success only for a chunk, and any other failure is told as one |
| BulkLaws.SwapsExactlyWhenCarriedOut | src/services/rolelogic.rs:255-317 | the set is swapped exactly when the last request, and for a session every one before it, was carried out |
| BulkLaws.ChunkCountIsTheCeiling | src/services/rolelogic.rs:275-277 | as few chunks of a hundred thousand as hold the list |
| RoleSync.BulkSelectsTheQualifying | src/services/sync.rs:363-404 | the bulk query selects exactly the members the per-player decision lets qualify |
| RoleSync.PlayerSyncKeepsMirror | src/services/sync.rs:239-302 | the mirror stays equal to the remote set under every outcome, except exactly a lost confirmation |
| BulkLaws.PlayerSyncMovesOneMember | src/services/sync.rs:239-302 | one member's sync moves nobody else, and the member only as decided and confirmed |
| RoleSync.BulkSyncKeepsMirror | src/services/sync.rs:426-500 | over either transport the mirror stays equal to the remote set exactly unless the last request of an upload was carried out and its reply lost |
| BulkLaws.BulkSyncHasThreeEnds | src/services/sync.rs:311-459 | the link is dropped because it is gone, or its mirror is as before, or an accepted upload put in exactly those who should have the role |
| BulkLaws.LossesHaveReasons | src/services/sync.rs:311-459 | nobody loses the role unless the link is gone, or an accepted upload found that nobody can qualify or that the member is not among the lowest qualifying ids |
| BulkLaws.UnknownMembersChangeNothing | src/services/sync.rs:341-347 | without a member list nothing is written and the error is returned |
| BulkLaws.UnknownLinkIsLeft | src/services/sync.rs:319-330 | nothing is written for a link that is not stored |
| BulkLaws.FailedInfoChangesNothing | src/services/sync.rs:353-361 | a failed user-info call drops a gone link, passes over an inactive one, and else changes nothing and fails |
| BulkLaws.WritesToGoneLinks | src/services/sync.rs:426-438 | a write that meets a gone link drops it, one that meets an inactive link leaves it |
| BulkLaws.AcceptedBulkSyncGrantsToAll | src/services/sync.rs:363-459 | with every reply accepted the mirror holds exactly those who should have the role |
| BulkLaws.HeldWritesAreRechecked | src/services/sync.rs:426-438 | a write is booked to be tried again exactly when the service held it back, and then neither set moves |
| BulkLaws.OnlyWritesAreRechecked | src/services/sync.rs:426-438 | a re-check is booked only for a write the service held back |
| RoleSync.RecoveryIsExact | src/services/sync.rs:406-459 | from any state an accepted bulk sync makes mirror and remote set equal, except exactly when they differ and the stale mirror is the target |
| RoleSync.MirrorTracksUntilALoss | src/services/sync.rs:239-500 | over every mix of player and bulk syncs the mirror equals the remote set throughout exactly when no confirmation is lost |
| RoleSync.PlansOnlyNewSets | src/services/sync.rs:406-424 | only a list that differs from the mirror as a set is ever uploaded |
| RoleSync.SecondBulkSyncUploadsNothing | src/services/sync.rs:406-424 | after an accepted bulk sync, one at which the same people qualify uploads nothing |
| RoleSync.AcceptedBulkSyncReachesItsTarget | src/services/sync.rs:440-458 | an accepted upload leaves the mirror at exactly the target set |
| RoleSyncAgreement.SweepEqualsBulkWithoutStrays | src/services/sync.rs:197-233 | one per-player sync of every member in any order equals one bulk sync exactly when the mirror holds no stray |
| RoleSyncAgreement.SweepSettlesEachVisited | src/services/sync.rs:219-232 | a sweep leaves each visited member where the rule puts them and every other as they were |
| RoleSyncAgreement.PreviewCountsTheBulkSet | src/routes/admin.rs:815-910 | a reported count is the number of qualifying members, and the size of the bulk list exactly when the limit does not bind |
| RoleSyncAgreement.PreviewIsExact | src/routes/admin.rs:815-910 | which previews carry no count and why, and what matching and linked count |
| SyncEngine.SelectQualifying | src/services/sync.rs:375-404 | the query, with channel, members and limit read from its parameters at the indexes the caller computes, gives the bulk list |
| SyncEngine.LimitIndexIsFree | src/services/sync.rs:378-402 | the limit's index is not among the rule's placeholders, which are exactly those between the caller's two and it |
| SyncEngine.PreviewCount | src/routes/admin.rs:815-910 | the guards and the counting query give the preview |
| SyncEngine.Engine.SyncForPlayer | src/services/sync.rs:138-305 | the actions are listed, then carried out: every link of the member's guilds moves by that member's sync, no other link moves |
| SyncEngine.Engine.SyncForRoleLink | src/services/sync.rs:311-459 | the link moves as planned, held writes are re-checked, no other link moves |
| SyncEngine.Engine.DrainToEmpty | src/services/sync.rs:461-500 | an empty mirror is left alone, else an empty list is uploaded and mirrored |
| Paging.RelationWordsRoundTrip | src/routes/api_v1.rs:352-368 | exactly the five words are accepted, each for its own relation |
| Paging.RelationWordsMeanTheirFlags | src/routes/api_v1.rs:448-451 | each word lists exactly the linked members with that relation in some channel of the guild |
| Paging.UnfilteredListIsTheLinked | src/routes/api_v1.rs:461-482 | without filters every member with a linked account is listed |
| Paging.UpdatedSinceMeansTouched | src/routes/api_v1.rs:443-482 | updated since a moment means the account refreshed or some relation synced at or after it |
| Paging.FiltersIntersect | src/routes/api_v1.rs:443-482 | two filters list those whom both list |
| Paging.PageSizesAreCapped | src/routes/api_v1.rs:183-184 | a hundred to a page by default, never fewer than one or more than five hundred |
| Paging.ListUsers | src/routes/api_v1.rs:176-213 | over-fetching by one and truncating gives the next page and a cursor exactly when rows are left over |
| Paging.PageOfIsPage | src/routes/api_v1.rs:475-482 | a page is sorted, past its cursor, and leaves out only what lies past its own cursor |
| Paging.CursorMeansMore | src/routes/api_v1.rs:190-213 | a page carries a cursor exactly when it leaves somebody out |
| Paging.WalkNeverRepeats | src/routes/api_v1.rs:205-213 | however the table changes between requests no walk returns a user twice |
| Paging.WalkTerminates | src/routes/api_v1.rs:183-213 | a walk has at most one page per full page of users there ever were, plus one |
| Paging.FinishedWalkReturnsEveryMatch | src/routes/api_v1.rs:475-482 | a finished walk returns every user who matched at every request exactly once |
| Paging.UnchangedTableIsListedWhole | src/routes/api_v1.rs:183-213 | on an unchanged table the pages concatenate to the whole sorted, filtered list |
| ChannelNames.ChannelTable.StoreChannelName | src/routes/webhooks.rs:220-261 | it never fails, hands the slug over and keeps slugs unique and placeholders their own |
| ChannelNames.SecondWriteIsFree | src/routes/webhooks.rs:247-260 | after parking the second write cannot collide |
| ChannelNames.RenameHandsOverTheSlug | src/routes/webhooks.rs:247-260 | the channel ends with the announced names, a former holder is parked, everyone else keeps both names |
| ChannelNames.RenameKeepsInvariants | src/routes/webhooks.rs:214-219 | unique slugs and own placeholders survive every rename with a valid identifier |
| ChannelNames.RunsKeepNamesApart | src/routes/webhooks.rs:220-261 | both invariants hold over every run of renames |
| ChannelNames.LastClaimStands | src/routes/webhooks.rs:220-261 | every channel stands where its last undisputed claim left it |
| ChannelNames.IdentifiersAreNotTilde | src/services/kick.rs:629-634 | no valid identifier looks like a placeholder |
| ChannelNames.IdentifiersAreListed | src/services/kick.rs:629-634 | one to sixty-four letters, digits, underscores, dashes and dots |
| Backfill.SelectViewers | src/services/follow_sync.rs:586-604 | the selection is a full batch of candidates, none of whom was attempted later than a candidate left out |
| Backfill.CandidatesHaveUnreadRows | src/services/follow_sync.rs:586-600 | considered are the viewers with a row never answered and not tried within a day, and no probe on its way |
| Backfill.OrderIsByAttempt | src/services/follow_sync.rs:600-601 | viewers never attempted come first, then by earlier attempt |
| Backfill.EnqueueBatch | src/services/follow_sync.rs:608-616 | the batch becomes runnable one spacing after another, in order |
| Backfill.SpacingFollowsTheBudget | src/services/follow_sync.rs:410-412 | whole seconds, rounded down, at least one: no slower than a budget of up to 60 a minute, and within it exactly when it divides 60 or is at least 60 |
| Backfill.NobodyStarves | src/services/follow_sync.rs:581-616 | every viewer eligible at the start is selected within ceil(N / B) cycles |

## Left out

- RelationStore.Store.ProbePlayer: a webhook that writes one of the listed rows between the listing and that row's own probe is not modelled; in a run of the tables each channel's probe is an operation of its own.
- SyncEngine.Engine.SyncForPlayer: carries the listed actions out one at a time; the code runs up to ten at once, always on distinct links.
- WebhookDedupe.AppliedAtMostOnce: assumes the bound on the time between verification and insert that nothing in the code enforces, and one clock for application and database.
- JobRuns.LockAlwaysTells: assumes a reaped worker never writes again; a live worker that outlasts the 45-minute lock is not modelled.
- TokenRefresh.SpentTokenIsNeverSentAgain: assumes commits succeed, new tokens are fresh and a transient error spends nothing at the provider; a crash between a successful answer and its commit, or a reply lost after the provider rotated the token, is not modelled.
- RoleSyncAgreement.SweepEqualsBulkWithoutStrays: assumes every call accepted and a limit that does not bind; under a binding limit the order of per-player syncs decides who is let in.
- PendingSyncs.MovedFactsStayPending: a channel sync counts as evaluating its channel, its fan-out into one sync per role link and the failure of a write that queues are not modelled; the chat counter queues nothing by itself.
- Backfill.NobodyStarves: assumes a fixed backlog, every probe unavailable and each selected viewer attempted before the next cycle.
- JobRuns.ClaimsAreBounded: max_attempts is the column default of eight, which no insert in the code overrides.
- Unlink, which drops a relation row and keeps its buckets, and partial application of an event before a failed enqueue.
- INTEGER overflow in the stored counters, and the columns last_seen_at and last_synced_at of relation rows outside the users API.
- HTTP, headers, templates, rate limiting, tracing, configuration parsing and the OpenAPI document.
- Cryptography and token formats; a signature check is a boolean and decryption does not fail.
- JSON and timestamp parsing; a malformed stored tree reads as the default tree before the model starts.
- Regular expressions: one uninterpreted engine shared by both back ends; the two real dialects differ.
- Live-status and metadata events, viewer renames, username repair and the event-subscription self-heal.
- The staleness sweep's own selection, which has the shape of the backfill's.
- Concurrent player and link syncs around a remote call; jobs run one at a time.
- The single-user endpoint, API keys, OAuth callbacks and the HTML users page.
