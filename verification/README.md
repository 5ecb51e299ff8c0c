# Microsoft Teams plugin: a verified model

The plugin connects Mattermost users with Microsoft Teams. This project models its stateful core in
Dafny and proves what the code keeps in every interleaving and after every failing call:

- **Connection admission** (`Admission`, `AdmissionTasks`, `AdmissionTheorems`, `ConnectService`).
  Invitations and OAuth connects check and then write under one cluster mutex; disconnects, token losses,
  token refreshes, whitelist uploads and configuration changes do not take it. `Admission` is a step machine with one
  step per store call, any of which may fail; `ConnectService.Plugin` is the imperative code, each method
  proved to end where that machine ends with the same answers to its calls.
- **Users, subscriptions and whitelist tables** (`Users`, `Subscriptions`, `Whitelist`): delete-then-insert
  transactions with key constraints and rollback, refining simple maps and sets.
- **Subscription reconciler** (`Reconciler`, `MonitorPass`, `MonitorJob`): one remote "all chats"
  subscription and one local row, with lifecycle notifications between any two calls.
- **Activity queue and self-restarting workers** (`WorkerPool`, `WorkerAccounts`, `ActivityHandlers`).
- **Mention conversion** (`Text`, `Mentions`, `MentionVisible`, `MentionDocs`, `MentionCollapse`,
  `MentionSubstitution`, `MentionGlue`, `MentionWalk`, `MentionStability`) and the loop that relays a
  message (`ChatNotifications`).
- **Ranged download, OAuth state, group chat matching, attachment accounting** (`FileStream`,
  `OAuthState`, `GroupChat`, `Attachments`).

Where the program changes an object or loops, the model is a class or a loop proved against a
specification; what the program promises is proved of the specification, for all inputs and all runs.
Where a specification only computes, a contract or a lemma beside it says what comes out on the columns,
texts and counts themselves: `Users.Written`, `AdmissionTasks`, `MonitorPass.Outcome`, `WorkerAccounts`,
`MentionWalk.ReadsAs`.

`dafny verify dfyconfig.toml` checks everything.

## Assumptions

- Transactions are serial, and reads see the latest committed write. The cluster mutex excludes.
- A call that returns an error had no effect, except for functions that write more than once, which are
  modelled write by write (storing an invite also deletes a whitelist entry).
- The clock is positive and never runs backwards. The lookups behind a mention do not change while one
  message is relayed.
- Microsoft Graph answers with an error for a subscription that it does not have, gives new subscriptions
  ids that are new to both sides, and the reconciler starts with at most one chats subscription. At most
  one monitor job runs at a time.
- A refresh grants two hours from the moment it takes effect. The program computes the new expiry time just
  before the call (server/msteams/client.go:935-944); a call so slow that it would move an expiry time back
  is assumed away.
- An activity handler is started once and stopped at most once, after it has started. Gauge calls do not
  panic.

## What the code does that a reader may not expect

- A file whose size is a multiple of the buffer size is delivered with the body of the final 416 answer
  appended (`FileStream.FaithfulIff`).
- Converting the same message again for the next chat member can change it: when two consecutive mentions
  of one user, whose lookup fails, keep their tags, and what stands between them reads as exactly `&nbsp;`
  once the tags between them are replaced, by an empty name for instance.
  `MentionStability.ReconversionStableIff` proves that this is exactly when, message by message;
  `MentionStability.SafeMentionsIff` says which lists of mentions are safe in every message.
- At the ten-file limit the number of skipped attachments counts every failure twice and every reused file
  once (`Attachments.ReportExactIff`). The error flag of an oversized file is overwritten by a later upload
  (`Attachments.FlagIsLastWord`).
- An invitation message is sent again when storing its record failed, any number of times
  (`AdmissionTheorems.MessagesRepeat`); the record itself is created at most once
  (`AdmissionTheorems.MessagesAccountedFor`). Reading an invite record returns the last-sent time as
  the time it has been pending since (server/store/sqlstore/store.go:1051-1057).
- A token refresh that is under way can undo a disconnect: it stores its token after the disconnect has
  cleared the old one (`AdmissionTasks.RefreshUndoesDisconnect`). Nothing but a refresh or an admission can
  (`AdmissionTasks.TokenStaysAway`).
- A state with a separator where it would be misread is rejected when it comes back, never taken for
  another (`OAuthState.RoundTripIff`).
- A panic that is still unrecovered when the quit channel closes ends the process instead of the wait
  (`WorkerPool.StopCanFinish`). Without one the stop is certain and bounded
  (`WorkerPool.StandstillIsTheEnd`, `WorkerPool.StopIsBounded`).

## Model

| member | source | states |
|---|---|---|
| `Users.Table.SetUserInfo` | server/store/sqlstore/store.go:409-480 | The transaction succeeds exactly when no call fails and nobody else holds the Teams id, and otherwise leaves the table as it was. Storing a token stores that token and the current time as connect time and keeps the disconnect time; storing none clears the token, keeps the connect time and stamps the disconnect time exactly when a token was held; no other row changes |
| `Users.Table.GetUserConnectStatus` | server/store/sqlstore/store.go:371-407 | Connected exactly with a non-empty token; each time as stored, a zero meaning never; never connected for a missing row |
| `Users.Table.TeamsToMattermostUserID` | server/store/sqlstore/store.go:209-219 | Finds the holder of a Teams id, or none |
| `Users.Table.MattermostToTeamsUserID` | server/store/sqlstore/store.go:221-231 | Finds the Teams id of a user, or none |
| `Users.InsertOutcome` | server/store/sqlstore/store.go:451-468 | After the delete, the insert fails exactly when another user holds the Teams id (the unique index), and the branch of the upsert that overwrites is never taken |
| `Users.DeleteThenAdd` | server/store/sqlstore/store.go:438-480 | Deleting a user's rows and adding one keeps one row per user and is a single map update of the view |
| `Users.InsertKeepsIndex` | server/store/sqlstore/migrations/000013_users_teamsuserid_unique_index.up.sql:1 | A permitted insert keeps the unique index |
| `Users.SetInfoKeepsBijection` | server/store/sqlstore/store.go:438-480 | A write keeps the table a partial bijection, and its user ends up holding the Teams account, in both lookups, exactly when nobody else held it |
| `Users.LookupsAreInverse` | server/store/sqlstore/store.go:209-231 | The two id lookups are mutually inverse |
| `Users.SetInfoKeepsTimes` | server/store/sqlstore/store.go:409-436 | A write keeps the stored times in order: a token implies a connect, connected rows connected last, disconnected rows disconnected last, nothing lies in the future |
| `Users.SetInfoGrowsHasConnected` | server/store/sqlstore/store.go:438-480 | A write adds its user to those who have connected exactly when it stores a token and succeeds, and removes nobody |
| `Users.RunKeepsTable` | server/store/sqlstore/store.go:409-480 | Over every sequence of calls, failing or not, the table stays a partial bijection with ordered times and forgets nobody who has connected |
| `Users.DisconnectTimeNeedsEdge` | server/store/sqlstore/store.go:409-436 | Over every sequence of calls the last disconnect time of a user changes exactly when a held token is lost on the way, and then lies within the run |
| `Subscriptions.Table.Save` | server/store/sqlstore/public_methods.go:173-232 | Begin, delete, insert, commit: succeeds exactly when no call fails and no row that is kept has the new id, and then leaves, column by column, the one new row and all rows of other targets; a failure leaves the table as it was |
| `Subscriptions.Table.UpdateSubscriptionExpiresOn` | server/store/sqlstore/store.go:662-669 | Gives the row with the id the new expiry time, keeps everything else of it and every other row, and keeps the table well-formed |
| `Subscriptions.Table.DeleteSubscription` | server/store/sqlstore/store.go:671-677 | Removes the row with the id and keeps every other |
| `Subscriptions.Table.ListGlobalSubscriptions` | server/store/sqlstore/store.go:568-593 | Returns the all chats rows, of which there is never more than one |
| `Subscriptions.SaveOutcome` | server/store/sqlstore/store.go:626-660 | A save leaves exactly its own row for its target and every other row alone, and fails exactly when a row it does not replace has its id |
| `Subscriptions.CommitKeepsWellformed` | server/store/sqlstore/store.go:626-677 | Every operation, failing or not, keeps at most one all chats row, one row per non-null user, one per non-null (team, channel), and distinct ids |
| `Subscriptions.RunOpsKeepsWellformed` | server/store/sqlstore/store.go:626-677 | The same over every sequence of saves, updates and deletes |
| `Whitelist.StoreUsersInWhitelist` | server/store/sqlstore/store.go:885-901 | One insert statement succeeds exactly when its ids are distinct and new, and then adds exactly them |
| `Whitelist.StoreInBatches` | server/store/sqlstore/store.go:903-925 | For any batch size the stored batches are consecutive, non-empty, at most max(1, size) long and full but for the last; it fails exactly at a repeated id or at the insert that fails |
| `Whitelist.Table.SetWhitelist` | server/store/sqlstore/public_methods.go:273-291 | Succeeds, barring other errors, exactly when the ids are distinct, leaving the whitelist equal to them; otherwise the old whitelist stays |
| `Whitelist.Table.IsUserWhitelisted` | server/store/sqlstore/store.go:927-943 | True exactly for a listed user with a non-empty id |
| `Whitelist.DistinctAppend` | server/store/sqlstore/store.go:903-925 | A prefix and a batch together repeat nothing exactly when neither does and they share nothing |
| `Admission.InviteStepKeepsInv` | server/connect.go:39-92 | Every call of an invitation, answered or failing, keeps what the invitation has read true while it holds the mutex |
| `Admission.ConnectFactsStep` | server/api.go:477-536 | Every call of an admission keeps what the admission has read true while it holds the mutex |
| `Admission.TaskStepKeepsInv` | server/plugin.go:166-222 | Disconnects, token losses and token refreshes, call by call and outside the mutex, break nothing that a holder of the mutex relies on |
| `Admission.ApplyKeepsInv` | server/api.go:477-536 | Every single step of the protocol keeps its invariant |
| `AdmissionTasks.TaskWrites` | server/plugin.go:166-222 | In every interleaving the only writes outside the mutex are those of a disconnect, a token loss and a refresh: the first two leave the row without a token and stamp the time exactly if one was held, the last stores the new token as a connect; nothing else changes |
| `AdmissionTasks.DisconnectClears` | server/command.go:159-187 | Run without interruption in any state, the disconnect command clears a held token and stamps the time exactly when all its calls succeed, and otherwise changes nothing |
| `AdmissionTasks.LossClears` | server/plugin.go:166-187 | Run without interruption in any state, the token loss handler clears a held token and stamps the time when its calls succeed; without a token nothing changes |
| `AdmissionTasks.RefreshReplaces` | server/plugin.go:189-222 | Run without interruption in any state, a refresh replaces a held token and bumps the connect time exactly when all its calls succeed, and otherwise changes nothing |
| `AdmissionTasks.InvitationArrives` | server/connect.go:14-37 | An invitation reaches the mutex exactly when there is a pending limit and the user can be invited, and takes it when it is free |
| `AdmissionTasks.RedirectArrives` | server/api.go:467-475 | A redirect reaches the mutex unless somebody holds a token for its Teams account and the look-up says so; a failing look-up lets it pass |
| `AdmissionTasks.StepToken` | server/store/sqlstore/store.go:438-480 | Which steps make a user hold a token or lose it: both directions, for every step in every interleaving |
| `AdmissionTasks.TokenStaysAway` | server/command.go:159-187 | Over every run a user without a token stays without one until an admission or a refresh stores one for that user |
| `AdmissionTasks.RefreshUndoesDisconnect` | server/plugin.go:205-219 | From every state with a held token: a refresh that has read all it needs before a disconnect stores its token after it, so that the user holds one again |
| `AdmissionTasks.SurroundingsChange` | server/store/sqlstore/public_methods.go:273-291 | Time, a new configuration and an upload change the clock, the configuration and the whitelist and nothing else; an upload of distinct ids leaves exactly them |
| `AdmissionTheorems.StepMembers` | server/connect.go:39-92 | Which step changes who has connected and who is invited, and how |
| `AdmissionTheorems.NewMemberFits` | server/connect.go:134-139 | The sum of the two counts over-counts the union, so whoever is added under the mutex still fits under the limit |
| `AdmissionTheorems.CapacityHolds` | server/api.go:477-536 | In every interleaving with every failure, the users who have connected or hold an invite never outnumber the larger of their initial number and the greatest limit ever in force |
| `AdmissionTheorems.PendingHolds` | server/connect.go:114-142 | In every interleaving the pending invites never outnumber the larger of their initial number and the greatest pending limit ever in force |
| `AdmissionTheorems.RestrictedHolds` | server/connect.go:114-192 | While restricted mode is in force throughout, everyone who has become invited or connected was so initially or had been on the whitelist at some time, even with uploads between check and write |
| `AdmissionTheorems.StepPhase` | server/connect.go:39-92 | No step moves a user back; an invite record is created exactly by a successful store, and only for a user who is neither invited nor connected |
| `AdmissionTheorems.PhasesHold` | server/connect.go:39-92 | Over every run a user goes from not invited to invited to has connected and never back, and gets at most one invite record |
| `AdmissionTheorems.MessagesAccountedFor` | server/connect.go:69-92 | Every invitation message to a user is accounted for by the one record, by a store that failed after it, or by a store still to come |
| `AdmissionTheorems.MessagesRepeat` | server/connect.go:69-92 | As long as storing fails, a user to whose invitation nothing stands in the way can be sent any number of messages without getting a record |
| `AdmissionTheorems.InvitableExists` | server/connect.go:39-92 | There is an initial state in which nothing stands in the way of an invitation |
| `ConnectService.ReleaseIsRun` | server/api.go:477-536 | A whole stay inside the mutex, with any answers to its calls, is a run of the step machine that makes them one by one |
| `ConnectService.Plugin.MaybeSendInviteMessage` | server/connect.go:14-92 | Records and sends exactly when there is a pending limit, the user is no bot, guest or unknown, has not connected, holds no record with a time, finds room and, in restricted mode, a place on the whitelist, it is no weekend, and no call on the way fails; states every table afterwards. Called with the current time it is a run of the protocol from its first step to its last |
| `ConnectService.Plugin.InviteLocked` | server/connect.go:36-92 | The part inside the mutex: the same conditions and tables, and it ends where the protocol ends with the same answers |
| `ConnectService.Plugin.CanInviteUser` | server/connect.go:114-142 | Goes on where the protocol goes on; a yes means exactly that no call failed, both limits leave room and, in restricted mode, the user is whitelisted |
| `ConnectService.Plugin.SendAndRecord` | server/connect.go:69-112 | Ends where the protocol ends; records and forgets exactly when sending is due and every write so far succeeds |
| `ConnectService.Plugin.StoreInvitedUser` | server/store/sqlstore/store.go:1008-1028 | Two writes: the record stays when forgetting the whitelist entry fails |
| `ConnectService.Plugin.GetInvitedUser` | server/store/sqlstore/store.go:1030-1060 | Reads a record as the time it has been pending since: the last-sent time wins over the stored one |
| `ConnectService.Plugin.UserHasRightToConnect` | server/connect.go:144-164 | Goes on where the protocol goes on; answers yes exactly for a user who has connected or is invited |
| `ConnectService.Plugin.UserCanOpenlyConnect` | server/connect.go:166-192 | Goes on where the protocol goes on; answers yes exactly when a place is free and, in restricted mode, the user is whitelisted |
| `ConnectService.Plugin.StoreConnection` | server/api.go:511-536 | Ends where the protocol ends; states every table after the writes of an admission, whichever of them fail: the user's row column by column, and that a failing preference leaves the token stored |
| `ConnectService.Plugin.FinishConnection` | server/api.go:517-536 | A failing preference ends the admission with the token stored; otherwise invite and whitelist entry are dropped, each unless its own delete fails |
| `ConnectService.Plugin.Admit` | server/api.go:477-536 | Ends where the protocol ends with the same answers. Connects exactly whom it may (connected before, invited, or with room and, in restricted mode, on the whitelist) when the writes succeed; denies exactly who lacks room or an invitation; states every table in every case, and changes nothing when a call fails before the decision |
| `ConnectService.Plugin.AdmitUnlessHeld` | server/api.go:467-536 | The redirect from the check of the Teams account on is a run of the protocol; a held Teams account ends it with nothing changed |
| `ConnectService.Plugin.DenyConnection` | server/api.go:495-499 | Ends where the protocol ends; a denied user keeps or gets a row without a token, with the disconnect time stamped exactly if a token was held |
| `ConnectService.Plugin.ForgetInvitation` | server/api.go:530-536 | Ends where the protocol ends; a failing delete leaves its table alone and does not stop the other |
| `ConnectService.Plugin.ExecuteDisconnectCommand` | server/command.go:159-187 | Is a run of the protocol. Clears a held token, stamps the time and switches the notification preference off, changing nothing else; anything else changes nothing |
| `ConnectService.Plugin.OnDisconnectedTokenHandler` | server/plugin.go:166-187 | Is a run of the protocol. Clears a held token and stamps the time; without a token, or with a failing call, nothing changes |
| `ConnectService.Plugin.GetClientForUser` | server/plugin.go:189-222 | Is a run of the protocol. Replaces an expired token by the refreshed one, counts it as a connect and changes nothing else; a failing call changes nothing |
| `ConnectService.Plugin.SetConfiguration` | server/configuration.go:119-150 | Is a step of the protocol: a new configuration is in force for every call after it |
| `ConnectService.Plugin.SetWhitelist` | server/store/sqlstore/public_methods.go:273-291 | Is a step of the protocol: distinct ids replace the whitelist, a repeated id leaves it as it was |
| `Reconciler.CreatedIsRecognised` | server/subscriptions.go:144-161 | The scan recognises whatever SubscribeToChats creates, for every base URL and either billing model |
| `Reconciler.ScanIsExact` | server/subscriptions.go:144-161 | With at most one chats subscription, any complete listing in any order finds exactly it, with its expiry time |
| `Reconciler.MonitorStepKeepsInv` | server/subscriptions.go:53-140 | Every call of a pass, failing or not, keeps both sides at at most one |
| `Reconciler.AtMostOneAlways` | server/subscriptions.go:53-140 | No run of passes and notifications, with any calls failing and the remote side losing subscriptions at any time, ever has two remote subscriptions or two rows |
| `Reconciler.OnePassRepairs` | server/subscriptions.go:53-140 | After any failures, one pass of which at most the refresh or its record fails makes at most ten calls and ends with both sides holding the same single subscription, with notifications running through it |
| `MonitorPass.RepairExists` | server/subscriptions.go:53-140 | From every state, even when the pass under way panics, there is a repairing pass, and it ends in agreement |
| `MonitorPass.RepairingPassAgrees` | server/subscriptions.go:53-140 | A pass of which at most the refresh or its record fails, with a complete listing and a new id, ends in agreement |
| `MonitorPass.PassComesTo` | server/subscriptions.go:53-140 | What a pass leaves on both sides, from every state between two passes and for all answers to its calls: a subscription of one side only is dropped there, one of both sides stays, is refreshed for two hours when less than five minutes are left, and is dropped when the refresh or its record fails; what is dropped is created anew and recorded, and a failing call ends the pass there |
| `MonitorPass.UnrefreshedIsReplaced` | server/subscriptions.go:80-126 | A due subscription of both sides whose refresh or record fails is replaced within the pass: both sides end with the new one alone, for two hours |
| `MonitorPass.LostIsReplaced` | server/subscriptions.go:102-140 | A subscription that the remote side has lost is replaced by the next pass on both sides, for two hours |
| `Reconciler.AgreementIsStable` | server/subscriptions.go:53-140 | Once both sides agree, any passes, with calls failing or panicking, time passing and notifications arriving, change neither side as long as no refresh is due |
| `Reconciler.RepairStartsRenewal` | server/subscriptions.go:53-140 | With expiry times no further away than a grant, a repairing pass leaves a subscription that outlasts the look at it by five minutes, whether it was kept, refreshed or replaced |
| `Reconciler.TimesBoundedAlways` | server/subscriptions.go:17-23 | No run, whatever fails in it, moves an expiry time further away than a grant or the last look into the future |
| `Reconciler.RenewalHolds` | server/subscriptions.go:17-140 | After any run with failures and one repairing pass, passes less than five minutes apart never find the subscription expired, although refreshes and their records may fail on the way, and both sides agree on one between passes |
| `Reconciler.PromptPassesNeverFindExpired` | server/subscriptions.go:17-140 | Passes less than five minutes apart, in which at most refreshes and their records fail, never find the subscription expired, with notifications interleaved at any point |
| `MonitorJob.Monitor.GetMSTeamsSubscriptionsMap` | server/subscriptions.go:144-161 | Returns exactly the subscriptions of this server and, of several chats subscriptions, the last one in listing order |
| `MonitorJob.Monitor.RefreshSubscription` | server/msteams/client.go:935-944 | Grants two hours from now to an existing subscription, changes nothing else of it and no other |
| `MonitorJob.Monitor.SubscribeToChats` | server/msteams/client.go:862-924 | Adds one chats subscription, with the resource of the billing model, the address of this server and two hours, or changes nothing; the scan recognises it |
| `MonitorPass.PassIsRun` | server/subscriptions.go:53-140 | A whole pass, with any answers to its calls, is a run of the step machine that makes them one by one, ten at most |
| `MonitorJob.Monitor.RefreshOrDrop` | server/subscriptions.go:80-100 | Keeps the subscription exactly when refresh and record succeed, then with two hours on both sides; otherwise drops it on the remote side, unless that fails too, and leaves the rows; goes on where the step machine goes on |
| `MonitorJob.Monitor.Recreate` | server/subscriptions.go:102-140 | Ends where the step machine ends after dropping the local row and creating and recording a subscription |
| `MonitorJob.Monitor.CheckGlobalChatsSubscription` | server/subscriptions.go:53-140 | Ends where the step machine ends with the same answers, with every early return; `MonitorPass.PassComesTo` says what that is |
| `MonitorJob.Monitor.RunMonitoringSystemJob` | server/monitor.go:84-106 | Nothing in the first minute; then one job leaves both sides exactly as `MonitorPass.PassComesTo` says, for all answers, and in agreement if all calls but the refresh and its record succeed |
| `MonitorJob.Monitor.HandleLifecycleEvent` | server/handlers.go:120-152 | Is a run of notification steps; refreshes exactly a reauthorized subscription that is tracked or cannot be looked up, and records the new expiry time exactly when it was granted |
| `WorkerPool.RunKeepsInv` | server/handlers.go:60-118 | In every interleaving the wait group is the number of slots that have not quit, no slot calls Done twice, the queue stays within 5000, accepted is taken then queued in order, and the gauge of every change type is its share of the queue corrected by pending calls |
| `WorkerPool.NoWorkerLost` | server/worker.go:16-44 | Until Stop every added slot is alive whatever panics or exits, and the wait ends exactly when all have quit |
| `WorkerPool.StopCanFinish` | server/handlers.go:103-106 | Once the quit channel is closed, the wait can end without a crash exactly when no slot is on its way out of a panic |
| `WorkerPool.NoPanicNoCrash` | server/worker.go:21-34 | Without a panic in flight, no run without a further panic crashes |
| `WorkerPool.WorkerStepGetsCloser` | server/handlers.go:67-94 | Once the quit channel is closed every step of a worker brings the pool closer to its end |
| `WorkerPool.StopIsBounded` | server/handlers.go:67-106 | After Stop the workers make at most as many steps as remained then, and three for every activity still accepted |
| `WorkerPool.StandstillIsTheEnd` | server/handlers.go:103-106 | From a stop without a panic, workers that have come to a standstill have all quit, and the process has not crashed |
| `WorkerPool.PanicBlocksQuitting` | server/worker.go:21-34 | A panic in flight when the quit channel closes is never recovered: no run ends the wait without a crash |
| `WorkerPool.SlotCanQuit` | server/worker.go:21-34 | A slot without a panic in flight can run to its Done, leaving the others alone |
| `WorkerAccounts.EveryActivityOnce` | server/handlers.go:67-118 | In every interleaving, whatever panics and restarts, an accepted activity is in the queue, in the hands of one worker, or its handling has ended, as often as it was accepted |
| `WorkerAccounts.FailuresAccountedFor` | server/worker.go:21-34 | Over every run the goroutines that leave their loop, by a panic, an exit or the quit signal, are exactly those counted as failures, still to be asked whether they are quitting, or gone |
| `WorkerAccounts.NoFailureWithoutCause` | server/handlers.go:67-79 | A run without panics and unexpected exits counts no failure, however many activities it handles and whether it is stopped or not |
| `ActivityHandlers.ActivityHandler.Start` | server/handlers.go:60-101 | Adds fifty workers, counts all of them, and is a run of the step machine |
| `ActivityHandlers.ActivityHandler.Handle` | server/handlers.go:108-118 | Accepts exactly when the queue is not full, appends, counts, and is a run of the step machine |
| `ActivityHandlers.ActivityHandler.Stop` | server/handlers.go:103-106 | Closes the quit channel and waits while the workers run on in any order; the wait ends, and then all have quit unless a panic has taken the process down |
| `ActivityHandlers.ActivityHandler.RunWorker` | server/handlers.go:67-94 | Whatever a worker does while the pool is stopping is a run of the step machine that brings it closer to the end |
| `ActivityHandlers.ActivityHandler.DoStartRound` | server/handlers.go:67-79 | One round of the select, whichever channel it picks and however the handling ends, is a run of the step machine: after a normal return the worker selects again and nothing is counted, after a panic or an exit it is recovering |
| `ActivityHandlers.ActivityHandler.DoRecover` | server/worker.go:21-34 | When quitting calls Done and crashes exactly on a panic, otherwise counts a failure and restarts |
| `Text.IndexIs` | server/converters.go:81-90 | The index is the first occurrence, and is missing exactly when there is none |
| `Mentions.Message.CollapseFrom` | server/converters.go:67-91 | The inner loop computes the recursive specification in place, and always moves the outer index forward |
| `Mentions.Message.CollapseMentions` | server/converters.go:63-92 | The nested loops end and compute the collapse in place |
| `Mentions.Message.HandleMentions` | server/converters.go:58-125 | Both phases compute the conversion in place; `MentionWalk.EveryTagReadsAs` says what becomes of every tag |
| `Mentions.OuterShortens` | server/converters.go:63-92 | Collapsing any text with any mentions changes nothing at all or shortens the text; ids, users and conversations stay and names only grow at the end |
| `MentionVisible.VisibleAppend` | server/converters.go:73-90 | What is shown of a text is shown piece by piece where no tag or entity can straddle the seam |
| `MentionVisible.OuterShowsSame` | server/converters.go:63-92 | Collapsing any text keeps what is shown of it: tags hidden, a non-breaking space read as a space |
| `MentionDocs.ReplaceTagRenders` | server/converters.go:117-121 | On documents, searching and replacing a tag in the text is replacing that tag of the document, and finds it exactly when it is there |
| `MentionDocs.MergePairRenders` | server/converters.go:73-90 | On documents, searching and merging two joined tags in the text is merging those tags of the document, and finds them exactly when they are there |
| `MentionGlue.CollapseIsGlue` | server/converters.go:63-92 | The loops over mentions with their text searches compute one walk over the document, in which every tag swallows the joined tags of the following mentions of the same user; afterwards no two consecutive mentions of one user are left joined, and a mention has a tag only if it had one |
| `MentionGlue.InnerAbsorbsRun` | server/converters.go:67-91 | For any text and mentions: a round absorbs the following mentions of the same user one by one, and goes on at the first whose tag is not found joined, or else at the next mention |
| `MentionGlue.RunBecomesOneTag` | server/converters.go:59-92 | Anywhere in a message, a run of same-user tags in list order, joined, becomes one tag with the first id and the space-joined names; what stands before and after is glued independently, unless its tag next to the run belongs to the run itself |
| `MentionGlue.LeadingRunBecomesOneTag` | server/converters.go:59-92 | The same for the run with which a message begins, on the text itself |
| `MentionGlue.GlueBefore` | server/converters.go:63-92 | Where the last tag of one part does not swallow the first of the next, the parts are glued independently |
| `MentionWalk.SubstituteIsWalk` | server/converters.go:94-122 | Replacing mention after mention by searching from the start is going through the document once |
| `MentionWalk.ConvertIsWalk` | server/converters.go:58-125 | The whole conversion is the glued document with the tags of its mentions replaced in one walk |
| `MentionWalk.EveryTagReadsAs` | server/converters.go:94-122 | Every tag of the glued document becomes the user name with an at sign for a known user, stays for an unknown one, becomes @all for Everyone of the chat, @channel for the channel and the plain name otherwise; what stands before and after is converted independently |
| `MentionWalk.OneTagReadsAs` | server/converters.go:94-122 | The same on the text itself, for a message with one tag of any mention: the text around it stays |
| `MentionCollapse.InnerStopsOnDoc` | server/converters.go:67-84 | When the inner loop stops, no two consecutive mentions of one user before the next outer index are left joined |
| `MentionStability.ReconversionStays` | server/notifications.go:43-92 | With mentions that carry no hazard a second conversion changes neither text nor mentions of any message |
| `MentionStability.HazardBreaks` | server/converters.go:58-125 | With the hazard some well-formed message is converted differently the second time |
| `MentionStability.ReconversionStableIff` | server/converters.go:58-125 | For every message: a second conversion leaves text and mentions alone exactly when in the glued message no two consecutive mentions of one user, both kept, are separated by what reads as exactly a join once the tags between them are replaced |
| `MentionStability.SecondConversion` | server/notifications.go:43-92 | A second conversion changes nothing if no two mentions can be collapsed, and otherwise shortens the text |
| `MentionStability.RejoinNeedsFragment` | server/converters.go:94-122 | Mentions are rejoined only across a replacement that is itself a part of the join |
| `MentionStability.SafeMentionsIff` | server/converters.go:58-125 | All messages with these mentions convert the same way again exactly when no replacement is a part of the join or no two consecutive mentions of one user are kept |
| `MentionStability.HazardExists` | server/converters.go:98-118 | Such mentions exist: two words of an unknown user and an empty name; a message without tags is stable all the same |
| `ChatNotifications.RelayToMembers` | server/notifications.go:43-100 | The members told are, once and in order, exactly those who are not the sender, have an account, want notifications, are not active in Teams and have a bot channel; each gets, through that channel, the text after one more conversion of the same message object |
| `ChatNotifications.EveryoneReadsTheSameIff` | server/notifications.go:43-100 | For every message: whatever the number of members, all read the same text exactly when the first conversion does not rejoin two mentions |
| `ChatNotifications.SafeForEveryoneIff` | server/notifications.go:43-100 | All read the same text of all messages with these mentions exactly when the mentions carry no hazard |
| `FileStream.GetFileContentStream` | server/msteams/client.go:1529-1563 | Requests consecutive ranges of the buffer size, stops after exactly the computed number of requests, and delivers exactly the file unless it ends with a 416 that has a body; leaves the pipe open exactly when a request fails or its body breaks off, with what came before it delivered |
| `FileStream.LastRequest` | server/msteams/client.go:1529-1563 | A range that is reached is the last exactly when its answer is no full range: floor(N / b) + 1 requests where lengths are sent |
| `FileStream.FaithfulIff` | server/msteams/client.go:1551-1560 | The download is the file exactly when it does not end past the end of the file, or the 416 has no body |
| `OAuthState.RoundTripIff` | server/api.go:378-418 | Parsing a printed state gives it back exactly when no separator stands where it is misread, and rejects it otherwise |
| `OAuthState.Reprint` | server/api.go:378-418 | Printing what was parsed gives back the very state |
| `OAuthState.VerifiedWasStored` | server/store/sqlstore/store.go:759-784 | A state verifies only if it did from the start or was stored verbatim, whatever else the key-value store holds and however the hash collides |
| `OAuthState.AcceptedWasIssued` | server/api.go:378-418 | An accepted state was issued for exactly the user, channel and post it is parsed to |
| `OAuthState.IssuedIsAccepted` | server/api.go:378-418 | An issued and stored state without a misread separator is accepted for what it was issued for, until it expires or another state of the same key is stored; accepting it does not use it up |
| `OAuthState.ExpiredIsRejected` | server/store/sqlstore/store.go:759-775 | A state whose entry has expired is rejected until it is issued again |
| `OAuthState.StateStore.StoreOAuth2State` | server/store/sqlstore/store.go:777-784 | Stores the state verbatim under the prefix and its hash, and it verifies afterwards |
| `OAuthState.StateStore.VerifyOAuth2State` | server/store/sqlstore/store.go:759-775 | Verifies exactly what is stored verbatim; tells an unavailable store and an expired entry apart |
| `OAuthState.StateStore.CreateAndStoreOAuthState` | server/bot_messages.go:32-42 | Stores the printed state of the user, channel and post, and puts the three parts in the link |
| `OAuthState.StateStore.Connect` | server/api.go:250-299 | Prints a fresh state for the preferences page, or rebuilds the state of the bot message from the link; sends it on with a stored code verifier exactly when every check and store succeeds |
| `OAuthState.StateStore.DetermineState` | server/api.go:258-281 | The state alone: stored verbatim when it is new, and rebuilt exactly as it was printed when it is not |
| `OAuthState.StateStore.ReadRedirect` | server/api.go:372-428 | Accepts exactly a state that parses and verifies and whose verifier can be read; hands on the parts it prints from and the verifier, and uses up the verifier but not the state |
| `GroupChat.CheckGroupChat` | server/msteams/client.go:2210-2246 | Accepts exactly when id and members are present, the requested ids are distinct and the members are a permutation of them; reports the members with an email address in order |
| `GroupChat.AllMatchedIsPermutation` | server/msteams/client.go:2210-2246 | Pigeonhole: with equal lengths, as many matches as requested ids means distinct ids and a permutation |
| `GroupChat.MatchedAllIff` | server/msteams/client.go:2210-2246 | As many matches as requested ids exactly when the ids are distinct and the members a permutation of them |
| `GroupChat.EveryoneReported` | server/msteams/client.go:2218-2232 | With an email address for everyone, every member is reported, in order |
| `GroupChat.ReportedMembers` | server/msteams/client.go:2218-2232 | Reports exactly the requested members with an email address, in order, once each |
| `Attachments.Transfer` | server/attachments.go:195-252 | A hosted file by its content; otherwise a failed look-up or download gives no file, an oversized one raises the error flag, a small one is uploaded from memory, which sets the flag, and a larger one is streamed |
| `Attachments.HandleAttachments` | server/attachments.go:129-270 | Without a client nothing; otherwise the loop computes the text, the file ids, the parent, the skipped count and the error flag of the visited attachments; without existing files nothing is reported as skipped exactly when all were visited and none failed |
| `Attachments.HandleAttachment` | server/attachments.go:149-256 | Visiting one attachment strips the tags, puts in what becomes text, keeps the parent of a reply, and adds the file id, the failure and the error flag of a file |
| `Attachments.LastNameWins` | server/attachments.go:135-143 | Of several existing files with one name the last one is reused |
| `Attachments.VisitedBound` | server/attachments.go:257-267 | Below the limit everything is visited; at the limit the visit ends with the tenth upload |
| `Attachments.AccountingHolds` | server/attachments.go:150-270 | Never more than ten uploads; below the limit the counts add up to the number of attachments; at the limit skipped counts failures twice and reused files once on top of the unvisited |
| `Attachments.NothingSkippedIff` | server/attachments.go:150-270 | Without existing files, nothing is reported as skipped exactly when every attachment was visited and none failed |
| `Attachments.ReportExactIff` | server/attachments.go:257-267 | The report is the true number exactly when the limit was not reached or nothing before it failed or was reused |
| `Attachments.FlagIsLastWord` | server/attachments.go:215-242 | The error flag is raised in the end exactly when some attachment raised it and none after that lowered it |

## Left out

- HTTP request and response handling, page rendering, the OAuth token exchange and the Graph SDK: only the success or failure of each call remains, and what it returns.
- Logging, metrics other than the queue gauge and the failure count, and WebSocket events.
- Encryption of tokens, SHA-512 and JSON: a token is an opaque non-empty string, a hash is any function.
- Replica lag, read-committed anomalies and the internals of the cluster mutex.
- Integer widths: counts, times, sizes and mention ids are unbounded.
- The pre-check of the connect command (server/command.go:126-157), which only turns a user away earlier, and the parsing of the whitelist CSV (server/api.go:716-803), which finds a user id for every line: neither is modelled.
- ConnectService.Plugin.MaybeSendInviteMessage: the methods of this class run without interruption; calls that come between theirs are the business of `Admission`.
- ConnectService.Plugin.SendAndRecord: a message that goes out although sending reports an error is not modelled.
- ConnectService.Plugin.GetClientForUser: run without interruption; a refresh that races with a disconnect writes its token back afterwards (`AdmissionTasks.RefreshUndoesDisconnect`).
- Users.Table.SetUserInfo: the columns with the last chat times are reset by every write and are not modelled.
- MonitorJob.Monitor.RunMonitoringSystemJob: the recovery from a panic in one of its calls is a step of the machine of `Reconciler`, which `AtMostOneAlways`, `AgreementIsStable`, `MonitorPass.RepairExists` and the failing part of `RenewalHolds` admit, but not of this method.
- ActivityHandlers.ActivityHandler.Start: replacing the quit channel of a handler that is already running or stopping is not modelled.
- MentionStability.ReconversionStableIff: speaks of texts in which every `<at ` starts a well-formed tag and no id occurs twice; names and user names hold no `<`.
- ChatNotifications.RelayToMembers: emojis, images and Markdown are converted from the text afterwards and are not modelled; neither is the list of attachments, to which each conversion appends the embedded images again.
- Attachments.HandleAttachments: what stripping the tags and rendering a code snippet or a card make of the text is a parameter; a download that returns neither content nor an error is not modelled.
- GroupChat.CheckGroupChat: the search over the user's chats around it.
- More than one chats subscription for the same base URL at the start: the reconciler supports a single one.
- The channel and per-user subscriptions beyond their table, the timer and disconnection layers around the store, which forward every call, paging and CSV downloads of the user lists, the database migrations but for the unique index, and the web app are not modelled.
