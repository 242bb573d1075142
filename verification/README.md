# Verification model

A Dafny model of the parts of the writing assistant whose correctness depends
on several operations keeping a promise together, with machine-checked proofs
of those promises. `dafny verify dfyconfig.toml` checks everything.

Each core has the same shape: a specification over values (what one operation
does), imperative code proved against it (the classes and loops of the source),
and theorems over every run of a transition system whose steps are the points
at which the source can be interleaved.

| files | what is modelled |
|---|---|
| `Registry.dfy`, `ServiceWorker.dfy`, `RoutingProofs.dfy`, `RoutingReference.dfy`, `RoutingTheorems.dfy`, `RoutingSilence.dfy` | the browser extension's service worker: field and panel ports, the per-window registry, badges and messages, under any order of connects, disconnects and late messages |
| `Relay.dfy`, `Readiness.dfy` | the panel's relay to the embed, and the relay joined to the worker by the port's queue |
| `Credits.dfy`, `Ledger.dfy`, `LedgerProofs.dfy`, `Activity.dfy` | credit pricing, the usage ledger (reservation, two-step settlement, sweeps) and the two activity aggregations |
| `EmailLocks.dfy`, `EmailLockProofs.dfy` | the per-address lock table and its reference counts |
| `Documents.dfy` | the optimistic document store, with naming and moves that do not bump the revision |
| `LoginThrottle.dfy`, `LoginThrottleOrder.dfy` | the login throttle, with the clock read before or under the lock |
| `Jobs.dfy` | check jobs: capacity with eviction, and streams that replay and wait |
| `Identity.dfy` | sign-in resolution, adoption and creation over the users table |
| `Terminology.dfy` | sentence starts, substring checks and the merged report |
| `Permissions.dfy` | resolution of an LLM selection against a policy |
| `Wrappers.dfy`, `Text.dfy` | the Option type; whitespace and ASCII case |

Where the code does not do what it or its documentation says, the model follows
the code and the difference is a lemma:

- `RoutingTheorems.EmbedCopyAgrees`: the embed checks field ids and takes text
  echoed by a replacement, the registry does neither, so the two copies agree
  only for scoped messages. `RoutingSilence.EchoRunsAhead` is the way the
  extension's own host parts them, until its next text change.
- `PanelRelay.NotificationsAlternate`: disposing a ready relay does not report
  the fall, so a disposed relay that hears `ready` repeats `true`. The panel
  never calls `dispose`, and without it the notifications always alternate.
- `Activity.RunCountsAgree`: a completed run of an unknown source is in the
  table's count and in no category of the series.
- `DocumentProofs.NamelessCommitUndoesTitle`: an autosave in flight undoes a
  title that was set after its read; `DocumentProofs.NamelessCommitKeepsName`
  says exactly when the name stays.
- `LoginThrottleOrder.StaleReadingBreaksOrder`: a failure whose reading is older
  than another key's last sighting can put the table out of last-seen order;
  `LoginThrottleOrder.FailureKeepsOrder` and `OrderIsTheFailures` say exactly
  when. Block survival and the size bound do not depend on that order, and
  `LoginThrottleOrder.FailureExpires` says exactly when expiry does.
- `LoginThrottleProofs.StaleFailureShortensBlock`: a sufficiently stale reading
  can also move the key's own block back; `LoginThrottleProofs.FailureShortens`
  says exactly when.
- `IdentityProofs.SameSubjectCanBeRefused`: two first sign-ins of one subject
  can race so that one is refused for an address that is the subject's own;
  `IdentityProofs.OvertakenSignIn` says exactly when, from every point at which
  it can be overtaken.
- `Permissions.StableForEveryRequest`: a model named by an empty string is read
  as no model when it is asked for again.

## Model

| member | source | states |
|---|---|---|
| `Registries.Registry.GetOrCreate` | clients/browser-extension/src/registry.ts:38-45 | returns the window's state, adding a field-less, not-ready window at the end of the map when there is none |
| `Registries.Registry.FieldConnected` | clients/browser-extension/src/registry.ts:47-80 | installs the field; the effects are exactly: detach for a field of another tab, a blank badge for any replaced field, the relay to a ready panel, in that order |
| `Registries.Registry.TextChanged` | clients/browser-extension/src/registry.ts:82-88 | changes the stored text and relays it only for the window's own tab, and only relays to a ready panel |
| `Registries.Registry.HostRelay` | clients/browser-extension/src/registry.ts:90-105 | passes host messages of the owning tab; a disconnect clears the field, tells a ready panel first and then blanks the badge |
| `Registries.Registry.EmbedRelay` | clients/browser-extension/src/registry.ts:107-145 | only a window with a live field reacts; a status paints that tab's badge and is scoped to its field id |
| `Registries.Registry.PanelReady` | clients/browser-extension/src/registry.ts:147-167 | a fresh ready edge replays the field with its current text; a duplicate or a fall replays nothing |
| `Registries.Registry.FieldPortGone` | clients/browser-extension/src/registry.ts:169-185 | drops the field of exactly that tab, tells a ready panel, and blanks the badge in every case |
| `Registries.Registry.PanelPortGone` | clients/browser-extension/src/registry.ts:187-190 | only readiness falls, and no window is created |
| `Registries.Registry.DisconnectRequested` | clients/browser-extension/src/registry.ts:195-202 | goes to the tab of the current field or nowhere |
| `Registries.Registry.ServerChanged` | clients/browser-extension/src/registry.ts:216-229 | visits windows in insertion order, detaching each field and blanking its badge, and leaves readiness alone |
| `Registries.DropAllFieldsWindows` | clients/browser-extension/src/registry.ts:216-229 | after a server change every window is as it was but without a field |
| `ServiceWorkers.ServiceWorker.ExecuteEffects` | clients/browser-extension/src/sw.ts:80-91 | effects reach whichever port the maps hold when each is executed, in order; a missing port loses only its own |
| `ServiceWorkers.ServiceWorker.OnFieldConnect` | clients/browser-extension/src/sw.ts:184-215 | a tab's new port first clears the field left under the old port's own window, then takes the tab over |
| `ServiceWorkers.ServiceWorker.HandleFieldMessage` | clients/browser-extension/src/sw.ts:93-138 | only the tab's current port is heard, under the window it was opened in |
| `ServiceWorkers.ServiceWorker.OnFieldDisconnect` | clients/browser-extension/src/sw.ts:216-226 | only the current port's disconnect removes the tab and its field |
| `ServiceWorkers.ServiceWorker.OnOpenPanelFailed` | clients/browser-extension/src/sw.ts:104-120 | a late failure reaches only the port that asked, and only while it is current |
| `ServiceWorkers.ServiceWorker.HandlePanelMessage` | clients/browser-extension/src/sw.ts:140-182 | a hello takes the window over and resets readiness if it displaces another port; everything else needs the current port |
| `ServiceWorkers.ServiceWorker.OnPanelDisconnect` | clients/browser-extension/src/sw.ts:233-240 | only the current panel port's disconnect lowers readiness |
| `ServiceWorkers.ServiceWorker.OnServerUrlChanged` | clients/browser-extension/src/sw.ts:244-252 | runs the registry's server change and its effects |
| `ServiceWorkers.ServiceWorker.Dispatch` | clients/browser-extension/src/sw.ts:184-252 | every browser event takes the mutable worker exactly one step of the transition system the theorems are about |
| `RoutingReference.PortsAreTold` | clients/browser-extension/src/sw.ts:80-252 | in every reachable state and for every event: exactly what every port, field or panel, is sent (detaches, statuses, relays, disconnect requests, replays, failures), and nothing where nothing is listed |
| `RoutingReference.WindowsAndBadgesFollow` | clients/browser-extension/src/sw.ts:80-252 | in every reachable state and for every event: what each window's field and readiness and each tab's badge become, listed by event without reference to the registry's operations or effects |
| `RoutingTheorems.PanelReplica` | clients/browser-extension/src/registry.ts:47-105 | for every event sequence: folding what a ready panel was sent since its last ready edge gives the registry's field, unless a server change took it and nothing has connected since |
| `RoutingTheorems.NoGhostField` | clients/browser-extension/src/sw.ts:184-228 | in every reachable state a field's tab has a current port opened in that very window, so no tab is the field of two windows |
| `RoutingTheorems.BadgeTruth` | clients/browser-extension/src/registry.ts:107-142 | in every reachable state a badge is blank or is the non-zero count of the last status relayed since its tab's live field connected; a live field's badge is never wiped by another window |
| `RoutingSilence.ServerChangeSilences` | clients/browser-extension/src/registry.ts:204-229 | after a server change, and until a field connects in the window anew, a panel port of the window has been sent exactly what it was sent before the change, and nothing at all if it opened or said hello afterwards, as a panel that reloads because of the change does |
| `RoutingSilence.OnlyConnectingFills` | clients/browser-extension/src/registry.ts:47-202 | whatever the event, a window without a field gets one only by a fieldConnected of its tab's current port, and then has exactly the field connected |
| `RoutingSilence.RunKeepsHeard` | clients/browser-extension/src/sw.ts:80-91 | in every reachable state only field ports and panel ports that have said hello were ever sent anything |
| `RoutingSilence.SupersededPortIsForgotten` | clients/browser-extension/src/sw.ts:93-100 | a port once superseded is forgotten: every later run ends in the very state in which it ends without that port's messages, failures and disconnect |
| `RoutingProofs.StepFrames` | clients/browser-extension/src/sw.ts:184-242 | an event changes the port maps only as its own handler says, whatever effects it executes |
| `RoutingTheorems.QuietStep` | clients/browser-extension/src/sw.ts:140-182 | an event that starts and ends without a field in a window posts nothing to that window's panel port |
| `RoutingTheorems.EmbedCopyAgrees` | frontend/src/embed/hostDoc.ts:422-479 | the embed's copy, which checks field ids and takes echoed text, follows the registry's at every message if and only if every host message is scoped to the connected field |
| `RoutingTheorems.EmbedReplica` | frontend/src/embed/hostDoc.ts:422-479 | with scoped hosts a ready embed shows the registry's field in every reachable state |
| `RoutingSilence.UnscopedTextIsDelivered` | clients/browser-extension/src/sw.ts:128-137 | a run of the worker that separates them: it delivers text for a field the tab has already replaced, the registry takes it and the embed does not |
| `RoutingSilence.EchoRunsAhead` | frontend/src/embed/hostDoc.ts:471-479 | a run as the extension's own host makes it: the echo of a replacement request, granted or refused, carries text not yet reported, so the embed is ahead of the registry by exactly that text until the text change that follows makes both the same |
| `PanelRelay.Relay.AttemptHello` | clients/browser-extension/src/relay.ts:61-68 | counts the attempt and sends a hello, or stops the timer past thirty |
| `PanelRelay.Relay.Start` | clients/browser-extension/src/relay.ts:70-88 | reports a fall from ready before anything else, resets the count, sends the first hello, arms the timer |
| `PanelRelay.Relay.FromEmbed` | clients/browser-extension/src/relay.ts:90-116 | ready stops the timer and is reported on its edge only; anything else passes only while ready |
| `PanelRelay.Relay.FromPort` | clients/browser-extension/src/relay.ts:118-133 | only host-direction relays reach the embed, and the panel observes connects and disconnects as they pass |
| `PanelRelay.Relay.Dispose` | clients/browser-extension/src/relay.ts:135-138 | lowers the flag without reporting it |
| `PanelRelay.NotificationsAlternate` | clients/browser-extension/src/relay.ts:81-99 | over every run the ready notifications alternate, true first, if and only if no relay disposed while ready hears ready again |
| `PanelRelay.UndisposedAlternates` | clients/browser-extension/src/relay.ts:81-99 | so they alternate in every run of a relay that is not disposed |
| `PanelRelay.DisposeCanRepeatTrue` | clients/browser-extension/src/relay.ts:135-138 | the shortest run in which they do not: ready, dispose, ready |
| `PanelRelay.ForwardsAreGated` | clients/browser-extension/src/relay.ts:101-115 | over every run each forwarded embed message has true as the last notification before it |
| `PanelRelay.HellosAreCapped` | clients/browser-extension/src/relay.ts:61-88 | since each start exactly one hello per attempt is sent and never more than thirty |
| `PanelRelay.LogIsAnswers` | clients/browser-extension/src/relay.ts:61-138 | over every run the whole log is determined by the inputs: every host message reaches the embed once and in order, everything the embed says while ready reaches the port once and in order, hellos repeat until ready, disposal or thirty |
| `Readiness.ReactionDrains` | clients/browser-extension/src/relay.ts:70-99 | what a reaction posts always drains to the relay's new flag |
| `Readiness.MoveKeepsAgreement` | clients/browser-extension/src/sw.ts:144-170 | the registry's readiness lags the relay's flag by exactly the queued messages, through every move of panel, port and worker |
| `Readiness.ReadinessAgrees` | clients/browser-extension/src/sw.ts:144-170 | for every run around one panel port: when it is the window's panel and no change of readiness is queued, the registry says ready exactly when the relay does |
| `Credits.RunCostBounds` | backend/app/services/credits.py:43-48 | a run costs at least its exact price and less than one credit more, up to half a nanocredit; never a negative amount |
| `Credits.NoPhantomCredit` | backend/app/services/credits.py:45-48 | a price within half a nanocredit of a whole number costs that number |
| `Credits.RunCostMonotone` | backend/app/services/credits.py:16-48 | more tokens never cost less |
| `Credits.NegativeCountsAreFree` | backend/app/services/credits.py:41-43 | negative token counts cost nothing and mint nothing |
| `Credits.EstimateMonotone` | backend/app/services/credits.py:51-66 | the estimate takes a token per four characters, rounded up, and a quarter as many for the output; it never falls as the text grows |
| `Credits.PriceFollowsConfiguration` | backend/app/services/credits.py:16-48 | the price is the source's weight times the model's factor (else the provider's, else the default) times input tokens plus weighted output tokens, read off the configuration, and is then rounded and taken up to a whole credit |
| `Credits.RoundsToNearest` | backend/app/services/credits.py:45-48 | rounding takes the nearest number of nanocredits, and of two equally near ones the even one |
| `Calendar.SameWindow` | backend/app/services/usage.py:221-239 | an earlier moment reaches the start of the current hour, day, week or month exactly when it lies in the same calendar window |
| `Calendar.MonthUnique` | backend/app/services/usage.py:237-238 | a day lies in one month only |
| `Calendar.WindowsAreAligned` | backend/app/services/usage.py:221-239 | hours begin on the hour, days at midnight, weeks on Monday, months on their first day, and the moment lies in the window |
| `Calendar.MonthsAreGregorian` | backend/app/services/usage.py:237-238 | months and years have the lengths of the Gregorian calendar, leap years included |
| `Ledger.UsageStore.ReserveLlmRun` | backend/app/services/usage.py:262-382 | sweep, insert, windows in order, user cap, server cap; committed only when all pass, otherwise the rows are the rows from before the sweep |
| `Ledger.UsageStore.SweepStarted` | backend/app/services/usage.py:305-309 | abandons exactly the started rows older than the cutoff |
| `Ledger.UsageStore.SumSpent` | backend/app/services/usage.py:334-349 | the sum of the user's credits in the window, whatever the rows' status |
| `Ledger.UsageStore.CreditsUsed` | backend/app/services/usage.py:462-503 | reports for each asked window the very sum the reservation checks |
| `Ledger.UsageStore.ReadForSettlement` | backend/app/services/usage.py:384-422 | an unknown failure stage is refused; a row no longer started yields no settlement; otherwise the settled credits of the row as read |
| `Ledger.UsageStore.WriteTerminal` | backend/app/services/usage.py:423-439 | writes only while the row is still started and says whether it did |
| `Ledger.UsageStore.SweepAllStarted` | backend/app/services/usage.py:569-576 | abandons every started row and returns how many |
| `LedgerProofs.ReserveDecides` | backend/app/services/usage.py:300-382 | with stale runs abandoned and the new row, column by column as asked, counted: admitted if and only if every configured budget (hour, day, week, month) is kept and both caps hold; a quota refusal names the first configured window that is exceeded; every refusal leaves the ledger as it was |
| `LedgerProofs.SpentIsInstance` | backend/app/services/usage.py:334-349 | the sum the reservation compares is the credit sum of its calendar window and of the windows after it, so never less than the window's, whatever the order of moments |
| `LedgerProofs.LedgerCaps` | backend/app/services/usage.py:364-380 | over every run of reserve, split finish and sweep, with moments in any order, the number of started rows never exceeds the user's or the server's cap |
| `LedgerProofs.BudgetBound` | backend/app/services/usage.py:334-363 | over every run, with moments in any order, for each kind of window with a configured budget: in every calendar window of that kind a user's credits are at most the budget plus the sum of how far settlements exceeded their estimates |
| `LedgerProofs.BudgetKept` | backend/app/services/usage.py:334-363 | over every run each configured budget itself is kept in every window in which no provider reported more tokens than were foreseen |
| `LedgerProofs.SplitFinishIsAtomic` | backend/app/services/usage.py:408-439 | a run read and, after any interleaving, written ends with the reported outcome, tokens and stage and the credits these call for, every other column and row as it was; if it was swept in between nothing changes |
| `LedgerProofs.RowsAreSettled` | backend/app/services/usage.py:441-460 | over every run each row is charged what its columns say: the estimate while started, abandoned, cancelled or completed without token counts, nothing when failed without any, else the price of its tokens |
| `LedgerProofs.TerminalForever` | backend/app/services/usage.py:384-439 | over every continuation a row that has left started never changes |
| `LedgerProofs.SettledCreditsMean` | backend/app/services/usage.py:441-460 | a settlement always has a credit count; it exceeds the estimate only for a run not cancelled whose provider reported more tokens than foreseen; priced tokens cost their exact price to a credit |
| `Activity.TokensAndCreditsAgree` | backend/app/services/usage.py:146-218 | for every ledger and range the per-day series and the per-user table have the same token and credit sums |
| `Activity.RunCountsAgree` | backend/app/services/usage.py:160-180 | run counts never exceed the table's, and agree if and only if every completed row of the range has a known source |
| `Activity.OwnSeriesMatchesTable` | backend/app/services/usage.py:146-218 | a user's own series adds up to the one line the table has for that user, in runs if and only if no completed row of the user has an unknown source; without a line it is a series of nothing |
| `Activity.OwnRuns` | backend/app/services/usage.py:166-170 | a user's own categories never exceed the user's runs, with the exact condition for equality |
| `Activity.UsersCover` | backend/app/services/usage.py:200-218 | the table lists each user with a settled row in the range once, and no others |
| `Activity.ColumnAddsUp` | backend/app/services/usage.py:177-187 | a zero-filled column over the days adds up to the range |
| `Activity.UserColumnAddsUp` | backend/app/services/usage.py:200-218 | the per-user column adds up to the range |
| `Activity.CategoriesAddUp` | backend/app/services/usage.py:166-170 | the four run categories together count the settled rows of known source |
| `Activity.CellsMean` | backend/app/services/usage.py:146-187 | each cell of each column counts or adds up exactly the day's settled rows of its category, of the user or of everyone |
| `Activity.LineMeans` | backend/app/services/usage.py:200-218 | a user's line counts and adds up exactly that user's settled rows of the range, each column its own |
| `EmailLockTable.EmailLocks.Prune` | backend/app/core/email_locks.py:42-59 | expired unreferenced entries go, then the least recently touched unreferenced ones, no more than the cap demands |
| `EmailLockTable.EmailLocks.Enter` | backend/app/core/email_locks.py:61-69 | prune, fetch or make the lock, touch the entry and count the reference, with nothing in between |
| `EmailLockTable.EmailLocks.Leave` | backend/app/core/email_locks.py:73-78 | drops one reference, and the count itself at zero |
| `EmailLockTable.DropInOrder` | backend/app/core/email_locks.py:51-59 | the capped eviction visits in touch order, skips referenced keys and stops at the cap |
| `EmailLockTable.SortedKeys` | backend/app/core/email_locks.py:52-54 | every key once, by time of last touch |
| `EmailLockTable.PrunedMeans` | backend/app/core/email_locks.py:42-59 | pruning keeps every referenced entry as it is, leaves no unreferenced one older than 900 seconds, drops a younger one only to meet the cap of 1024 and the least recently touched first, and exceeds the cap only when all that is left is referenced |
| `EmailLockProofs.MutualExclusion` | backend/app/core/email_locks.py:61-78 | over every interleaving of entries, grants, cancellations, exits and prunings at most one task holds a normalised address |
| `EmailLockProofs.ReferencesCountTasks` | backend/app/core/email_locks.py:38-40 | the count of an address is its holders and waiters, who all share the one lock in the table |
| `EmailLockProofs.TableBound` | backend/app/core/email_locks.py:42-69 | right after an entry the table has at most max(1024, referenced addresses) + 1 entries |
| `EmailLockProofs.WaiterCanBeGranted` | backend/app/core/email_locks.py:71-78 | while nobody holds an address every waiter for it can be granted its lock: no lost lock object |
| `EmailLockProofs.TouchedWhenEntered` | backend/app/core/email_locks.py:61-69 | over every run the time by which an entry is judged is that of the last entry for its address |
| `Documents.DocumentStore.CreateDocument` | backend/app/services/documents.py:142-194 | a new id; every column is what was asked for; revision zero; checked now only when it comes with results of a check |
| `Documents.DocumentStore.GetDocument` | backend/app/services/documents.py:217-223 | a foreign document answers like a missing one |
| `Documents.DocumentStore.UpdateDocument` | backend/app/services/documents.py:240-307 | run alone: missing, conflict with the current revision, or a row that is column by column the request over the row read, which is also the answer |
| `Documents.DocumentStore.Write` | backend/app/services/documents.py:265-294 | the conditional update: the merged columns at the next revision, folder and owner as stored |
| `Documents.DocumentStore.Rename` | backend/app/services/documents.py:309-341 | guarded naming, no revision bump; answers with the document as it is then |
| `Documents.DocumentStore.Move` | backend/app/services/documents.py:343-356 | sets the folder and nothing of the content, no revision bump |
| `Documents.DocumentStore.DeleteDocument` | backend/app/services/documents.py:358-364 | deletes only the owner's document |
| `DocumentProofs.NoLostUpdate` | backend/app/services/documents.py:240-307 | over every interleaving with clients that send only revisions they were handed, a document is what its creation asked for with every committed update overlaid in order, and its revision counts them |
| `DocumentProofs.CommitOverlaysBase` | backend/app/services/documents.py:253-299 | a write that goes through read exactly its base revision and overlays it; one that does not changes no document |
| `DocumentProofs.UserNameSticks` | backend/app/api/documents.py:164-169 | once a name is the user's only an update that carries a name changes it, whatever is in flight |
| `DocumentProofs.FolderAndRevisionMoveApart` | backend/app/services/documents.py:343-348 | a folder changes only by a move or the deletion of that folder, a revision only by a committed update, by one |
| `DocumentProofs.DocumentsFollowSteps` | backend/app/services/documents.py:142-364 | in every reachable state and for every step, every document becomes, column by column, what the step says of it (a carried name becomes the user's, edit and check times move exactly when they should, a move moves, a deleted folder lets go), and other people's documents stay as they are |
| `DocumentProofs.NamelessCommitKeepsName` | backend/app/services/documents.py:258-274 | in every reachable state, a committed update without a name leaves name and source as stored if and only if it read a settled name, or no title took effect on the document between its read and its write, or the last one to do so set again what was read |
| `DocumentProofs.NamelessCommitUndoesTitle` | backend/app/services/documents.py:258-274 | one that read a fallback name undoes a title set between its read and its write |
| `DocumentProofs.GuessedRevisionLosesUpdate` | backend/app/services/documents.py:265-271 | why handed revisions matter: a guessed next revision overwrites the update that creates it |
| `LoginThrottles.LoginThrottle.Create` | backend/app/api/auth.py:157-163 | a longest delay above the entry lifetime is refused, anything else is an empty throttle |
| `LoginThrottles.LoginThrottle.Prune` | backend/app/api/auth.py:169-181 | drops the expired prefix, then evicts to the cap |
| `LoginThrottles.LoginThrottle.EvictToCap` | backend/app/api/auth.py:183-207 | one pass, oldest first, over entries not blocked at the given time, as many as exceed the cap |
| `LoginThrottles.LoginThrottle.RecordFailure` | backend/app/api/auth.py:216-249 | counts the failure at the end of the order, blocks from the threshold on, prunes with the same reading |
| `LoginThrottles.LoginThrottle.BlockedSeconds` | backend/app/api/auth.py:209-214 | the seconds left of the key's block, and zero for a key without one |
| `LoginThrottles.LoginThrottle.RecordSuccess` | backend/app/api/auth.py:251-253 | forgets the key |
| `LoginThrottles.LoginThrottle.RecordBlockedAttempt` | backend/app/api/auth.py:255-270 | refreshes the last sighting and the order only, and only of a tracked key |
| `LoginThrottleProofs.FailureWrites` | backend/app/api/auth.py:216-249 | for any table a recorded failure leaves the key with one failure more, seen at the reading and blocked from it for the delay from the threshold on, and other keys' entries as they were |
| `LoginThrottles.EvictReachesCap` | backend/app/api/auth.py:183-207 | the pass ends at the cap unless everything left is blocked |
| `LoginThrottleProofs.BlockSurvival` | backend/app/api/auth.py:157-207 | over every run, clock readings as stale as threads can make them, a blocked key's entry is neither removed nor altered by operations on other keys |
| `LoginThrottleProofs.GuardIsNecessary` | backend/app/api/auth.py:157-163 | without the construction guard a failure of another key can sweep out a live block |
| `LoginThrottleOrder.ThrottleBounds` | backend/app/api/auth.py:169-207 | over every run, relative to its own reading: a recorded failure leaves the table within the cap or all blocked however stale the reading, and nothing older than the lifetime if and only if the eviction that is due takes every older entry the sweep left, as it does while earlier failures kept the order |
| `LoginThrottleOrder.FailureExpires` | backend/app/api/auth.py:169-227 | for any table and reading a recorded failure leaves nothing older than the lifetime if and only if every older entry behind the swept prefix is unblocked and among the first the eviction takes; with no eviction due, if and only if there is none |
| `LoginThrottleOrder.FailureKeepsOrder` | backend/app/api/auth.py:169-227 | a recorded failure leaves a sorted table sorted if and only if no other standing entry was seen after the reading, or the eviction that is due takes every such entry, or it takes the failing key's own |
| `LoginThrottleOrder.FailureKeepsOrderPlainly` | backend/app/api/auth.py:169-227 | with a lifetime and no eviction due: if and only if no other key was seen after the reading |
| `LoginThrottleOrder.OrderIsTheFailures` | backend/app/api/auth.py:174-176 | over every run the table is in last-seen order throughout if and only if every recorded failure met that condition on the table it found |
| `LoginThrottleOrder.AtomicFailuresFit` | backend/app/api/auth.py:216-219 | with clock and lock as one step every failure meets it |
| `LoginThrottleOrder.SizeBound` | backend/app/api/auth.py:183-207 | for any table and any reading the cap is exceeded only when everything left is blocked at the reading |
| `LoginThrottleOrder.StaleReadingBreaksOrder` | backend/app/api/auth.py:216-227 | with the reading outside the lock two threads are enough to fail the condition |
| `LoginThrottleProofs.ExponentCapIsInvisible` | backend/app/api/auth.py:228-248 | the exponent cap changes no delay if and only if the base is zero, or positive and its largest power reaches the longest delay |
| `LoginThrottleProofs.DelayMonotone` | backend/app/api/auth.py:228-248 | more failures never mean a shorter block |
| `LoginThrottleProofs.DelayDoubles` | backend/app/api/auth.py:228-248 | the first block lasts the base delay and each further failure doubles it, up to the longest delay and for at most 64 doublings |
| `LoginThrottleProofs.FailureShortens` | backend/app/api/auth.py:216-248 | in every reachable state a failure shortens its key's block if and only if its reading is older than the reading that set the block by more than the delay grows; one read no earlier never does |
| `LoginThrottleProofs.StaleFailureShortensBlock` | backend/app/api/auth.py:216-248 | two threads failing on one key reach it: the second failure, with a reading t older, moves the block back if and only if t exceeds the growth of the delay |
| `Jobs.CheckJob.EmitEvent` | backend/app/services/jobs.py:32-34 | appends the event and wakes every sleeping stream |
| `Jobs.CheckJob.FinishJob` | backend/app/services/jobs.py:50-52 | marks the job done, then emits the final event |
| `Jobs.CheckJob.ResumeStream` | backend/app/services/jobs.py:57-70 | from one suspension to the next: yields the next event, ends after the final one, or clears the shared event and sleeps |
| `Jobs.JobManager.CreateJob` | backend/app/services/jobs.py:77-115 | trims the creator's finished jobs, then anyone's, and refuses when none can go |
| `Jobs.JobManager.FindOldestDone` | backend/app/services/jobs.py:93-95 | the first finished job in insertion order |
| `Jobs.JobManager.Get` | backend/app/services/jobs.py:117-124 | a foreign job answers like a missing one |
| `Jobs.JobManager.DiscardJob` | backend/app/services/jobs.py:126-131 | removes the job if it is there |
| `JobProofs.DiscardTakesOne` | backend/app/services/jobs.py:126-131 | over every run discarding removes the one job with that id and leaves the others in order |
| `JobProofs.HistoryIsEmitted` | backend/app/services/jobs.py:32-52 | over every run the stored history is exactly what was emitted, in order, and the job is done exactly when it was finished |
| `JobProofs.JobCapacity` | backend/app/services/jobs.py:77-115 | every reachable store has at most ten jobs an owner and a hundred in all |
| `JobProofs.CreateMeans` | backend/app/services/jobs.py:77-115 | within the limits a creation adds the job, or swaps the oldest finished job in scope for it, or is refused with the store as it was |
| `JobProofs.CreateEvictsAtMostOne` | backend/app/services/jobs.py:84-115 | over every run: at most one eviction, a finished job and the oldest in scope; a refusal changes nothing, so no eviction precedes one |
| `JobProofs.StreamReplay` | backend/app/services/jobs.py:54-70 | whatever the interleaving, each stream has yielded exactly a prefix of what was emitted, and none sleeps un-woken with events it has not read |
| `JobProofs.DoneStopsEveryStream` | backend/app/services/jobs.py:60-66 | after the first final event no stream passes it, every unfinished one can run, and one that ended yielded everything up to it |
| `JobProofs.DoneIsReached` | backend/app/services/jobs.py:60-70 | each resumption then brings a stream's end one step nearer and nothing else pushes it away |
| `Identity.UserStore.CreateUser` | backend/app/services/users.py:138-189 | blank addresses are invalid, a taken address or subject is a duplicate, anything else is a new row with the address stripped |
| `Identity.UserStore.LinkExternalId` | backend/app/services/users.py:210-239 | links an unlinked row whose subject owns no other row, and otherwise changes nothing |
| `Identity.UserStore.ResolveSupabaseUser` | backend/app/core/supabase_auth.py:90-135 | run alone: the subject's row, else the unlinked owner of the address, else a new row; each refusal exactly when, and with the store unchanged |
| `Identity.UserStore.AfterLinkAttempt` | backend/app/core/supabase_auth.py:113-126 | the re-read after a link attempt accepts a row linked to this subject by whomever |
| `Identity.UserStore.AfterDuplicate` | backend/app/core/supabase_auth.py:131-135 | a duplicate is settled by re-reading the subject |
| `Identity.CreateKeeps` | backend/app/services/users.py:138-189 | creation keeps addresses unique up to case and subjects unique |
| `Identity.CreateDecides` | backend/app/services/users.py:138-189 | a creation is invalid exactly for a blank address, a duplicate exactly for an address stored in any case or a subject that has a row, and otherwise adds the stripped address with its case kept |
| `Identity.LinkDecides` | backend/app/services/users.py:210-239 | a link is made if and only if the row is unlinked and the subject has none, and changes that row only |
| `IdentityProofs.ExternalIdIsForGood` | backend/app/services/users.py:231-239 | over every continuation a set external id and its row's address never change |
| `IdentityProofs.ReturnedRowIsTheCallers` | backend/app/core/supabase_auth.py:105-135 | over every interleaving a returned row carries the caller's subject, and the table's row still does |
| `IdentityProofs.OneAccountOneSubject` | backend/app/core/supabase_auth.py:90-104 | two requests are given the same account if and only if they carry the same subject, however they interleave |
| `IdentityProofs.RefusalsHaveGrounds` | backend/app/core/supabase_auth.py:111-126 | a refusal for an owned address means some row with it is linked or the subject owns a row; a won adoption always finds its row again |
| `IdentityProofs.SameSubjectCanBeRefused` | backend/app/core/supabase_auth.py:109-112 | a first sign-in that loses to another of the same subject between its two lookups is refused as if the address were someone else's |
| `IdentityProofs.StepKeeps` | backend/app/api/admin.py:195-212 | every statement of a sign-in, an administrator's adoption or a creation keeps uniqueness and what each request is entitled to rely on |
| `IdentityProofs.OvertakenSignIn` | backend/app/core/supabase_auth.py:105-135 | from every point after its first lookup and over every continuation, an overtaken sign-in that ends is given its subject's row if and only if: still to look up, its address is not blank and no row has it at that lookup; about to link or having failed to, the row is that one; about to create, its address is not blank; reading back, always. A row that has the address before the lookup already means refusal |
| `IdentityProofs.AdoptionDecides` | backend/app/api/admin.py:195-212 | an administrator's adoption, whatever runs next to it, hands back its row if and only if the row is the subject's when it ends; otherwise it reports a conflict and the row never will be |
| `Terminology.SentenceStart` | backend/app/checkers/terminology.py:30-57 | the two backward scans return true exactly when the expression they replace matches the prefix |
| `Terminology.AnchorBeforeNewline` | backend/app/checkers/terminology.py:18-20 | the end anchor's match before a final newline adds no match |
| `Terminology.PunctuationSplitIsFound` | backend/app/checkers/terminology.py:48-57 | the space and the closing marks at the end of the prefix are the only split that can match |
| `Terminology.CasingOk` | backend/app/checkers/terminology.py:60-64 | the preferred form, or its capitalised form at a sentence start, and nothing else |
| `Terminology.Find` | backend/app/checkers/terminology.py:159-171 | the first occurrence at or after a position, or none |
| `Terminology.CheckSubstring` | backend/app/checkers/terminology.py:203-214 | one finding at every occurrence of every forbidden variant, in order |
| `Terminology.CasingSubstring` | backend/app/checkers/terminology.py:159-171 | one finding at every occurrence of a term whose casing is not acceptable |
| `Terminology.Check` | backend/app/checkers/terminology.py:86-103 | nothing for an invisible domain, otherwise the merged and sorted report |
| `Terminology.WithoutOverlapsMeans` | backend/app/checkers/terminology.py:67-78 | keeps exactly the casing findings that overlap no variant |
| `Terminology.ReportMeans` | backend/app/checkers/terminology.py:86-103 | the report is in order and contains exactly the forbidden variants of the text and the miscased terms that overlap none |
| `Terminology.ReportConserves` | backend/app/checkers/terminology.py:101-102 | the merge neither loses nor doubles a finding, and the sort is stable |
| `Permissions.EffectiveIsPermitted` | backend/app/core/permissions.py:155-249 | for every policy and request the effective tier, or provider and model, is permitted; nothing runs exactly when the policy allows no tier and no provider |
| `Permissions.ResolveAnswers` | backend/app/core/permissions.py:155-249 | for every policy, request and settings the answer read off them directly: routing entry, substitute tier, listed or default model, fallback provider and model, floor, and the degraded and skipped marks |
| `Permissions.SubstituteIsNearest` | backend/app/core/permissions.py:170-183 | a tier that is not allowed becomes the nearest allowed below, and the nearest above only when there is none below |
| `Permissions.DegradedMeansDifferent` | backend/app/core/permissions.py:155-229 | a result is marked degraded exactly when it is not the floor and differs from the request with its defaults filled in |
| `Permissions.ResolvingAgainChangesNothing` | backend/app/core/permissions.py:155-249 | a result resolves to itself, undegraded, if and only if it is a tier result or does not name its model by an empty string that is no default |
| `Permissions.StableForEveryRequest` | backend/app/core/permissions.py:155-249 | under a policy and settings this holds for every request if and only if no allowed provider's allowlist begins with an empty name that is not its default |
| `Permissions.NamedAllowlistsAreStable` | backend/app/core/permissions.py:155-249 | when no allowlist begins with an empty name, resolving any result again returns it undegraded |
| `Permissions.BelowIsNearest` | backend/app/core/permissions.py:173-179 | the walk down stops at the nearest allowed tier, and finds none only when there is none |
| `Permissions.AboveIsNearest` | backend/app/core/permissions.py:180-182 | the walk up does the same |

## Left out

- The DOM, shadow roots, geometry and the panel's own page: only the messages they exchange with the worker are modelled.
- Browser APIs: a posted message and a set badge are recorded effects; a port that throws on posting is not distinguished from one that drops the message.
- ServiceWorkers.ServiceWorker.OnFieldConnect: disconnecting a port whose sender has no tab is not recorded; the worker keeps nothing of such a port.
- ServiceWorkers.ServiceWorker.HandleFieldMessage: the request to open the panel is a browser call that is not recorded; only its late failure comes back, as an event.
- One hello per panel port is assumed, as the panel's code sends it (clients/browser-extension/src/panel.ts:196); a second hello naming another window is not modelled.
- The registry's window objects are shared references in the source; here they are values written back to the map, so aliasing between two holders of one window object is not captured.
- Badge text: a count is kept as a number and its decimal rendering is not modelled.
- SQL, schemas, migrations and the differences between SQLite and Postgres: a table is a sequence or map of rows, a statement or a reservation transaction is one atomic step; id gaps after a rollback are not modelled.
- Limits do not change during a ledger run; weeks that begin before 1970 start at 1970.
- Ledger rows: run ids, requested selections and failure details are not stored, and an absent provider or model is the empty string.
- Floating point: prices, delays and times are reals and powers of two are exact, so the overflow the exponent cap avoids cannot occur.
- The order of the per-user activity table (by credits) and the calendar dates' text form.
- Lower-casing and capitalisation are ASCII, character by character; Unicode case mappings that change length are not modelled.
- Terminology.Check: only the branch without a tokenizer; the regular-expression and tokenizer branches, messages and severities are not modelled.
- The throttle's mutex and the two configured instances: an operation under the lock is one step.
- JobManager.CreateJob: the store keeps each job's status as a value and not as a reference to the job object, so a job finishing is a step on the store (`JobProofs.StoreStep`) rather than a write through an alias.
- Check jobs: findings, scorecards and the attached task are not modelled, and generator frames are values in the job.
- Locks are granted in any order; asyncio's first-come order and thread scheduling are not modelled.
- JWT and JWKS verification, bcrypt, the Supabase gateway and HTTP status codes: a verified subject and address are inputs.
- `update_user` could write an external id but no caller passes one (backend/app/services/users.py:54-56), so it is not a step of the identity runs.
- Policy construction from configuration, features, labels and limits; the warn-once log.
- LLM providers, prompts, the rules engine, terminology storage, configuration parsing, setup wizard, operator commands, imports, seeding and the React interface would only add easy members or behaviour of other systems.
