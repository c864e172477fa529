# StreamOtter, verified

StreamOtter streams application state to browsers. It promises that a view is
never `live` while it is wrong, and that a record it cannot process is never
skipped silently. This project models the parts of StreamOtter that carry those
two promises and proves what they rest on. `dafny verify dfyconfig.toml` checks
everything.

- **Recovery guard** (`OrderDomain`, `FixtureApp`, `RecoveryProtocol`,
  `SnapshotStates`): an outbox, an ordered record stream, a read model, a guard that
  may approve skipping a record, and snapshots that must reach a watermark before they acknowledge. A run
  is any sequence of commits, re-publishes, foreign or altered records, deliveries
  and guard-approved skips.
- **Client** (`Revisions`, `SubscriptionSpec`, `SubscriptionSafety`,
  `SubscriptionFrames`, `SubscriptionAnswers`, `ClientSubscriptions`, `ClientSpec`,
  `ClientSafety`, `ClientCalls`, `Reconnection`, `ReconnectionGap`, `StreamClients`): the
  subscription and the client as classes whose methods are proved against value
  machines, and what every run of those machines keeps. The gateway may send any
  frame on any connection and answer any request in any way.
- **Failure journal** (`JournalSpec`, `JournalSafety`, `JournalClaims`,
  `JournalHistory`, `JournalWrites`, `JournalCircuit`, `JournalMiscount`,
  `JournalRebaseline`, `JournalClosings`, `JournalRefusal`, `IncidentStores`): the
  journal's tables as a value, the calls that change them, their invariants over every
  run, and the store as a class with nested savepoints in which any statement may run
  out of space.
- **Codecs and canonical forms** (`ByteStrings`, `HeaderCodec`, `Evidence`,
  `Quarantine`, `JsValues`, `KeyOrder`, `CanonicalJson`, `CanonicalReading`,
  `SchemaValidation`, `SchemaValues`, `SchemaConformance`, `SchemaDefinitions`,
  `Params`): round trips, injectivity, and two validators that agree.
- **Host stylesheet** (`ScopeCss`, `ScopeCssScans`, `ScopeCssReparse`,
  `ScopeCssSelectors`, `ScopeCssPlacement`, `ScopeCssComments`): the
  scanners, the parser and the printer, and the parser reading the printer's output.
- **Bounded resources and indexes** (`Budgets`, `Revocations`, `TypeNames`,
  `TypeNameForms`).

Where the source updates an object in place, the model is a class, and each of its
methods states its whole new state as a function of the old one. The properties
are then proved of those functions, over every run; what each function makes of its
arguments is also stated in terms of its own (`SubscriptionFrames`,
`SubscriptionAnswers`, `ClientCalls`, `JournalWrites` and the other modules named for
what they describe).

Six places where a natural reading of the code does not hold, each with its exact
condition:

- The circuit finds an incident's earlier entry by its time. After it has opened and
  an operator has reopened it, it can remove another incident's entry of the same
  time, and then counts two incidents once (`JournalMiscount.CircuitMiscounts`). On
  every stretch, from the start or a reopen up to the next time it opens, it counts
  right exactly when every earlier time can be told apart (`JournalCircuit.RunCounts`),
  which different times guarantee (`JournalCircuit.RunCountsIncidents`).
- A client that tracks subscriptions is not always on its way to a connection. A
  refresh taken up while a connect of the same generation is opening supersedes it and
  leaves the connecting flag set; once nothing else is under way, a new subscription
  waits for a connection that nobody opens (`ReconnectionGap.Strands`), until
  `reconnect()` or `close()` (`ReconnectionGap.StuckForGood`). `Reconnection.RunReconnects`
  is the exact condition.
- An `enum` array of one hole passes every check on a string schema, since those
  checks skip holes, and no string then matches it (`SchemaValues.SparseEnumIsEmpty`).
  An accepted definition has a value exactly when its required properties force none
  out of such an `enum` (`SchemaValues.InhabitedExactly`).
- Canonical text also forgets the difference between a hole and a null in an array
  (`CanonicalJson.HolePrintsAsNull`); `CanonicalJson.SameTextIffSame` is the exact
  statement.
- An escaped line break in a string can hide a nested rule from the check for one,
  and the line break is gone from the scoped stylesheet
  (`ScopeCssReparse.BrokenRefused`). `ScopeCssReparse.ScopedReparses` says exactly
  when the scoped stylesheet parses again.
- A rebaseline can be refused, when an incident of the configured generation is
  already open while the source is still recorded otherwise
  (`JournalRebaseline.RebaselineExact`); a run from an empty journal gets there
  (`JournalRefusal.RebaselineRefused`).

Assumptions: listeners do not call back into the client while it notifies them, and
one that throws is a step of its own that fails its subscription. The recovery
boundary of the order dashboard stays in force. Budgets release only what was granted.
The recovery runs are restricted to those that deliver the record of an outbox row
only while it still is that row's event; once altered it stays at the cursor until it
is skipped. That is a restriction on the runs, not what the code does: the map handler
(`examples/order-dashboard/src/server/fixture-handlers.ts:112-117`) does not check it,
and given such a record delivers the altered order, or returns no event.

## Model

| member | source | states |
|---|---|---|
| `RecoveryProtocol.SnapshotSound` | examples/order-dashboard/src/server/fixture-handlers.ts:118-127 | In every run of commits, re-publishes, deliveries and guard-approved skips, a snapshot that acknowledges the boundary in force returns a revision at least that of every outbox row of its order up to the watermark it read at, skipped rows included |
| `RecoveryProtocol.ReadCovers` | examples/order-dashboard/src/server/domain.ts:273-293 | The induction over skips: a row at or below the read watermark reached the read model, or a later row of its order at or below the required watermark stands in for it, and so on to one that did |
| `RecoveryProtocol.BoundariesRise` | examples/order-dashboard/src/server/domain.ts:324-325 | Of two boundaries of a run the later requires no lower watermark, and none requires more than the store holds |
| `RecoveryProtocol.RunKeeps` | examples/order-dashboard/src/server/fixture-handlers.ts:31-41 | Every state a run reaches keeps the protocol's invariant: contiguous read watermark, numbered and ordered rows, every passed row read or superseded |
| `RecoveryProtocol.AcknowledgedSound` | examples/order-dashboard/src/server/domain.ts:226-236 | A snapshot that acknowledges the boundary in force when it returns was asked for under that boundary, so what it read then still covers every row up to its watermark |
| `RecoveryProtocol.RunAppends` | examples/order-dashboard/src/server/domain.ts:201-206 | A run only appends outbox rows, and a new boundary always has a new ID |
| `SnapshotStates.ReadModelFromEvents` | examples/order-dashboard/src/server/fixture-handlers.ts:47-58 | After any run each order of the read model is the initial one or has the revision and state of one mapped event together, no mapped event of it is newer, and the watermark is the highest row whose own event was mapped |
| `SnapshotStates.SnapshotServes` | examples/order-dashboard/src/server/fixture-handlers.ts:118-127 | A snapshot returns the state that came with the revision it returns, the newest mapped for its order; and when it acknowledges the boundary in force, that revision covers every row of the order up to its watermark |
| `SnapshotStates.SnapshotOfStore` | examples/order-dashboard/src/server/fixture-handlers.ts:118-127 | When no one else writes to the timeline, a snapshot serves an order as the store itself held it at some point of the run, revision and state together |
| `SnapshotStates.AdvanceCommits` | examples/order-dashboard/src/server/fixture-handlers.ts:148-152 | Advancing commits the next status with its progress and note at the next revision, and publishes a row and a record that carry exactly that state |
| `SnapshotStates.RepublishRepeats` | examples/order-dashboard/src/server/fixture-handlers.ts:153 | Re-publishing appends a row and a record of the current state and changes no order |
| `OrderDomain.DecideExact` | examples/order-dashboard/src/server/domain.ts:294-340 | The guard answers recoverable exactly when the prior boundary can be carried forward and the record is the application's own and re-published since, or a stranger's whose every possible order is unchanged or re-published since |
| `OrderDomain.ApprovalCovers` | examples/order-dashboard/src/server/domain.ts:271-293 | An approved watermark is at least the prior one and the failed row's, covers a later re-publish of every affected order, and is itself one of these |
| `OrderDomain.AssessExact` | examples/order-dashboard/src/server/domain.ts:322-337 | The loop over affected orders approves exactly when each is excused or re-published, at a watermark that covers all of them |
| `OrderDomain.DecideRecovery` | examples/order-dashboard/src/server/domain.ts:294-340 | The guard's loop over a running watermark computes the decision function, for every branch that holds |
| `OrderDomain.OrderStore.Commit` | examples/order-dashboard/src/server/domain.ts:172-179 | Refuses a revision that does not advance, and otherwise sets the order, appends its row and raises the watermark in one step |
| `OrderDomain.OrderStore.Republish` | examples/order-dashboard/src/server/domain.ts:182-185 | Appends a row for the current state, or nothing for an unknown order |
| `OrderDomain.OrderStore.MarkPublished` | examples/order-dashboard/src/server/domain.ts:188-191 | Records the position on the first row with that sequence and on no other |
| `OrderDomain.OrderStore.Read` | examples/order-dashboard/src/server/domain.ts:166-169 | The order and the watermark of the same moment |
| `OrderDomain.MarkFirstAt` | examples/order-dashboard/src/server/domain.ts:188-191 | Marking changes exactly the row that has the sequence number |
| `OrderDomain.ContextRoundTrip` | examples/order-dashboard/src/server/domain.ts:220-224 | The watermark written into a boundary's context is the one read back |
| `FixtureApp.ReadModel.Apply` | examples/order-dashboard/src/server/fixture-handlers.ts:47-58 | Takes a well-formed newer revision of a known order, and raises the watermark only for the row published at that position |
| `FixtureApp.FixtureApplication.Publish` | examples/order-dashboard/src/server/fixture-handlers.ts:96-105 | The row, its timeline record and its position are recorded together |
| `FixtureApp.FixtureApplication.Advance` | examples/order-dashboard/src/server/fixture-handlers.ts:148-152 | Commits the next state and publishes it, or changes nothing when there is none |
| `FixtureApp.FixtureApplication.Republish` | examples/order-dashboard/src/server/fixture-handlers.ts:153 | Publishes the current state again as a new row |
| `FixtureApp.FixtureApplication.Map` | examples/order-dashboard/src/server/fixture-handlers.ts:112-117 | Applies the record with the row published at its own position, if any |
| `FixtureApp.FixtureApplication.Snapshot` | examples/order-dashboard/src/server/fixture-handlers.ts:118-127 | Reads order and watermark together and acknowledges only what that read covers |
| `FixtureApp.FixtureApplication.Recover` | examples/order-dashboard/src/server/fixture-handlers.ts:133-139 | Hands the guard the outbox, the orders, the prior boundary and the failed record's key |
| `Revisions.CompareIsNumeric` | packages/contracts/src/primitives.ts:38-42 | Comparing canonical decimals by length and then as text is comparing their numbers, at any length |
| `SubscriptionSafety.DeliveredInBlocks` | packages/client/src/subscription.ts:253-292 | Over a subscription's whole life deliveries form blocks of one snapshot then updates numbered in order; revisions never go down and rise strictly at each update |
| `SubscriptionSafety.AtMostTwoRetries` | packages/client/src/subscription.ts:418-434 | Between two resets, refusals and rejected frames together trigger at most two retries, the first two each start one, and the third and every later one leaves the subscription resync-required |
| `SubscriptionSafety.FailureStep` | packages/client/src/subscription.ts:388-411 | One counted failure raises the count by one and retries exactly while it is not the third |
| `SubscriptionSafety.OtherStep` | packages/client/src/subscription.ts:337-353 | Nothing else moves the count; re-subscribing because the gateway lost the subscription is not a failure |
| `SubscriptionSafety.ResetStep` | packages/client/src/subscription.ts:138-146 | A live frame or an explicit resync starts the count over |
| `SubscriptionSafety.RunInv` | packages/client/src/subscription.ts:164-250 | Every reachable state: live means synchronized on the attached connection, terminal means detached, and the remembered sequence and revision are those last delivered |
| `SubscriptionFrames.StateFrameApplies` | packages/client/src/subscription.ts:205-250 | A state frame on the attached connection, of the epoch in view, neither early nor of an epoch being replaced, gives the subscription exactly the state and reason it names, for each of the six states |
| `SubscriptionFrames.OtherFramesIgnored` | packages/client/src/subscription.ts:205-250 | Any other frame but a synchronizing one changes nothing except that the gateway is known to hold the subscription |
| `SubscriptionFrames.EpochOpens` | packages/client/src/subscription.ts:205-222 | A synchronizing frame opens its epoch with a fresh stream and nothing asked for |
| `SubscriptionFrames.LiveWasNamed` | packages/client/src/subscription.ts:224-245 | Over every run, a live subscription's last frame that counted since its epoch opened was a live one |
| `SubscriptionFrames.NextIsDelivered` | packages/client/src/subscription.ts:253-292 | The next frame in sequence, contract, kind and numeric revision is delivered and receipted, and nothing else changes but the stream's memory |
| `SubscriptionFrames.WrongIsRejected` | packages/client/src/subscription.ts:261-284 | A frame of the epoch that is not the next is delivered to no one and counted, with the fault as the reason; below the third a replacement is asked for, at the third the gateway is told to drop the subscription |
| `SubscriptionFrames.ThrowingFails` | packages/client/src/subscription.ts:286-291 | When a listener throws the subscription fails, the gateway is told, and no receipt is sent |
| `SubscriptionFrames.OthersUndelivered` | packages/client/src/subscription.ts:254-262 | Frames of other epochs and connections are delivered to no one; one of an epoch being replaced is still receipted |
| `SubscriptionAnswers.AttachStarts` | packages/client/src/subscription.ts:164-176 | Attaching subscribes anew: the old epoch and all that was asked are forgotten, the timer is disarmed, and one subscribe is sent if the connection is up |
| `SubscriptionAnswers.DetachLetsGo` | packages/client/src/subscription.ts:179-189 | Detaching forgets what the gateway knows and leaves the subscription stale with the reason, unless it ended or gave up |
| `SubscriptionAnswers.FreshAsks` | packages/client/src/subscription.ts:363-375 | Over a live connection: subscribes again where the gateway lost the subscription, asks for a replacement where it has it, and waits where one is on its way |
| `SubscriptionAnswers.ResyncAsks` | packages/client/src/subscription.ts:138-146 | An explicit resync starts the count over and asks, joins a request on its way, and does nothing for one that is over or awaits authentication |
| `SubscriptionAnswers.SubscribeAnswered` | packages/client/src/subscription.ts:314-353 | What each answer to a subscribe does: known, retried later, given up at the third with the refusal as reason, or failed for good |
| `SubscriptionAnswers.LateAnswerIgnored` | packages/client/src/subscription.ts:314-353 | An answer on another connection changes at most that no subscribe is in flight |
| `SubscriptionAnswers.ResyncAnswered` | packages/client/src/subscription.ts:376-415 | What each answer to a resync request does: subscribed anew where it is unknown, and otherwise counted if the request is still open |
| `SubscriptionAnswers.OtherResyncAnswers` | packages/client/src/subscription.ts:376-415 | Answers on other connections are ignored, and an acknowledgment ends the replacement it was for |
| `SubscriptionAnswers.TimerActs` | packages/client/src/subscription.ts:337-353 | A timer acts only for the connection it was armed on, and does what it was armed for |
| `SubscriptionAnswers.UnsubscribeEnds` | packages/client/src/subscription.ts:149-161 | Unsubscribing closes the subscription once and tells a gateway that may hold it |
| `SubscriptionAnswers.ListenerEnds` | packages/client/src/subscription.ts:506-520 | A listener that throws fails the subscription and tells a gateway that may hold it |
| `SubscriptionAnswers.FinishedForGood` | packages/client/src/subscription.ts:462-474 | Once over, the end, its reason and the deliveries never change, and no message is ever sent or timer armed again, whatever comes |
| `ClientSubscriptions.ClientSubscription.Attach` | packages/client/src/subscription.ts:164-176 | Attaches to a new connection: sends subscribe, waits for an epoch, forgets the old one |
| `ClientSubscriptions.ClientSubscription.Detach` | packages/client/src/subscription.ts:179-189 | Lets the connection go and goes stale with the reason |
| `ClientSubscriptions.ClientSubscription.HandleState` | packages/client/src/subscription.ts:205-250 | Accepts, ignores or rejects a state frame by connection, epoch and pending replacement |
| `ClientSubscriptions.ClientSubscription.HandleData` | packages/client/src/subscription.ts:253-292 | Delivers a frame exactly when sequence, kind, channel and revision fit; otherwise counts a failure |
| `ClientSubscriptions.ClientSubscription.Resynchronize` | packages/client/src/subscription.ts:138-146 | An explicit resync clears the failure count and asks for a fresh epoch, joining one already pending |
| `ClientSubscriptions.ClientSubscription.SubscribeSettled` | packages/client/src/subscription.ts:314-353 | An accepted, refused or lost subscribe: retry, give up or fail by the error code, only on the connection it was sent on |
| `ClientSubscriptions.ClientSubscription.ResyncRefused` | packages/client/src/subscription.ts:376-415 | A refused resync re-subscribes, retries or gives up, only if nothing newer happened |
| `ClientSubscriptions.ClientSubscription.LocalSyncFailure` | packages/client/src/subscription.ts:418-434 | A rejected frame counts, and from the third on stops asking |
| `ClientSubscriptions.ClientSubscription.RequestFreshSynchronization` | packages/client/src/subscription.ts:363-375 | Asks for a replacement epoch when connected and known, and only waits otherwise |
| `ClientSubscriptions.ClientSubscription.RetryFired` | packages/client/src/subscription.ts:337-353 | A backoff timer acts only on the connection it was armed for |
| `ClientSubscriptions.ClientSubscription.Terminate` | packages/client/src/subscription.ts:462-474 | Ends the subscription for good and clears its retry |
| `ClientSubscriptions.ClientSubscription.UnsubscribeNow` | packages/client/src/subscription.ts:149-161 | Says farewell when connected and closes |
| `ClientSubscriptions.ClientSubscription.ListenerFailed` | packages/client/src/subscription.ts:506-520 | A failed listener fails the subscription |
| `ClientSafety.LiveIsSynchronized` | packages/client/src/client.ts:273-295 | At the end of every event, a live subscription is attached to the adopted connection, which is up, has accepted a synchronizing frame for its epoch on it, and has no replacement outstanding |
| `ClientSafety.NeverTwoIdentities` | packages/client/src/client.ts:273-295 | No subscription is ever attached to connections of two different identity keys |
| `ClientSafety.SettledByItsStep` | packages/client/src/client.ts:210-230 | A connection that completed its handshake is the adopted one or closed once its continuation has run, superseded connects and refreshes included |
| `ClientSafety.AtMostOneAdopted` | packages/client/src/client.ts:363-384 | A connection that is up is the adopted one or still between its hello and its continuation |
| `ClientSafety.RunInv` | packages/client/src/client.ts:163-201 | Every reachable state keeps the client's invariant over its connection, openings and subscriptions |
| `Reconnection.RunReconnects` | packages/client/src/client.ts:329-348 | Through every run, a client that is neither closed nor suspended and tracks a subscription has a connection, an armed timer or a connect of its generation in flight, exactly when no registration meets it with its connecting flag set and none of these under way |
| `Reconnection.StepReconnects` | packages/client/src/client.ts:204-208 | Every single event keeps this, but such a registration |
| `Reconnection.LossArmsTimer` | packages/client/src/client.ts:306-348 | Losing the adopted connection without an authentication error leaves every subscription stale with the last error's code, arms the timer and counts one attempt; with nothing tracked the client goes idle |
| `ReconnectionGap.Strands` | packages/client/src/client.ts:210-240 | A concrete run that strands a client: a refresh is taken up while a connect of its generation is opening, the flag stays set, and a later subscription is tracked but never connected |
| `ReconnectionGap.StuckForGood` | packages/client/src/client.ts:204-208 | From then on only reconnect() or close() helps, as long as anything is tracked |
| `ReconnectionGap.UnovertakenReconnects` | packages/client/src/client.ts:363-384 | In a run in which no refresh overtakes a connect, the client is on its way to a connection after every event |
| `ClientCalls.AdoptTakes` | packages/client/src/client.ts:273-295 | Taking a connection up closes the one before, drops another identity's subscriptions, subscribes every other anew and clears the error and the attempts |
| `ClientCalls.OpeningSettled` | packages/client/src/client.ts:210-230 | What becomes of a finished opening: failed, superseded and closed, or taken up, a refresh under a generation of its own |
| `ClientCalls.FailureHandled` | packages/client/src/client.ts:297-304 | A failed connect keeps its error and waits for the application for the four codes that call for it, and is tried again for every other; superseded ones and refreshes change nothing |
| `ClientCalls.LossHandled` | packages/client/src/client.ts:306-320 | What becomes of the client and every subscription when its connection is lost, for each kind of last error |
| `ClientCalls.SuspendWaits` | packages/client/src/client.ts:322-327 | Waiting stops the timer and leaves every subscription stale for want of authentication |
| `ClientCalls.RegisterTracks` | packages/client/src/client.ts:98-108 | A new subscription starts on the adopted connection, hears that authentication is required, or has a connection opened unless one is on its way |
| `ClientCalls.TimerOpens` | packages/client/src/client.ts:340-347 | The reconnect timer opens a connection in a new generation, or goes idle |
| `ClientCalls.RefreshOpens` | packages/client/src/client.ts:363-366 | The refresh timer opens a replacement in the current generation, for a client that has a connection |
| `ClientCalls.ReconnectRestarts` | packages/client/src/client.ts:163-180 | An explicit reconnect supersedes whatever is under way, clears the suspension and the error, and opens at once |
| `ClientCalls.ClosedIgnores` | packages/client/src/client.ts:183-201 | A closed client takes no call and opens nothing |
| `ClientCalls.OtherLossIgnored` | packages/client/src/client.ts:306-307 | Losing any other connection changes nothing but that it is down |
| `ClientCalls.CloseEnds` | packages/client/src/client.ts:183-201 | After close() nothing is tracked, connected or waited for |
| `ClientCalls.FramesRouted` | packages/client/src/client.ts:417-425 | Frames reach the subscription they name from the adopted connection and no other, and one that ended is no longer tracked |
| `ClientCalls.CallsRouted` | packages/client/src/client.ts:98-120 | Calls and timers reach their subscription, told whether its connection is up and whether authentication is awaited |
| `ClientCalls.ErrorKept` | packages/client/src/client.ts:427-435 | An error the adopted connection reports is kept for what its loss will mean, and another connection's is not |
| `ClientCalls.AnswersRouted` | packages/client/src/client.ts:113-120 | Answers reach the subscription that asked; a control request that times out on the adopted connection costs that connection |
| `StreamClients.StreamClient.Adopt` | packages/client/src/client.ts:273-295 | Adopts a connection: closes the previous one, ends every subscription when the identity changed, re-attaches the rest |
| `StreamClients.StreamClient.Opened` | packages/client/src/client.ts:210-230 | A finished opening is adopted only if its generation is still current; otherwise the connection is closed |
| `StreamClients.StreamClient.HandleDisconnect` | packages/client/src/client.ts:306-320 | Only the adopted connection's loss detaches, and then suspends or schedules a reconnect |
| `StreamClients.StreamClient.Suspend` | packages/client/src/client.ts:322-327 | Stops reconnecting until an explicit reconnect |
| `StreamClients.StreamClient.ScheduleReconnect` | packages/client/src/client.ts:329-348 | Goes idle without subscriptions, and otherwise arms the one reconnect timer |
| `StreamClients.StreamClient.Refresh` | packages/client/src/client.ts:363-384 | Opens a replacement connection unless closed, suspended or disconnected |
| `StreamClients.StreamClient.Reconnect` | packages/client/src/client.ts:163-180 | An explicit reconnect bumps the generation, drops the connection and starts over |
| `StreamClients.StreamClient.Close` | packages/client/src/client.ts:183-201 | Closing ends every subscription, the connection and the timers for good |
| `StreamClients.StreamClient.Connect` | packages/client/src/client.ts:210-230 | Starts one opening under the current generation |
| `StreamClients.StreamClient.OpenFailed` | packages/client/src/client.ts:297-304 | A failed opening suspends or schedules by its error code, and is ignored when superseded |
| `StreamClients.StreamClient.Register` | packages/client/src/client.ts:98-108 | A new subscription is tracked and attached, or told why it cannot be |
| `StreamClients.StreamClient.RouteState` | packages/client/src/client.ts:417-425 | A state frame reaches the subscription it names only from the adopted connection |
| `StreamClients.StreamClient.RouteData` | packages/client/src/client.ts:417-425 | A data frame reaches the subscription it names only from the adopted connection |
| `StreamClients.StreamClient.ReconnectTimerFired` | packages/client/src/client.ts:340-347 | The timer connects again, or goes idle when nothing is subscribed |
| `StreamClients.StreamClient.ControlTimedOut` | packages/client/src/client.ts:116-120 | A control request that timed out on the adopted connection drops it |
| `JournalSafety.StepKeeps` | packages/gateway/src/failures/journal.ts:80-148 | Every call keeps the journal's invariant (one boundary in force per source, of the recorded generation, listing known incidents once each), and none ever trips over a unique index |
| `JournalSafety.RunKeeps` | packages/gateway/src/failures/journal.ts:108-133 | The invariant holds after any run of claims, observations, updates, advances, retirements and circuit updates |
| `JournalSafety.EventAdded` | packages/gateway/src/failures/journal.ts:1210-1217 | Adding an event keeps exactly the incident's newest 200 and every other incident's history |
| `JournalClaims.ClaimExact` | packages/gateway/src/failures/journal.ts:789-829 | A claim is refused exactly for a repeated source, another project, a removed source with open incidents or a changed identity with open incidents; otherwise it records the sources, retires boundaries of another generation, and changes nothing else |
| `JournalWrites.ClaimRetires` | packages/gateway/src/failures/journal.ts:789-829 | A claim retires exactly the boundaries in force of a source now recorded at another generation, with the reason written out, and leaves every other as it is |
| `JournalHistory.RunCovers` | packages/gateway/src/failures/store.ts:481-497 | After any run a source has a boundary in force exactly when an incident was advanced past since the last retirement, and it lists exactly those incidents, in order, once each |
| `JournalWrites.AdvanceSupersedes` | packages/gateway/src/failures/journal.ts:1003-1035 | An accepted advance installs one boundary with the guard's context, the incident's generation, the call's ID and time, a link to the one it replaces, and that one's list plus the new incident; the replaced one lists nothing and is otherwise kept; the incident awaits its advance under the new boundary with the call's guard; no other row changes |
| `JournalWrites.AdvanceAccepted` | packages/gateway/src/failures/store.ts:439-480 | An advance is accepted exactly when its input fits and the incident, its source's generation and the boundary in force are as the guard saw them |
| `JournalWrites.RunContext` | packages/gateway/src/failures/store.ts:481-497 | After any run, the boundary a source has in force carries the context, ID, time and link of the source's last accepted advance, read off the calls |
| `JournalWrites.AdvanceLogs` | packages/gateway/src/failures/journal.ts:1003-1035 | An advance logs one event and takes the source's circuit to its next revision, changing only its list of advances |
| `JournalHistory.NoLostUpdate` | packages/gateway/src/failures/store.ts:379-386 | Of two calls that name the same revision of the same incident, boundary or circuit, at most one is ever accepted, whatever calls lie between |
| `JournalHistory.RetireExact` | packages/gateway/src/failures/store.ts:514-537 | A boundary retires exactly when it is in force at the named revision and every incident it lists is resolved, advanced past or processed |
| `JournalWrites.RetireWrites` | packages/gateway/src/failures/store.ts:545-556 | A retired boundary keeps its list and context and gets the state, time and retirement it was ended with; nothing else changes |
| `JournalHistory.RunRemains` | packages/gateway/src/failures/store.ts:66-72 | No run drops an incident or turns it into another: its source, generation and first observation stay, and its observations only grow |
| `JournalHistory.ObservedIsOpen` | packages/gateway/src/failures/journal.ts:845-903 | An observed incident is open, held when it was new or resolved; conflicting evidence leaves its diagnosis, policy and recovery alone, and otherwise the configured policy applies |
| `JournalWrites.ObserveWrites` | packages/gateway/src/failures/journal.ts:845-903 | Refused only for a new incident of an unknown source; otherwise exactly the fields a first or a repeated observation sets, reopening, conflict and policy included |
| `JournalWrites.ObserveLogs` | packages/gateway/src/failures/journal.ts:845-903 | Each observation logs one event, with the failure class or the conflict |
| `JournalWrites.UpdateWrites` | packages/gateway/src/failures/journal.ts:909-925 | A transition at the expected revision sets exactly the fields it names, raises the revision and logs its event |
| `JournalWrites.UpdateCircuitWrites` | packages/gateway/src/failures/journal.ts:1055-1065 | A circuit is replaced exactly at the revision it was read at, with the newest 20 of its advances |
| `JournalCircuit.RunCounts` | packages/gateway/src/failures/journal.ts:1026-1033 | At every point of every run: since the start, or since the reopen the current stretch began with, and until the circuit opens or its cap is passed, it has held one entry per distinct incident all along exactly when no advance's earlier time was another incident's entry |
| `JournalCircuit.RunCountsIncidents` | packages/gateway/src/failures/store.ts:145-155 | In any run whose boundaries of the source are created at different times, trips and reopens included, the number of entries in a stretch is the number of distinct incidents advanced past in it |
| `JournalCircuit.StepCounts` | packages/gateway/src/failures/journal.ts:1026-1033 | Within a stretch, one call of any kind keeps list and incidents in agreement exactly when its incident's earlier entry can be told apart by time |
| `JournalMiscount.CircuitMiscounts` | packages/gateway/src/failures/journal.ts:1026-1033 | A concrete run in which two distinct incidents leave one entry: the circuit opens and is reopened, and an incident advanced before that is advanced again while another's entry has its earlier time |
| `JournalRebaseline.RebaselineExact` | packages/gateway/src/failures/rebaseline.ts:37-68 | A rebaseline does nothing when nothing is stale, is refused exactly when the source is recorded otherwise and an incident of the configured generation is open, and otherwise closes every stale incident, retires the stale boundary, records the source, and changes nothing else |
| `JournalClosings.RebaselineCloses` | packages/gateway/src/failures/rebaseline.ts:51-58 | Each stale incident, and no other, is resolved with the rebaseline's reason and event; a retry in flight is held again and an unconfirmed advance stays uncertain |
| `JournalRefusal.RebaselineRefused` | packages/gateway/src/failures/rebaseline.ts:37-68 | A concrete run from an empty journal (a source claimed at one generation, an incident of it and one of the next observed) after which the rebaseline to the next is refused, whatever else it asks |
| `JournalRebaseline.NothingStaleLeft` | packages/gateway/src/failures/rebaseline.ts:8-19 | After it completes the source has no open incident and no boundary in force of an earlier generation |
| `JournalRebaseline.NeverRefused` | packages/gateway/src/failures/rebaseline.ts:59-62 | The inner claim never refuses while every open incident carries its source's recorded generation |
| `IncidentStores.SqliteIncidentStore.Claim` | packages/gateway/src/failures/journal.ts:789-829 | Commits the claim function's tables, or leaves every table as it was |
| `IncidentStores.SqliteIncidentStore.Observe` | packages/gateway/src/failures/journal.ts:845-903 | Inserts or counts an observation and reopens a resolved incident, or leaves every table as it was; says whether it was new and whether evidence conflicts |
| `IncidentStores.SqliteIncidentStore.Update` | packages/gateway/src/failures/journal.ts:909-925 | Applies a transition at the expected revision, or leaves every table as it was |
| `IncidentStores.SqliteIncidentStore.PrepareAdvance` | packages/gateway/src/failures/journal.ts:1003-1035 | Boundary, incident, event and circuit commit together, or not at all |
| `IncidentStores.SqliteIncidentStore.RetireBoundary` | packages/gateway/src/failures/journal.ts:1038-1045 | Ends an in-force boundary none of whose incidents is held or unresolved |
| `IncidentStores.SqliteIncidentStore.UpdateCircuit` | packages/gateway/src/failures/journal.ts:1055-1065 | Replaces the circuit at the expected revision, keeping its newest 20 advances |
| `IncidentStores.SqliteIncidentStore.Rebaseline` | packages/gateway/src/failures/rebaseline.ts:37-68 | The loop of updates and the claim are one transaction: on any refusal or lack of space, at any statement, the tables are exactly as before |
| `IncidentStores.SqliteIncidentStore.End` | packages/gateway/src/failures/journal.ts:1172-1190 | A nested write that fails undoes its own writes, an outer one everything, and a transaction SQLite already rolled back is left alone |
| `HeaderCodec.EncodeHeaders` | packages/gateway/src/failures/journal.ts:627-642 | Writes the encoding by offset, for exactly the lists whose lengths fit 32 bits |
| `HeaderCodec.DecodeHeaders` | packages/gateway/src/failures/journal.ts:645-667 | The offset loop accepts and returns exactly what the decoding function does |
| `HeaderCodec.DecodeEncoded` | packages/gateway/src/failures/journal.ts:644 | Decoding undoes encoding for every list whose lengths fit |
| `HeaderCodec.EncodeDecoded` | packages/gateway/src/failures/journal.ts:622-626 | Any bytes that decode are exactly what encoding gives for the result |
| `Evidence.EvidenceHash` | packages/gateway/src/failures/evidence.ts:33-44 | Feeds the hash the tagged fields in order |
| `Evidence.FeedInjective` | packages/gateway/src/failures/evidence.ts:28-32 | Different key, value or ordered headers, null and empty included, feed the hash different bytes |
| `Quarantine.FlattenKafkaHeaders` | packages/gateway/src/failures/evidence.ts:54-66 | One entry per wire value in property order; inherited values are skipped |
| `Quarantine.Publish` | packages/gateway/src/failures/quarantine.ts:197-212 | Builds the header object in place: envelope and failure ID first, then every captured header under the src. prefix |
| `Quarantine.HeadersReturn` | packages/gateway/src/failures/evidence.ts:71-81 | The headers read back from the topic are those captured, exactly when equal names were captured together |
| `Quarantine.CapturedGrouped` | packages/gateway/src/failures/evidence.ts:47-53 | Whatever object Kafka delivers, repeated and integer-like names included, its list is captured with equal names together |
| `Quarantine.CapturedVerifies` | packages/gateway/src/failures/quarantine.ts:274-293 | From any header object Kafka delivers, through capture, publish and read-back, the header list comes back unchanged and the record verifies as found |
| `Quarantine.VerifiesItsOwn` | packages/gateway/src/failures/quarantine.ts:274-293 | The record a write leaves verifies for its own failure ID and evidence and for no others, each mismatch named |
| `CanonicalJson.Canonicalize` | packages/contracts/src/primitives.ts:129-147 | The recursion and its loops compute the canonical copy or report the TypeError |
| `CanonicalJson.CanonicalIffJson` | packages/contracts/src/primitives.ts:108-120 | Canonicalizing succeeds exactly when isJsonValue holds of the value without its undefined properties, at every depth |
| `CanonicalJson.SameTextIffSame` | packages/contracts/src/primitives.ts:120-126 | Two values get the same text exactly when they differ at most in key order, the sign of zero, undefined properties, and holes for nulls |
| `CanonicalReading.CanonicalTextReads` | packages/contracts/src/primitives.ts:123-147 | Read as JSON, the canonical text gives data that says what the value does, with -0 as 0, holes as null, undefined properties gone and keys in order |
| `CanonicalReading.TextReads` | packages/contracts/src/primitives.ts:123-126 | Reading the text of any JSON data gives that data back, whatever follows it |
| `KeyOrder.KeyOrderIs` | packages/contracts/src/primitives.ts:139-142 | Array indices come first and in numeric order, then all other keys by code units |
| `KeyOrder.IndexIs` | packages/contracts/src/primitives.ts:139-142 | A key is an array index exactly when it writes a number below 4294967295 |
| `CanonicalJson.HolePrintsAsNull` | packages/contracts/src/primitives.ts:129-147 | A concrete pair that differs in none of the three documented ways: an array with a hole and one with null |
| `SchemaValidation.IssueList.ValidateSchemaDefinition` | packages/contracts/src/schema.ts:28-141 | Reports no issue exactly for the definitions that are schemas of the dialect, holes in enum and required skipped as the source does, only ever adds issues, and answers whether it added none |
| `SchemaValidation.CodePointLength` | packages/contracts/src/primitives.ts:76-87 | Counts a surrogate pair once and an unpaired surrogate once |
| `SchemaConformance.LengthLessPairs` | packages/contracts/src/primitives.ts:76-87 | A length is the number of code units less the number of surrogate pairs |
| `SchemaDefinitions.DescribesExactly` | packages/contracts/src/schema.ts:28-141 | A definition is accepted, as the schema it describes and no other, exactly when its properties say so: type, only the keywords of that type, limits, bounds, distinct enum and required lists, closed objects, each nested definition within the depth |
| `SchemaConformance.ValidatesExactly` | packages/contracts/src/schema.ts:184-234 | Under an accepted definition, validateValue accepts exactly the values it describes: type, bounds, enum, length in code points, item count and items, declared keys only, every required key, each present property |
| `SchemaValues.InhabitedExactly` | packages/contracts/src/schema.ts:28-141 | A definition the validator accepts has a value validateValue accepts exactly when no string schema its required properties lead to has an enum of one hole |
| `SchemaValues.AcceptedSchemaIsInhabited` | packages/contracts/src/schema.ts:28-141 | Every accepted definition without holes has a value validateValue accepts, given outright |
| `SchemaValues.SparseEnumIsEmpty` | packages/contracts/src/schema.ts:69-77 | A concrete accepted definition, a string schema with an enum of one hole, under which validateValue accepts nothing |
| `SchemaValues.NoDepthError` | packages/contracts/src/schema.ts:184-185 | Under an accepted definition validateValue never reports its depth error, whatever the value |
| `SchemaValues.AcceptedIsJson` | packages/contracts/src/schema.ts:184-234 | Every value validateValue accepts satisfies isJsonValue |
| `Params.ValidateParamsSchema` | packages/contracts/src/schema.ts:147-171 | Reports no issue exactly for objects whose every property is required and a string, boolean or integer |
| `Params.CanonicalizeParams` | packages/contracts/src/schema.ts:260-274 | The first problem, or the normalized parameters and their canonical text |
| `Params.NormalizedIs` | packages/contracts/src/schema.ts:260-274 | The normalized parameters are those given, keys in order, undefined ones gone and -0 as 0 |
| `Params.EncodesEvery` | packages/contracts/src/schema.ts:256-259 | Every valid set of parameters has an encoding, and it is the canonical text of the parameters as given |
| `Params.EncodingIdentifies` | packages/contracts/src/schema.ts:256-259 | Two valid sets of parameters share an encoding exactly when they differ at most in key order and the sign of zero |
| `TypeNames.TypeNames` | packages/cli/src/generate.ts:85-97 | The nested loops end, by counting the used names still ahead, and compute the name map |
| `TypeNames.NamesAreUsable` | packages/cli/src/generate.ts:81-84 | Every ID gets a name, the names are distinct identifiers, and none is reserved |
| `TypeNames.NamesKeepOrder` | packages/cli/src/generate.ts:81-84 | The same IDs get the same names in any order |
| `TypeNames.FreeIs` | packages/cli/src/generate.ts:92-93 | The suffix search returns the first candidate not used |
| `TypeNameForms.NameIs` | packages/cli/src/generate.ts:85-97 | Each ID gets the first of the names it asks for, plain, then with 2, 3 and so on, that no smaller ID has |
| `TypeNameForms.DecimalReads` | packages/cli/src/generate.ts:93 | A suffix is written in decimal without leading zeros |
| `TypeNameForms.PascalIsParts` | packages/cli/src/generate.ts:76-79 | Every character but the separators stands in the name, in order, capitalized exactly where it starts a part |
| `Budgets.ByteBudget.TryReserve` | packages/gateway/src/runtime/budget.ts:24-30 | Charges every level up to the top exactly when all have room, and otherwise changes nothing |
| `Budgets.ByteBudget.Release` | packages/gateway/src/runtime/budget.ts:33-37 | Gives bytes back at every level |
| `Budgets.SubscriptionBudget.TryReserve` | packages/gateway/src/runtime/budget.ts:60-65 | One frame and its bytes together, or neither |
| `Budgets.SubscriptionBudget.Release` | packages/gateway/src/runtime/budget.ts:68-71 | Gives back one frame and its bytes |
| `Budgets.PostBalances` | packages/gateway/src/runtime/budget.ts:24-37 | A reservation or matching release keeps every level's use equal to what is outstanding at it and below and within its limit; a refusal changes nothing, and a release never reaches the clamp |
| `Budgets.RunBalances` | packages/gateway/src/runtime/budget.ts:1-4 | Over any interleaving on any tree with shared parents, every level is balanced |
| `Budgets.NothingLeaks` | packages/gateway/src/runtime/budget.ts:32-37 | When everything has been released every level is empty again |
| `Revocations.RevocationLog.Add` | packages/gateway/src/runtime/identity.ts:83-88 | Prunes what expired, drops the oldest at the bound, and appends under the next number |
| `Revocations.RevocationLog.RevokedSince` | packages/gateway/src/runtime/identity.ts:91-102 | True exactly when a retained entry newer than the captured number matches |
| `Revocations.EntriesAre` | packages/gateway/src/runtime/identity.ts:60-66 | The log is in order, holds only what was added, and never more than 10,000 entries |
| `Revocations.KeptWhileRecent` | packages/gateway/src/runtime/identity.ts:82-88 | An entry within its retention is kept until 10,000 newer ones have been added |
| `Revocations.GoneOnceExpired` | packages/gateway/src/runtime/identity.ts:82-88 | An entry found past its retention is gone for good |
| `Revocations.PendingIsToldOfRevocation` | packages/gateway/src/runtime/identity.ts:62-66 | An operation that captured the log before a revocation of its principal is told of it |
| `Revocations.ToldExactly` | packages/gateway/src/runtime/identity.ts:91-114 | An operation is told only of an unexpired revocation added after it captured the log that names its tenant, session, subject or channel; and of each such one that fewer than 10,000 others followed |
| `ScopeCssReparse.ScopedReparses` | apps/workbench/scope-css.ts:147-178 | Parsing the scoped stylesheet succeeds exactly when no rule's body, as written, shows a brace outside its strings, and then gives the same nesting and order of rules and groups, each rule under its scoped selector list; otherwise it is refused as nested |
| `ScopeCssReparse.UnbrokenReparses` | apps/workbench/scope-css.ts:136-139 | With no escaped line break inside a string it always parses again |
| `ScopeCssReparse.BrokenRefused` | apps/workbench/scope-css.ts:136-139 | A concrete accepted stylesheet whose escaped line break hides a nested rule, so that its scoped form is refused |
| `ScopeCssReparse.RuleScoped` | apps/workbench/scope-css.ts:164-178 | A rule's selectors are distinct, and each is the scope or inside it, whichever selectors are refused; the last check never fails |
| `ScopeCssReparse.ParsedFormed` | apps/workbench/scope-css.ts:73-108 | Every accepted rule has a prelude without braces, and a body whose braces balance and whose strings end |
| `ScopeCssPlacement.RulePlaced` | apps/workbench/scope-css.ts:147-178 | A rule is accepted exactly when each selector of its list can be placed, and its scoped selectors are those, tidied and placed below the scope, each once, in the order they first come |
| `ScopeCssPlacement.SelectorPlaced` | apps/workbench/scope-css.ts:147-162 | A selector goes below the scope, a leading html, body or :root becomes the scope, and * the scope and everything in it; it is refused exactly when empty, led by a combinator, or reaching outside |
| `ScopeCssPlacement.SplitsExactly` | apps/workbench/scope-css.ts:111-134 | A list splits into these parts exactly when each is a single selector and it is they with commas between them |
| `ScopeCssPlacement.CollapseRun` | apps/workbench/scope-css.ts:133 | Every run of white space in a selector becomes one space |
| `ScopeCssPlacement.RuleWritten` | apps/workbench/scope-css.ts:164-178 | A rule is written on one line: its selectors joined by commas, and its trimmed body with each run of white space that breaks a line as one space |
| `ScopeCssPlacement.UnbreakRun` | apps/workbench/scope-css.ts:175 | A run of white space in a body becomes one space when it holds a line feed, and stays otherwise |
| `ScopeCssComments.CommentGoes` | apps/workbench/scope-css.ts:28-50 | The first comment outside strings goes, up to where it first closes, and what follows is read as if it were not there |
| `ScopeCssComments.PlainStays` | apps/workbench/scope-css.ts:28-50 | A text in which no comment starts outside a string stays as it is |
| `ScopeCssComments.OpenCommentFails` | apps/workbench/scope-css.ts:28-50 | A comment that never closes is an error |
| `ScopeCssComments.GroupRuleIs` | apps/workbench/scope-css.ts:73-108 | The groups are @media and @supports, in any case, as whole names |
| `ScopeCssSelectors.SelectorsReturn` | apps/workbench/scope-css.ts:111-134 | Under a scope with balanced brackets, splitting the selector list that was written for a rule gives back exactly the rule's scoped selectors, in order |
| `ScopeCssSelectors.HostScopeBalanced` | apps/workbench/scope-css.ts:11 | The workbench's own scope is plain and balanced, so both results hold of it |
| `ScopeCss.ParseStylesheet` | apps/workbench/scope-css.ts:73-108 | The single scanning loop and its recursion compute the parse, or report the first construct that cannot be scoped |
| `ScopeCss.FindBlockEnd` | apps/workbench/scope-css.ts:53-70 | The index just past the brace that closes the block, skipping strings |
| `ScopeCss.StripComments` | apps/workbench/scope-css.ts:28-50 | Comments are taken out and strings left alone; an unterminated one is an error |
| `ScopeCss.SplitSelectors` | apps/workbench/scope-css.ts:111-134 | Splits on commas outside brackets and strings, and refuses brackets or quotes that do not balance |
| `ScopeCss.Output.Emit` | apps/workbench/scope-css.ts:164-178 | Appends exactly the scoped lines, nested groups indented, or reports the first selector that cannot be scoped |
| `ScopeCss.ScopeStylesheet` | apps/workbench/scope-css.ts:21-26 | Comments out, rules parsed, selectors scoped, lines written, or the first error of these |

## Left out

- RecoveryProtocol.SnapshotSound: revisions, offsets and fixture indexes are numbers rather than decimal text; `Revisions.CompareIsNumeric` is what makes the two agree for revisions.
- OrderDomain.DecideRecovery: the wording of the evidence text and of the hold reasons; each reason is a case of its own.
- ClientSubscriptions.ClientSubscription.Resynchronize: the promises that `ready` and `resync` return, the farewell's own retries, and error listeners.
- StreamClients.StreamClient.Refresh: the refresh timer's schedule; a refresh may start at any time, which includes every schedule.
- StreamClients.StreamClient.ScheduleReconnect: the random delay; the timer fires at any later time. The timer and an adopted connection may exist together, as in the source; `ReconnectionGap.TimerBesideConnection` is a run that gets there.
- ClientSafety.LiveIsSynchronized: subscriptions the client no longer tracks; those are closed or failed.
- JournalSafety.RunKeeps: stored evidence, operator operations, listing pages and usage figures, which are tables and queries of their own.
- JournalCircuit.RunCounts: a transition never sets an incident's boundary ID. The source's patch type allows it, but no caller does.
- IncidentStores.SqliteIncidentStore.Observe: the note about a changed policy in the event's text.
- IncidentStores.SqliteIncidentStore.Update: the quarantine fields a transition may set, which nothing here reads.
- IncidentStores.SqliteIncidentStore.Rebaseline: opening and closing the journal file, and the checks on the reason's length.
- HeaderCodec.EncodeHeaders: UTF-8; names are byte strings.
- Evidence.FeedInjective: SHA-256; the claim is about the bytes it is fed.
- Quarantine.VerifiesItsOwn: hash collisions; the expected hash stands for the bytes it was taken over. Kafka itself is a list of headers regrouped by name.
- CanonicalJson.SameTextIffSame: the escapes inside a string literal and the digits of a number, which are tokens of their own.
- SchemaValidation.IssueList.ValidateSchemaDefinition: the wording of issues and the escaping of the paths they name.
- ScopeCss.ScopeStylesheet: the patterns that refuse a selector which could match outside the scope; any such choice is a parameter. The other patterns are modelled exactly.
- Revocations.RevocationLog.Add: the clock, which may read anything.
- Sockets, Kafka clients, HTTP, the file system, SQLite itself, the journal's lock file, tokens, and every timer's length.
- The gateway's runtime and failure service, the workbench, React hooks, command-line tools and documentation builders.
