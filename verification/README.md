# Verified model of the Roblox Bridge gateway

The repository connects MCP clients to Roblox Studio: a gateway accepts tool
calls under OAuth grants, relays them over WebSockets to a Bridge on the user's
machine, and the Bridge hands them to a local MCP child process. Around that
core sit device enrollment, trials and licences, rate limiters, an audit queue
and an ordered shutdown.

This project models that behaviour in Dafny 4.11 and proves what it promises
over whole runs. `dafny verify dfyconfig.toml` checks everything.

## How the model is laid out

- **The relayed call.** `Wire`, `BridgeRelay`, `McpChild`, `BridgeCycle` and
  `RelayProtocol` are the protocol step by step: registering, queueing, the
  wire, id rewriting, a child that answers in any order, routing back,
  cancels, deadlines, drops and reconnects. `RelayTheorems` states safety over
  runs of any length with any number of calls, devices and connections,
  `RelayDeadlines` that no call runs late, `RelayCorrelations` and `RelayGateway`
  exactly which calls are waited for, routed and completed; `RelayRoundTrip` shows that a call
  on an idle connection does come back. `McpProcess` is the child process with
  its lifecycle.
- **The correlation registry.** `PendingRegistry` is the registry in memory,
  with the inner maps of its indexes as shared objects. `PendingInterleaving`
  is the same registry with a step per critical section and per channel send.
- **The OAuth store.** `OAuthTables` holds the tables and their locked
  transactions as functions, `OAuthStore.dfy` (module `OAuthStoreMethods`) the
  methods, `TokenFamilies`, `TokenRuns` and `TokenTheorems` the proofs over runs.
  `TokenEffects` says exactly which tokens each transaction stops, `CodeExchange`
  who can exchange a code and what comes of it. `Scopes`, `Consent` and
  `ConsentExact` cover remembered consents.
- **Limiters.** `FixedWindow`, `FixedWindowRuns`, `FixedWindowExact`,
  `TokenBucket`, `TokenBucketRuns`, `TokenBucketExact`, `TokenBucketLevel`,
  `TokenBucketSlots`, `TokenBucketTracking`, `Slots` and `GatewayAdmission`.
- **Enrollment and entitlement.** `Entitlements`, `EntitlementRuns`,
  `EntitlementEffects`, `Enrollment`, `EnrollmentTimes`, `EnrollmentBinding`,
  `EnrollmentRoundTrip` and `LicenceSlots`.
- **Smaller machines.** `StatusDriver`, `Backoff` with `Doubles`, `AuditQueue`,
  `WorkGate` and `HubConnection`.

An object the code updates in place is a class, proved in one of two ways. The
methods of the limiters, the stores, the relay state, the pending registry and
the pairings are proved against functions on values, and the runs are made of
those functions. `ManagedProcess`, the audit `Queue`, the shutdown's `Server`
and the hub's `Registry` carry their history of steps: every method says which
steps it adds, and `Valid()` says that the fields are what that history leads
to, so that the theorems over runs hold of the object. State that only exists to
say what happened (how often a call reached a child, which user approved a code)
is called history where it is declared; beyond the freshness assumed below no
modelled decision reads it.

Assumptions that the theorems carry: gateway request ids, pairing codes and
grant ids are random in the code and never repeat in a run of the model; a
digest stands for the plaintext it was taken from; every locked SQL transaction
is one atomic step; Bridges are honest and a child answers a frame it was given
at most once.

## Where the code falls short of what one might expect

Each of these is proved, with the exact condition where there is one.

- `RevokeConnector` returns success without touching any token when the grant
  is revoked already. A token issued in between survives, and a re-approval
  revives it (`ConnectorRevocationExact`, `LateTokenOutlivesTheRevocation`).
- Revoking one refresh family leaves the other families of the same grant
  exactly as able to rotate as before, although the grant is revoked with it
  (`SiblingFamilySurvives`; `RevokedGrantStillRotates` is a run).
- `mcpSameScopeSet` compares sets exactly if its second list has no repeats,
  which only the insert checks (`SameScopeSetExact`,
  `DuplicatesStoppedAtInsert`).
- The sweep horizon is cut to whole nanoseconds. For a class whose bucket it
  does not quite refill, both the sweep's invisibility and the rate envelope
  fail; the shipped classes are all on the safe side (`SweepExact`,
  `EnvelopeExact`, `ShippedClassesAreSafe`).
- The dashboard's `RevokeDevice` returns early for a device that is revoked
  already. If the entitlement store revoked it, its credential stays live, and
  `RestoreDevice`, which is to keep old credentials revoked, then brings the
  device back with that credential (`DashboardRevocationExact`,
  `RestoreAfterRevokeExact`, `BypassedDeviceKeepsItsCredential`).
- `CancelSession` can return while a timer that took an entry first has yet to
  send its result (`CancelMayReturnBeforeTheResult`).
- `routeChildFrame` does not look at `method`: a request of the child's own
  whose id equals a live local id uses up that call's correlation
  (`ChildMethodStealsCorrelation`).
- `connectedCycle` is always called with attempt 0, so the delay grows over
  consecutive failed dials only (`DelayCountsFailedDials`).
- The two maps of a limiter together can hold more entries than `MaxKeys`; the
  distinct keys cannot (`EntriesMayExceedTheCap`, `SlotsConserved`).

## Model

| member | source | states |
|---|---|---|
| `RelayTheorems.NoCrossTalk` | internal/mcpgateway/relay.go:159-247 | A call that succeeds returns the answer the child gave to that very call, on the connection it was sent on, with its own JSON-RPC id, however many calls, orders and reconnects there are |
| `RelayTheorems.AnswersAreAccepted` | internal/mcpgateway/relay.go:249-275 | A delivered payload passes the gateway's response check exactly if it carries a result or an error; the id check never fails for honest Bridges |
| `RelayTheorems.AtMostOnceExecution` | internal/bridgeapp/remote.go:520-643 | Over all connections and children of a run a gateway id reaches one child, once |
| `RelayTheorems.AtMostOneResponse` | internal/bridgeapp/remote.go:659-690 | At most one response envelope is ever sent for a gateway id |
| `RelayTheorems.SilentForEver` | internal/bridgeapp/remote.go:645-657 | After the Bridge processed a call's cancel, or its cycle ended, that call is executed and answered no more often there, whatever follows |
| `RelayTheorems.BringUpDrained` | internal/bridgeapp/remote.go:415-456 | No answer to a bring-up request is owed or queued once the Studio is probed, so relay ids may restart at 1 |
| `RelayDeadlines.NeverExecutedLate` | internal/bridgeapp/remote.go:605-614 | In any run, whatever the queues and clocks do, a call that reached a child reached it no later than its deadline |
| `RelayDeadlines.DispatchExact` | internal/bridgeapp/remote.go:590-643 | A late request is dropped and leaves child, counts, local ids and correlations as they were; one in time is given to the child under the next local id, exactly if the child takes it |
| `RelayCorrelations.AwaitsExact` | internal/bridgeapp/remote.go:578-690 | In any run the Bridge waits for a call from a confirmed write in time until its cancel, a frame of its id or the end of the cycle, and for no other reason longer or shorter |
| `RelayCorrelations.CancelSilences` | internal/bridgeapp/remote.go:648-657 | Taking a call's cancel from the wire ends the wait for it and silences the call there for good |
| `RelayCorrelations.RouteExact` | internal/bridgeapp/remote.go:659-690 | A child frame goes up exactly if its id is waited for and the session takes it, as that call's response under the id the gateway minted; any other is dropped |
| `RelayCorrelations.DownstreamExact` | internal/bridgehub/connection.go:145-238 | Envelopes on the way down stay in order, and only a dispatch or the loss of the connection takes any |
| `RelayCorrelations.AnswersGetThrough` | internal/mcpprocess/process.go:365-457 | While a cycle lasts, an answer to any frame the child was given and has not answered is let through, behind those before it, whatever became of the call |
| `RelayGateway.CompletionExact` | internal/mcpgateway/pending.go:64-210 | In any run a call is open from its registration to the first failure, refused send or response for it, and what that brings is what it keeps |
| `RelayGateway.StageExact` | internal/mcpgateway/relay.go:159-275 | How far a call has come after any step, and exactly what it returns: what was delivered to it if that passes the response check, else why not |
| `RelayGateway.RegisteredStage` | internal/mcpgateway/relay.go:159-200 | A registration mints the next request id, and makes a call exactly for a new id while there is room |
| `RelayGateway.RequestIdsDistinct` | internal/mcpgateway/relay.go:159-200 | No two calls of a run are relayed under the same request id |
| `RelayGateway.PushCancelExact` | internal/bridgehub/connection.go:145-167 | The cancel of a returned call is queued on its device's current connection exactly if that is open and has room; a full one closes; no other notices |
| `RelayGateway.ConnectExact` | internal/bridgehub/registry.go:25-38 | A new connection is the device's only one, the one it replaces is closed, and no other notices |
| `RelayGateway.UnregisterExact` | internal/bridgehub/registry.go:71-106 | Taking a device out closes its connection and no other |
| `RelayProtocol.RunAppend` | internal/mcpgateway/relay.go:159-247 | A run continued is the run of the concatenated steps |
| `RelayRoundTrip.CallRoundTrip` | internal/mcpgateway/relay.go:185-242 | In any state the invariant allows, a call on an idle connection and within its deadline ends in exactly the outcome its child gave, under the id the gateway minted |
| `RelayRoundTrip.BringUpReachesIdle` | internal/bridgeapp/remote.go:415-456 | A child that answers the three bring-up requests leaves an idle relay loop with fresh local ids |
| `RelayRoundTrip.ChildMethodStealsCorrelation` | internal/bridgeapp/remote.go:659-690 | The same call, with one request of the child's own under the call's local id before its answer, ends as an invalid response, and the real answer is discarded |
| `RelayProtocol.NextInv` | internal/mcpgateway/relay.go:159-247 | Every protocol step keeps registry, connections, deliveries and returned results in agreement |
| `RelayProtocol.SendingInv` | internal/bridgehub/registry.go:55-69 | Sending to a device, queued or not, keeps that agreement; an unsent call was on no connection before |
| `RelayProtocol.ConnectingInv` | internal/bridgehub/registry.go:25-38 | A reconnect closes the replaced queue and starts an empty cycle without disturbing any other |
| `BridgeCycle.CycleNextInv` | internal/bridgeapp/remote.go:526-558 | Every step of a connection cycle keeps: requests on the way down are new, live correlations point at frames the child was given, responses on the way up carry their own call's answer |
| `BridgeCycle.EnqueueInv` | internal/bridgehub/connection.go:145-167 | A bounded enqueue keeps the cycle's invariant and only adds to its history |
| `BridgeCycle.RequestDispatchedInv` | internal/bridgeapp/remote.go:605-643 | Forwarding, expired, written, written without confirmation or not written, keeps the cycle's invariant |
| `BridgeCycle.ReceivedInv` | internal/bridgeapp/remote.go:415-456 | Each bring-up receive keeps it: a skipped frame, a failed one, the next request, the end |
| `BridgeCycle.RoutedIsOwnAnswer` | internal/bridgeapp/remote.go:659-690 | A child frame that meets a live correlation is the answer to the request that correlation was made for |
| `BridgeCycle.CycleNextExtends` | internal/bridgeapp/remote.go:526-558 | No step takes back what was accepted, answered, executed or sent |
| `BridgeRelay.ForwardedPaired` | internal/bridgeapp/remote.go:611-643 | Forwarding keeps the two correlation tables each other's inverse over local ids already used |
| `BridgeRelay.RemovalPaired` | internal/bridgeapp/remote.go:648-690 | Cancelling and routing keep them inverse, and the gateway id removed is unknown to both |
| `BridgeRelay.RelayState.ForwardRequest` | internal/bridgeapp/remote.go:611-643 | The frame handed over, none for a request past its deadline, and the whole new relay state, for every verdict of the child |
| `BridgeRelay.RelayState.ForwardCancel` | internal/bridgeapp/remote.go:645-657 | Drops both table entries and names the local id to cancel, or does nothing |
| `BridgeRelay.RelayState.RouteChildFrame` | internal/bridgeapp/remote.go:659-690 | Returns the response with the original id restored and removes the correlation, or does nothing |
| `McpChild.AddRemove` | internal/mcpprocess/process.go:437-457 | Only the named id's count moves, by one, no zero is stored, and a removal undoes an addition |
| `McpProcess.ManagedProcess.WriteRequest` | internal/mcpprocess/process.go:278-308 | An id stays pending exactly if its write succeeded, and a failed write ends the write loop |
| `McpProcess.ManagedProcess.ValidateIncoming` | internal/mcpprocess/process.go:365-389 | Lets a child's own frames through, and an answer once per pending count of its id |
| `McpProcess.PendingConserved` | internal/mcpprocess/process.go:278-457 | Over any history an id's count is its requests written less its answers let through, so never more answers than requests |
| `McpProcess.PassesExact` | internal/mcpprocess/process.go:365-389 | After any history a frame passes exactly if it is the child's own or names an id written more often than it was answered |
| `McpProcess.ReadinessExact` | internal/mcpprocess/process.go:266-276 | The child is ready exactly if some start took effect and no stop and no exit came after it |
| `McpProcess.ExitIsFinal` | internal/mcpprocess/process.go:391-403 | Once the exit of a started child is published it is never ready again, in any sequence of operations |
| `McpProcess.ManagedProcess.CommitReadiness` | internal/mcpprocess/process.go:266-276 | Commits exactly in the histories in which a start took effect and nothing ended the child since |
| `PendingRegistry.Index.Add` | internal/mcpgateway/pending.go:93-99 | The nested maps hold one pair more, creating the inner map if it is the key's first |
| `PendingRegistry.Index.Remove` | internal/mcpgateway/pending.go:212-230 | The nested maps hold that pair no more and no empty inner map stays |
| `PendingRegistry.Index.Detach` | internal/mcpgateway/pending.go:160-164 | The detached inner map leaves the index's reach with its members unchanged |
| `PendingRegistry.Pending.FreshIdLocked` | internal/mcpgateway/pending.go:232-248 | Returns the first of eight candidates that is not live, and fails exactly if all are |
| `PendingRegistry.Pending.Register` | internal/mcpgateway/pending.go:64-108 | Adds one live entry with an empty channel under a fresh id, or changes nothing; each error exactly in its case; the bound is kept |
| `PendingRegistry.Pending.Associate` | internal/mcpgateway/pending.go:110-144 | Moves a live entry to its device's set, out of the old one; each error exactly in its case |
| `PendingRegistry.Pending.RemoveLocked` | internal/mcpgateway/pending.go:212-230 | Removes the entry from all three indexes and touches nothing else |
| `PendingRegistry.Pending.Deliver` | internal/mcpgateway/pending.go:190-210 | Completes a live entry into its empty channel, reports false for any other |
| `PendingRegistry.Pending.Resolve` | internal/mcpgateway/pending.go:146-155 | As deliver, with the unknown-correlation error exactly for ids not live |
| `PendingRegistry.Pending.DeliverAll` | internal/mcpgateway/pending.go:166-169 | Walking a detached set completes exactly its live members, and nothing changes the set meanwhile |
| `PendingRegistry.Pending.CancelSession` | internal/mcpgateway/pending.go:157-170 | Completes exactly the session's requests with a cancellation and leaves the rest |
| `PendingRegistry.Pending.FailDevice` | internal/mcpgateway/pending.go:172-188 | Completes exactly the device's requests with the cause, or with the default one |
| `PendingRegistry.StepsConsistent` | internal/mcpgateway/pending.go:71-144 | Registering, associating and removing keep the indexes within the entries |
| `PendingRegistry.StepsAgree` | internal/mcpgateway/pending.go:71-230 | Registering, associating and removing keep indexes and entries in exact agreement, so a cancellation reaches all of its session |
| `PendingInterleaving.ExactlyOnce` | internal/mcpgateway/pending.go:71-230 | Under every interleaving a registration is live with nothing sent, held by the one caller that removed it, or sent exactly one result |
| `PendingInterleaving.SendNeverBlocks` | internal/mcpgateway/pending.go:190-210 | Whoever is about to send finds the channel empty |
| `PendingInterleaving.ReturnedMeansComplete` | internal/mcpgateway/pending.go:157-188 | When CancelSession or FailDevice returns, nothing it detached is live: it has its result, or another caller is about to send it |
| `PendingInterleaving.CancelMayReturnBeforeTheResult` | internal/mcpgateway/pending.go:157-170 | A run in which a cancellation returns before the waiter's result is sent |
| `PendingInterleaving.QuiescentAgree` | internal/mcpgateway/pending.go:32-39 | With no walk under way the three indexes agree exactly |
| `PendingInterleaving.ResultIsFinal` | internal/mcpgateway/pending.go:146-155 | A result once sent stays the only one whatever follows |
| `PendingInterleaving.CancellationReachesAll` | internal/mcpgateway/pending.go:157-170 | A cancellation puts every live request of its session, and no other, on the list of a caller that will complete it, under every interleaving |
| `PendingInterleaving.FailureReachesAll` | internal/mcpgateway/pending.go:172-188 | The same for a device that fails and the requests associated with it |
| `PendingInterleaving.TakeExact` | internal/mcpgateway/pending.go:190-230 | A look removes and holds the request exactly if it is live, and touches no other |
| `PendingInterleaving.PutExact` | internal/mcpgateway/pending.go:190-210 | What a caller holds is sent as that caller's result, and nothing else is |
| `HubConnection.Connection.Enqueue` | internal/bridgehub/connection.go:145-167 | Accepts in order while open and not full; a full queue closes the connection; each error exactly in its case |
| `HubConnection.Connection.WriteNext` | internal/bridgehub/connection.go:221-238 | The writer takes the oldest envelope; a failed write loses that one only and ends the connection |
| `HubConnection.Connection.CloseLocked` | internal/bridgehub/connection.go:186-192 | Closes once however often it is called |
| `HubConnection.Registry.Register` | internal/bridgehub/registry.go:25-38 | The registration step: replaces the device's connection and returns the replaced one |
| `HubConnection.Registry.Send` | internal/bridgehub/registry.go:55-69 | Reaches the connection the device registered last and no other, with each error exactly in its case |
| `HubConnection.Registry.Disconnect` | internal/bridgehub/registry.go:71-82 | The disconnection step: removes and closes the device's connection |
| `HubConnection.Registry.RemoveIfCurrent` | internal/bridgehub/registry.go:97-106 | The clean-up step: removes the entry exactly if it is still this connection's |
| `HubConnection.LatestStaysRegistered` | internal/bridgehub/registry.go:25-106 | Over runs only a device's latest connection is reachable, until it is removed itself |
| `HubConnection.ReachableExact` | internal/bridgehub/registry.go:25-106 | After any history a device reaches exactly the connection it registered last, until that is disconnected or cleans up after itself |
| `TokenTheorems.FamiliesAreLinear` | internal/mysqlstore/oauth_store.go:427-544 | Every refresh family is one parent chain from its root, with one user and grant, and exactly its tip unused |
| `TokenTheorems.OnlyTheTipRotates` | internal/mysqlstore/oauth_store.go:461-544 | Rotation succeeds exactly for an unrevoked, unexpired tip with an unused new pair, and moves the tip; any other member fails and revokes the whole family |
| `TokenTheorems.ReuseKillsTheFamily` | internal/mysqlstore/oauth_store.go:488-499 | After a used or revoked member was presented the family gains no member and none rotates again, re-approval included |
| `TokenTheorems.SiblingFamilySurvives` | internal/mysqlstore/oauth_store.go:573-591 | After a family was revoked, by reuse or revocation, a refresh token rotates if and only if it is of another family and rotated before |
| `TokenTheorems.RevokedGrantStillRotates` | internal/mysqlstore/oauth_store.go:461-591 | A run, from empty tables, with two families of one grant: the first is revoked and the grant with it, and the second still rotates |
| `TokenTheorems.ExchangeStartsAFamily` | internal/mcpoauth/provider.go:447-512 | An unhindered exchange of an unused code under a live grant adds one family root and one access token, uses up the code and changes nothing else |
| `TokenTheorems.MemberChoiceIrrelevant` | internal/mcpoauth/provider.go:712-754 | Revocation by request id does the same whichever family member the database returns |
| `TokenTheorems.AcceptedExactly` | internal/mysqlstore/oauth_store.go:635-684 | An access token is accepted exactly while it is unrevoked and unexpired and its grant live |
| `TokenTheorems.DeadStaysDead` | internal/mysqlstore/oauth_store.go:635-684 | A revoked access token is never accepted again in any later run |
| `TokenTheorems.GrantRevocationIsFinal` | internal/mysqlstore/oauth_store.go:382-425 | No access token that existed when its grant was revoked is accepted again, even after re-approval |
| `TokenTheorems.FamilyRevocationIsFinal` | internal/mysqlstore/oauth_store.go:573-591 | The same for refresh-token reuse and refresh-token revocation |
| `TokenTheorems.ConnectorRevocationExact` | internal/mysqlstore/dashboard_store.go:588-653 | A token can be accepted again after RevokeConnector exactly if the grant was revoked already and the token neither revoked nor expired |
| `TokenTheorems.LateTokenOutlivesTheRevocation` | internal/mcpoauth/provider.go:447-512 | A run, from empty tables, in which that happens |
| `TokenTheorems.ReapprovalRevives` | internal/mcpoauth/provider.go:1025-1051 | Saving the grant again is enough to make an unrevoked, unexpired token acceptable |
| `TokenTheorems.RetargetingMoves` | internal/mysqlstore/dashboard_store.go:515-586 | Retargeting makes the new owner triple find the grant and the old one find nothing, and moves no other grant |
| `TokenTheorems.CodeIsSingleUse` | internal/mysqlstore/oauth_store.go:223-294 | Once consumed, a code is refused as used for ever |
| `TokenTheorems.OneExchangePerCode` | internal/mcpoauth/provider.go:447-512 | No two exchanges are for the same code |
| `TokenEffects.AccessEffectExact` | internal/mysqlstore/oauth_store.go:382-724 | In any run a transaction other than an approval leaves an access token working exactly if it worked and the transaction is not one of those that stop it, each with its own condition |
| `TokenEffects.ApprovalEffectExact` | internal/mysqlstore/oauth_store.go:296-348 | An approval makes work again exactly the tokens that only the revocation of the saved grant kept out |
| `TokenEffects.AccessAnswer` | internal/mysqlstore/oauth_store.go:635-684 | Which answer a presented access token gets: revoked before expired before grant revoked |
| `TokenEffects.RefreshEffectExact` | internal/mysqlstore/oauth_store.go:382-724 | In any run any transaction leaves a refresh token rotatable exactly if it was and the transaction is not one that stops it; an approval brings none back |
| `TokenEffects.RotatesExactly` | internal/mysqlstore/oauth_store.go:465-544 | Rotation succeeds exactly for an unused, unrevoked, unexpired token and an unused new pair |
| `TokenEffects.RotationExact` | internal/mysqlstore/oauth_store.go:465-544 | Which answer a rotation gives, the rows it writes when it succeeds, and that a refusal for any reason but reuse writes nothing |
| `TokenEffects.UnknownTokenRefused` | internal/mysqlstore/oauth_store.go:465-500 | A digest no refresh token has is refused without a trace |
| `TokenEffects.StoppedForEver` | internal/mysqlstore/oauth_store.go:382-724 | A refresh token that any transaction stopped never rotates again in any later run, re-approvals included |
| `TokenEffects.GrantRevocationStopsRotation` | internal/mysqlstore/oauth_store.go:415-418 | After a grant was revoked none of the refresh tokens it had rotates in any later run |
| `TokenEffects.ConnectorRevocationStopsRotation` | internal/mysqlstore/dashboard_store.go:588-653 | After a successful RevokeConnector a refresh token of the grant rotates if and only if the grant was revoked already and it did before; for a live grant none ever does |
| `CodeExchange.SavingExact` | internal/mysqlstore/oauth_store.go:172-221 | A code is stored exactly if it is complete and its id and digest are new |
| `CodeExchange.BeginExact` | internal/mysqlstore/oauth_store.go:227-294 | In any run an exchange begins exactly if the digest finds an unconsumed, unexpired code issued to this client, redirect URI and resource; otherwise nothing changes |
| `CodeExchange.RefusalExact` | internal/mysqlstore/oauth_store.go:250-270 | Why it does not begin: used before expired before wrong binding |
| `CodeExchange.WrongBindingSpoilsNothing` | internal/mysqlstore/oauth_store.go:265-267 | After a try with a wrong binding the right one does exactly what it would have done |
| `CodeExchange.CheckExact` | internal/mcpoauth/provider.go:447-512 | The grant check passes exactly if the code's user holds a live grant for its client and device, and names that grant |
| `CodeExchange.IssueExact` | internal/mysqlstore/oauth_store.go:427-459 | Past the check tokens are issued exactly for a complete, unused pair, for the code's user and the checked grant, as a new root |
| `CodeExchange.FamiliesComeFromCodes` | internal/mcpoauth/provider.go:447-512 | In any run every refresh family was issued by an exchange that is the only one of its code |
| `CodeExchange.RetargetExact` | internal/mysqlstore/dashboard_store.go:515-586 | Retargeting succeeds exactly for the owner of a live grant and a target of their own that no other grant holds, and changes that grant only |
| `CodeExchange.ApprovalExact` | internal/mysqlstore/oauth_store.go:296-348 | Saving a grant changes exactly one row, which ends up live: that of the id, else that of the owner, else a new one |
| `TokenFamilies.NewRoot` | internal/mysqlstore/oauth_store.go:434-436 | Issuing a pair starts a family of one and leaves all others |
| `TokenFamilies.Extended` | internal/mysqlstore/oauth_store.go:503-537 | Rotation extends its own chain by the new tip and leaves all others |
| `TokenFamilies.RevocationKeepsFamilies` | internal/mysqlstore/oauth_store.go:573-591 | Revocations that treat a family alike keep every chain |
| `TokenRuns.NextStep` | internal/mysqlstore/oauth_store.go:223-724 | Every transaction keeps keys, foreign keys, single use and families, and takes no row or mark back |
| `TokenRuns.UpsertStep` | internal/mysqlstore/oauth_store.go:331-348 | The grant upsert keeps one grant per user, client and device, and returns the row of the triple asked for |
| `OAuthStoreMethods.OAuthStore.ConsumeAuthorizationCode` | internal/mysqlstore/oauth_store.go:223-294 | The errors in their order, and a code marked only on success |
| `OAuthStoreMethods.OAuthStore.IssueTokens` | internal/mysqlstore/oauth_store.go:427-459 | Both rows as a new family root, or neither |
| `OAuthStoreMethods.OAuthStore.InsertBoth` | internal/mysqlstore/oauth_store.go:593-611 | Both inserts commit or the tables stay as they were |
| `OAuthStoreMethods.OAuthStore.RevokeFamilyTx` | internal/mysqlstore/oauth_store.go:570-591 | Family, grant and the grant's access tokens, and nothing else |
| `OAuthStoreMethods.OAuthStore.RotateRefreshToken` | internal/mysqlstore/oauth_store.go:461-544 | The whole outcome: rotation, family revocation with its error, or no change |
| `OAuthStoreMethods.OAuthStore.RevokeRefreshToken` | internal/mysqlstore/oauth_store.go:698-724 | Revokes the family of a known token, is silent about an unknown one |
| `OAuthStoreMethods.OAuthStore.RevokeGrant` | internal/mysqlstore/oauth_store.go:382-425 | Grant, access and refresh tokens together, or an error and no change |
| `OAuthStoreMethods.OAuthStore.RevokeConnector` | internal/mysqlstore/dashboard_store.go:588-653 | The same for an owned live grant; success without effect for a revoked one |
| `Scopes.ValidateScopes` | internal/mcpoauth/model.go:238-267 | True exactly for a non-empty list of distinct valid tokens |
| `Scopes.ValidTokenExact` | internal/mcpoauth/model.go:256-267 | A valid token is a scope-token of section 3.3 of RFC 6749 of at most 255 characters, and the other way round |
| `Scopes.CompareScopeSets` | internal/mcpoauth/consent.go:426-443 | Computes equal length and containment |
| `Scopes.SameScopeSetIsEquality` | internal/mcpoauth/consent.go:426-443 | With distinct tokens on the right it is set equality, by the pigeonhole principle |
| `Scopes.SameScopeSetExact` | internal/mcpoauth/consent.go:426-443 | It is set equality for every left list if and only if the right one repeats nothing |
| `Consent.UnpromptedCodeProvenance` | internal/mcpoauth/consent.go:289-443 | A code issued without a prompt has the scope set and resource of the last explicit approval of its session and client, and session, live grant, target and entitlement back it at commit, whatever happened between the reads |
| `Consent.ReissueExact` | internal/mcpoauth/consent.go:358-424 | With nothing changed since the reads, the transaction succeeds exactly if session, device, Studio, entitlement and the insert are good |
| `Consent.ApprovalProvenance` | internal/mcpoauth/consent.go:187-275 | An explicit approval under a new grant id backs its own code and is what will be remembered |
| `Consent.CodesComeFromApprovalsAndReissues` | internal/mcpoauth/consent.go:613-653 | Nothing else creates a code |
| `Consent.DuplicatesStoppedAtInsert` | internal/mcpoauth/consent.go:616-634 | A request that repeats a scope may pass the comparison and is refused at the insert |
| `Consent.NextInv` | internal/mcpoauth/consent.go:586-611 | A remembered row is always its pair's last explicit approval, with validated scopes |
| `ConsentExact.ApprovalExact` | internal/mcpoauth/consent.go:197-275 | In any run an approval is recorded exactly in good standing, spelled out on the rows, for a code that can be stored and a grant that can be saved; then those three rows change, else nothing |
| `ConsentExact.UnpromptedExact` | internal/mcpoauth/consent.go:289-424 | Undisturbed, a request yields a code without a prompt exactly if what is remembered covers it for a target in good standing and the code can be stored |
| `ConsentExact.IssueExact` | internal/mcpoauth/consent.go:369-424 | In any run, whatever came between the reads and the transaction, a code is issued exactly if the tables still cover the request and it can be stored |
| `Consent.ConsentTables.RecordApprovalTx` | internal/mcpoauth/consent.go:187-275 | Grant, consent and code together, or a denial or failure and no change |
| `Consent.ConsentTables.IssueRememberedCodeTx` | internal/mcpoauth/consent.go:358-424 | The new code and nothing else, or a denial or failure and no change |
| `FixedWindow.NewConfig` | internal/httpserver/ratelimit.go:59-85 | Accepts exactly the settings some key cap makes valid, keeps them, and gives only a missing cap its default |
| `FixedWindow.MCPLimiter.SweepLocked` | internal/httpserver/ratelimit.go:180-188 | Removes exactly the buckets of windows before the last |
| `FixedWindow.MCPLimiter.Allow` | internal/httpserver/ratelimit.go:87-125 | The decision and the whole new limiter state |
| `FixedWindow.MCPLimiter.Acquire` | internal/httpserver/ratelimit.go:127-145 | One slot more for the key, or refusal and no change |
| `FixedWindow.MCPLimiter.Release` | internal/httpserver/ratelimit.go:147-159 | One slot less, and the key forgotten at zero |
| `FixedWindowRuns.AllowIsTheSimpleCount` | internal/httpserver/ratelimit.go:90-125 | A call is let through exactly if the clock has not gone back, the cap does not bite and fewer than Requests calls were counted at its key and index since the start, sweeps or none |
| `FixedWindowRuns.AtMostRequestsPerIndex` | internal/httpserver/ratelimit.go:119-124 | Per key and index exactly the first Requests counted calls get through |
| `FixedWindowRuns.AtMostTwiceRequestsPerSpan` | internal/httpserver/ratelimit.go:90-125 | No span as long as one window admits more than 2*Requests calls of a key |
| `FixedWindowRuns.IndexNear` | internal/httpserver/ratelimit.go:105 | Times at most a window apart lie at most one index apart, negative times included |
| `FixedWindowRuns.RegressionAdmitsNothing` | internal/httpserver/ratelimit.go:98-103 | After a call at some time, a call at an earlier time is refused without effect for the rest of the run |
| `FixedWindowRuns.ReleaseOnlyOnce` | internal/httpserver/ratelimit.go:147-159 | Releasing a slot again does nothing, however much later |
| `FixedWindowRuns.SlotsConserved` | internal/httpserver/ratelimit.go:127-160 | A key's counter is its slots granted and not released, within its bound, and distinct keys never exceed MaxKeys |
| `FixedWindowRuns.EntriesMayExceedTheCap` | internal/httpserver/ratelimit.go:111-142 | The two maps together can hold 2*MaxKeys entries |
| `FixedWindowExact.AllowExact` | internal/httpserver/ratelimit.go:90-125 | In any run, told from the calls alone: a call passes exactly if none came at a later time, its key was counted since the index before this one or there is room, and fewer than Requests passed at its key and index |
| `FixedWindowExact.CountedExact` | internal/httpserver/ratelimit.go:90-125 | A call is counted exactly if clock and room allow it, passed or not |
| `FixedWindowExact.AcquireExact` | internal/httpserver/ratelimit.go:127-145 | A slot is granted exactly if the key holds fewer than it may and is tracked or fits |
| `Slots.TakenConserved` | internal/httpserver/ratelimit.go:144 | Granting a slot raises exactly its key's counter |
| `Slots.ReleaseConserved` | internal/httpserver/ratelimit.go:147-159 | Releasing an outstanding slot lowers exactly its key's counter, any other nothing |
| `GatewayAdmission.NamespacesApart` | internal/mcpgateway/server.go:593-595 | Grant keys and user keys never meet, and each key names one id |
| `GatewayAdmission.ReserveInFlight` | internal/mcpgateway/server.go:530-575 | Both slots exactly for a tool call for which both are free, none otherwise: a refusal leaves both namespaces as they were |
| `GatewayAdmission.ReleaseBoth` | internal/mcpgateway/server.go:571-574 | Gives both slots back and touches no other key |
| `TokenBucket.NewLimiter` | internal/httpserver/ratelimit.go:263-294 | Rejects exactly the bad configurations; the horizon is the longest refill time of any class |
| `TokenBucket.RateLimiter.SweepLocked` | internal/httpserver/ratelimit.go:413-425 | Removes exactly the buckets idle for a horizon |
| `TokenBucket.RateLimiter.Allow` | internal/httpserver/ratelimit.go:296-342 | The decision, the retry hint and the whole new limiter state |
| `TokenBucket.RateLimiter.Acquire` | internal/httpserver/ratelimit.go:344-363 | One slot more, or refusal and no change |
| `TokenBucket.RetryIffDenied` | internal/httpserver/ratelimit.go:214-219 | The retry hint is positive exactly if the call is turned away |
| `TokenBucketRuns.EnvelopeHolds` | internal/httpserver/ratelimit.go:299-342 | In any run a key of a safe class spends in (s, t] at most Burst + Refill*(t-s)/Interval |
| `TokenBucketRuns.SweepInvisible` | internal/httpserver/ratelimit.go:413-425 | For a safe class no call is decided differently from a limiter that never sweeps |
| `TokenBucketRuns.DivisibleIsSafe` | internal/httpserver/ratelimit.go:278-281 | A class whose refill divides its interval times its burst is safe |
| `TokenBucketLevel.AllowExact` | internal/httpserver/ratelimit.go:299-342 | In any run of a safe class a call passes if and only if it is tracked or fits, and over every closed stretch of time ending now the key's admitted cost and this one's stay within Burst + Refill*length/Interval |
| `TokenBucketLevel.RetryHint` | internal/httpserver/ratelimit.go:330-341 | A call refused for want of tokens is told a wait that is right to the nanosecond: any longer one is enough unless the cost exceeds the burst, any shorter one is not unless a single nanosecond is |
| `TokenBucketExact.EnvelopeExact` | internal/httpserver/ratelimit.go:263-342 | The envelope holds in every run of a class if and only if the horizon refills its bucket |
| `TokenBucketExact.SweepExact` | internal/httpserver/ratelimit.go:413-425 | The sweep is invisible for a class under the same condition, if and only if |
| `TokenBucketExact.ShippedClassesAreSafe` | cmd/server/main.go:200-209 | Every shipped class meets it |
| `TokenBucketSlots.SlotsConserved` | internal/httpserver/ratelimit.go:344-378 | Slots are conserved and bounded per class, and distinct keys never exceed MaxKeys |
| `TokenBucketSlots.RefusedWithoutEffect` | internal/httpserver/ratelimit.go:303-315 | Unknown class and bad cost are refused without effect, and so is, for the rest of a run, every call earlier than one before it |
| `TokenBucketTracking.TrackedExact` | internal/httpserver/ratelimit.go:413-425 | The keys a call finds tracked are those touched less than a horizon ago, however often the limiter swept |
| `TokenBucketTracking.TouchedExact` | internal/httpserver/ratelimit.go:299-342 | A call touches its key exactly if class, cost, clock and cap let it reach the bucket, passed or not |
| `TokenBucketTracking.AcquireExact` | internal/httpserver/ratelimit.go:347-363 | A slot is granted exactly if the class has slots, the key holds fewer than it may and is tracked or fits |
| `Enrollment.Pairings.EvictExpiredLocked` | internal/device/enrollment.go:391-397 | Removes exactly the expired pairings |
| `Enrollment.Pairings.Begin` | internal/device/enrollment.go:201-227 | Evicts, then adds the pairing or refuses at the bound |
| `Enrollment.Pairings.Lookup` | internal/device/enrollment.go:229-258 | The pairing, or the right error, dropping it once expired |
| `Enrollment.Pairings.ExchangeRead` | internal/device/enrollment.go:324-341 | The approved claim, or the right error |
| `Enrollment.OneCredentialPerCode` | internal/device/enrollment.go:308-389 | Whatever races, a pairing code yields at most one credential, minted for its approver, under that user's own identity and for exactly the device and fingerprint claimed at Begin |
| `Enrollment.OneExchangeConsumes` | internal/mysqlstore/device_store.go:49-106 | Of any number of exchanges of a code at most one ever gets past the consume, at whatever times |
| `Enrollment.ConsumerSettled` | internal/mysqlstore/device_store.go:49-106 | The exchange that consumed a code stays its only consumer in every later run, finished or refused |
| `Enrollment.ClaimAndApproverSettled` | internal/device/enrollment.go:260-306 | The claim and the approver of a code never change |
| `Enrollment.OwnerMismatchNeverHappens` | internal/device/enrollment.go:343-356 | The consumed row always belongs to the approver read before the unlock |
| `Enrollment.NextInv` | internal/device/enrollment.go:203-397 | Every step, evictions and store changes elsewhere included, keeps memory and store in agreement |
| `EnrollmentTimes.ApprovedInTime` | internal/device/enrollment.go:260-306 | In any run an approval comes within a pairing's lifetime of its Begin |
| `EnrollmentTimes.FoundExact` | internal/device/enrollment.go:241-258 | While the clock goes forward a pairing is found exactly from its Begin to the end of its lifetime or of the exchange that ended it, with its claim and the status that says what became of it |
| `EnrollmentTimes.BeginExact` | internal/device/enrollment.go:203-227 | A pairing is begun exactly while fewer than the bound are pending and unexpired, and the bound is never exceeded |
| `EnrollmentTimes.ApproveExact` | internal/device/enrollment.go:260-306 | An approval takes effect exactly on a pairing that is found and not approved, and stores a code with its own lifetime |
| `EnrollmentTimes.ExchangeStartsExact` | internal/device/enrollment.go:324-341 | An exchange starts exactly on a pairing that is found and approved, with the claim of its Begin and its approver |
| `EnrollmentTimes.ConsumeExact` | internal/mysqlstore/device_store.go:49-106 | It gets past the consume exactly if nobody consumed the code, its lifetime since the approval is not over and the approver has an identity; otherwise only the exchange ends |
| `EnrollmentTimes.LookingUpForgets` | internal/device/enrollment.go:241-247 | Looking a pairing up forgets it exactly once its lifetime is over, and no other |
| `EnrollmentBinding.BindExact` | internal/device/enrollment.go:357-389 | The credential is minted exactly if the device can be bound as the tables stand; a fingerprint in the way, and nothing else, asks for a licence |
| `EnrollmentBinding.EndExact` | internal/device/enrollment.go:357-389 | The end of an exchange forgets the pairing, marks it, or leaves it, by how it went, and touches no other |
| `EnrollmentRoundTrip.EnrollmentCompletes` | internal/device/enrollment.go:201-389 | From any reachable state a new code that is approved and exchanged in time by a user with an identity yields the credential of exactly that device, user and identity, if it can be bound; the pairing is over and the store has taken that one step |
| `Entitlements.EntitlementStore.BindFirst` | internal/mysqlstore/entitlement_store.go:85-336 | Trial, device and credential together, a re-claim, or the right error and no change |
| `Entitlements.EntitlementStore.Extend` | internal/mysqlstore/entitlement_store.go:520-579 | Lengthens the trial exactly if the new end is later |
| `Entitlements.EntitlementStore.Revoke` | internal/mysqlstore/dashboard_store.go:325-386 | Device and credentials together; success without effect for a revoked device |
| `Entitlements.EntitlementStore.Rotate` | internal/mysqlstore/dashboard_store.go:434-509 | Replaces the credential of an owned active device, or an error and no change |
| `EntitlementRuns.TrialsAreUnique` | internal/mysqlstore/entitlement_store.go:78-336 | One trial per user and per provider identity, at least the full window long, and every device's owner holds one |
| `EntitlementRuns.TrialNeverShrinks` | internal/mysqlstore/entitlement_store.go:520-579 | A trial's owner and start never change and its end never comes sooner |
| `EntitlementRuns.FingerprintsAreUnique` | internal/mysqlstore/entitlement_store.go:132-146 | A fingerprint belongs to one device |
| `EntitlementRuns.AtMostOneLiveCredential` | internal/mysqlstore/entitlement_store.go:195-210 | A device has at most one live credential |
| `EntitlementRuns.FirstDeviceIsNew` | internal/mysqlstore/entitlement_store.go:230-307 | The fresh-trial path never meets an existing device of the user's |
| `EntitlementRuns.DashboardRevocationExact` | internal/mysqlstore/dashboard_store.go:325-386 | The dashboard's revocation leaves a live credential if and only if the device was revoked already and had one |
| `EntitlementRuns.OnlyTheStoreLeavesOneLive` | internal/mysqlstore/entitlement_store.go:735-784 | A revoked device with a live credential was revoked by the entitlement store at some step of the run |
| `EntitlementRuns.RestoreAfterRevokeExact` | internal/mysqlstore/dashboard_store.go:388-432 | Revoked and restored, a device is active again with a live credential if and only if it was revoked already and had one |
| `EntitlementRuns.BypassedDeviceKeepsItsCredential` | internal/mysqlstore/entitlement_store.go:735-784 | A run in which that happens: bound, revoked by the store, revoked and restored in the dashboard, active with the old credential live |
| `EntitlementRuns.NothingElseIssues` | internal/mysqlstore/dashboard_store.go:388-432 | A device gains a live credential by a binding or a rotation only, never by a restore |
| `EntitlementRuns.NextInv` | internal/mysqlstore/entitlement_store.go:85-336 | Every transaction keeps the trial, device, fingerprint and credential invariant |
| `EntitlementEffects.TrialsExact` | internal/mysqlstore/entitlement_store.go:230-307 | In any run a trial begins exactly with the first binding of a user, lasts the window from then, and only a later end changes it |
| `EntitlementEffects.DevicesExact` | internal/mysqlstore/entitlement_store.go:85-336 | Which transaction adds, marks or restores which device, and that a fingerprint changes only with a binding |
| `EntitlementEffects.CredentialsExact` | internal/mysqlstore/entitlement_store.go:462-518 | A credential is as it was, stopped by this transaction or issued by it: bindings and rotations stop those of their device, a revocation those of an active one, a recovery those of its user, and nothing else any |
| `EntitlementEffects.SucceedsExact` | internal/mysqlstore/entitlement_store.go:85-784 | In any run, exactly when each transaction on trials, devices and credentials reports success |
| `EntitlementEffects.LicenceNeededExact` | internal/mysqlstore/entitlement_store.go:132-146 | A binding is refused for want of a licence exactly if the fingerprint is on a device of somebody else's, or on another one of a user who could bind this one |
| `LicenceSlots.OrdinalsAreDense` | internal/mysqlstore/entitlement_store.go:650-733 | A licence's ordinals are exactly 1..n without repeats, n its bindings, at most its slots |
| `LicenceSlots.FreeSlotIsUsable` | internal/mysqlstore/entitlement_store.go:680-706 | Binding an owned device succeeds exactly while a slot is free and the licence does not hold the device |
| `LicenceSlots.TransferAndRevokeKeepSlots` | internal/mysqlstore/entitlement_store.go:390-457 | Transfers and revocations neither free nor renumber a slot |
| `LicenceSlots.SlotsAreForEver` | internal/mysqlstore/entitlement_store.go:735-765 | A binding keeps its licence and ordinal for ever |
| `LicenceSlots.SeatsExact` | internal/mysqlstore/entitlement_store.go:390-765 | In any run, exactly who sits on which slot after each transaction: a binding seats the device on the next ordinal, a transfer reseats it on the same one, a revocation ends its seats, and nothing else changes |
| `LicenceSlots.LicencesExact` | internal/mysqlstore/entitlement_store.go:583-619 | In any run a licence is made exactly for a user and a positive number of slots under a new id, and never changes |
| `LicenceSlots.DevicesExact` | internal/mysqlstore/entitlement_store.go:625-648 | A device is known from its first registration on, for that user |
| `LicenceSlots.UsedSlotStaysUsed` | internal/mysqlstore/entitlement_store.go:654-784 | The last free slot of a licence, once bound, is used for good: revoking its device lets no other one in |
| `LicenceSlots.BindDense` | internal/mysqlstore/entitlement_store.go:690-706 | The ordinal handed out is the number of bindings plus one |
| `LicenceSlots.LicenceStore.BindSlot` | internal/mysqlstore/entitlement_store.go:650-733 | The new binding, or the right error and no change |
| `LicenceSlots.LicenceStore.Revoke` | internal/mysqlstore/entitlement_store.go:735-765 | Marks the device's active bindings, and nothing else |
| `StatusDriver.Machine.Transition` | internal/statusui/state.go:53-70 | Accepts exactly the legal transitions and moves only then |
| `StatusDriver.Machine.MarkReady` | internal/statusui/state.go:72-86 | Enters Connected exactly from Studio detection with both sides ready |
| `StatusDriver.SourcesExact` | internal/statusui/state.go:98-127 | The legal transitions read backwards: exactly which states lead into each |
| `StatusDriver.NothingFollowsFatal` | internal/statusui/state.go:98-127 | In a legal trace nothing follows Fatal |
| `StatusDriver.ConnectedNeedsAFullCycle` | internal/statusui/state.go:98-127 | In a legal trace Connected comes right after connecting, starting the child and detecting Studios |
| `StatusDriver.Driver.Emit` | internal/bridgeapp/remote.go:169-183 | The driver only asks for changes the machine accepts |
| `StatusDriver.Driver.ConnectedCycle` | internal/bridgeapp/remote.go:326-412 | However a cycle goes, its trace is legal, Connected is reported only with the child brought up, Studios found and the child still running, and its child is gone when it returns |
| `StatusDriver.Driver.RunRemote` | internal/bridgeapp/remote.go:185-239 | The same for every run from a fresh machine, cut off after any number of turns; it returns early only if cancelled, unenrolled, fatal or failed by its sink or encoder, and otherwise waits once per turn |
| `StatusDriver.DelayCountsFailedDials` | internal/bridgeapp/remote.go:205-238 | The attempt passed to the backoff counts consecutive failed dials only |
| `Backoff.Next` | internal/bridgeapp/backoff.go:23-53 | The 64-bit loop equals min(Base*2^attempt, Max-Jitter) plus the jitter, never overflows, and stays in [0, Max] |
| `Backoff.JitterFraction` | internal/bridgeapp/backoff.go:62-75 | The jitter, computed in doubles, lies in [0, Jitter) for every 64-bit Jitter, and is none without a reader |
| `Backoff.JitterIsTheFraction` | internal/bridgeapp/backoff.go:62-75 | The jitter is the fraction as doubles compute it, both roundings to the nearest, for every jitter and seed; below 2^53 nanoseconds within one nanosecond of the exact one |
| `Doubles.RoundedNearest` | internal/bridgeapp/backoff.go:73-74 | The conversion to and the product of doubles: a double, and none is nearer |
| `Doubles.FractionBelow` | internal/bridgeapp/backoff.go:62-75 | The doubly rounded product stays strictly below the jitter, however large |
| `Doubles.FractionNear` | internal/bridgeapp/backoff.go:73-74 | Below 2^53 nanoseconds it misses the exact fraction by one nanosecond at most |
| `Doubles.FractionRoundsUp` | internal/bridgeapp/backoff.go:73-74 | And it does miss it: a jitter of 3 and a seed for which the exact value is 1 and the result 2 |
| `Backoff.DelayGrows` | internal/bridgeapp/backoff.go:29-53 | The delay never falls from one attempt to a later one and stays within Max |
| `Backoff.DelaySaturates` | internal/bridgeapp/backoff.go:40-51 | Past the cap more attempts change nothing |
| `Backoff.DelayDoubles` | internal/bridgeapp/backoff.go:23-53 | For every policy and attempt the delay is the base doubled once per attempt up to the room the jitter leaves, plus the jitter; negative settings count as zero |
| `AuditQueue.Queue.Record` | internal/audit/service.go:102-120 | Its two critical sections are steps of the run model: append and wake, or drop and count |
| `AuditQueue.Queue.DrainOnce` | internal/audit/service.go:195-218 | Hands over exactly what was buffered when it looked, in order, whatever is recorded meanwhile, and reports whether there was any |
| `AuditQueue.Queue.FlushTurn` | internal/audit/service.go:172-193 | When a turn of Flush finds nothing buffered and nothing in flight, the service has been handed every event ever accepted |
| `AuditQueue.Queue.Serve` | internal/audit/service.go:150-170 | While nobody has flushed, what the background loop handed over is a prefix of what was accepted, in order |
| `AuditQueue.FlushedMeansHanded` | internal/audit/service.go:172-193 | In any run, nothing buffered and nothing in flight means everything accepted was handed over |
| `AuditQueue.EventsConserved` | internal/audit/service.go:102-218 | Every event was dropped and counted or accepted; accepted ones are handed over, in a batch or buffered; the buffer is bounded |
| `AuditQueue.AcceptedExact` | internal/audit/service.go:102-120 | An event is accepted exactly while fewer than the capacity are buffered, and dropped and counted otherwise |
| `AuditQueue.TakenExact` | internal/audit/service.go:172-218 | A drain or flush takes all that is buffered as one batch |
| `AuditQueue.HandedAtMostOnce` | internal/audit/service.go:195-218 | No event is handed over twice, with any number of drains |
| `AuditQueue.FifoWhenSerial` | internal/audit/service.go:195-218 | One drain at a time hands events over in order |
| `AuditQueue.ServeAloneIsSerial` | internal/audit/service.go:150-170 | Without flushes Serve is such a drain |
| `AuditQueue.NoLostWakeup` | internal/audit/service.go:116-170 | A non-empty buffer means a wake token, a recorder about to send one, or a Serve that is yet to look |
| `AuditQueue.ServeExact` | internal/audit/service.go:150-170 | Where Serve goes after any step: a token starts a look, a batch is finished before the next, only a cancellation stops it |
| `AuditQueue.TokensExact` | internal/audit/service.go:102-170 | One wake token is sent per accepted event and used up by the look it starts; the channel holds one |
| `WorkGate.Server.Enter` | internal/httpserver/server.go:170-178 | The admission step: tracks a call exactly while the gate is open |
| `WorkGate.Server.Leave` | internal/httpserver/server.go:180-186 | The completion step: forgets a tracked call and replaces the wake channel |
| `WorkGate.Server.Drain` | internal/httpserver/server.go:132-152 | Ends however the requests come and go, since every wake finds fewer calls, and returns how many are left |
| `WorkGate.Server.FailPending` | internal/httpserver/server.go:154-168 | Cancels exactly the calls tracked when it looked, while they come to their end |
| `WorkGate.Server.Shutdown` | internal/httpserver/server.go:306-367 | The teardown reaches its last stage, in steps of the run model; no call is left, or every call left was cancelled |
| `WorkGate.DrainIsAlwaysWoken` | internal/httpserver/server.go:132-152 | A blocked drain holds a channel the next completion closes, or one closed already |
| `WorkGate.ClosedAdmitsNothing` | internal/httpserver/server.go:110-116 | After Close nothing is admitted in any run |
| `WorkGate.InsideExact` | internal/httpserver/server.go:110-186 | In any run a call comes in exactly while the gate is open and stays until it is done; the gate closes at its own stage and only calls that were left are cancelled |
| `WorkGate.ExpiryExact` | internal/httpserver/server.go:132-168 | An expired first wait goes on to fail exactly the calls left, any other ends, quiet exactly if none is left |
| `WorkGate.QuietStaysQuiet` | internal/httpserver/server.go:306-367 | Once the drain returned 0 no call exists while hub, HTTP server and pool close |
| `WorkGate.StragglersWereCancelled` | internal/httpserver/server.go:330-337 | Otherwise every call left at those stages was cancelled |
| `WorkGate.StagesInOrder` | internal/httpserver/server.go:306-367 | The stages of a shutdown come in order and none is revisited |

## Left out

- WebSocket, HTTP, TLS, process, DPAPI, registry and hardware calls: only queues, closes and outcomes are modelled.
- JSON text: a frame is an id and a content. Undecodable frames, hello, status and notification envelopes are not modelled.
- `resolveTarget`, `applyStatus` and routing policy: small case splits beside the protocol.
- The wrap-around of 64-bit local ids and of the relay's request counter, which are unbounded here.
- Hostile Bridges: `HandleEnvelope` does not check which device answers, so the protocol theorems assume honest ones.
- The close handshake and its grace timers of both connection types, heartbeats, and the Bridge session's own queue, which follows the hub's.
- `isTerminalAuthFailure`: which end of a session counts as a revocation is left open in the driver.
- SQL text, isolation levels, lock waits and deadlocks; transient database failures, after which a transaction rolls back.
- Foreign keys to users, clients, devices and Studio sessions in the OAuth tables, except where ownership is the point.
- fosite, the MCP SDK, JWT verification and PKCE: the store operations they call are modelled.
- A token exchange racing a code replay: the grant check and the insert are separate transactions, and nothing is claimed about the row left behind.
- Audit event contents and redaction, usage accounting, metrics and logging.
- `validateClaim`, verification URLs and resource and redirect URL validation: character-level checks beside the stored claim.
- Device names, host names, platforms and versions, which no decision reads, and fingerprints that are not 32 bytes of hexadecimal.
- `CreateDevice`, which registers a device for a user without a trial.
- Web sessions revoked by `RecoverIdentity`, and the existence check of its user, which is a parameter.
- React pages, consent HTML, terminal rendering, configuration loading and dashboard reads.
- TokenBucket.RateLimiter.Allow: does not model float rounding of token counts, because tokens are reals.
- Consent.ApprovalProvenance: is stated for a grant id that is new or the same owner's, because the handler draws it at random for each approval.
- RelayProtocol.ConnectingInv: connection numbers are never reused in a run, because each dial makes a new connection object.
- Enrollment.Pairings.Begin: the theorems take pairing codes never to repeat, because the code does not check the map before it stores the drawn one.
- `Authorize`, the entitlement store's read: the test an approval makes in its own transaction is modelled there.
- `approveConsent`, the unlocked pre-check before an approval, which never writes.
