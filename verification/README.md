# Zero-trust access: controller, connector and agent

A Dafny model of the parts of the system on which access depends, with proofs about every input, every run and every interleaving.

- **Firewall enforcement.** `PacketFilter` is the nftables chain with first-match evaluation. `Enforcement` gives each firewall operation of the agent as a function of a host whose oracle says which `nft` commands fail and how; `FirewallEnforcer` holds the classes that edit the map and the chain in place and is proved equal to it. `EnforcementTheorems` and `SyncResults` prove conservation of rules, refinement of the chain by a simple predicate and the result of a sync, `EnforcementSteps` and `TrustedTraffic` what happens at the moments in between.
- **Policy delivery.** `PolicyPorts` goes from database rows to the rules a connector pushes, `Connector` is its handling of a snapshot, `Delivery` the interleavings of store, broadcast, subscribe, read and drain, and `DeliveryTheorems` proves convergence, end to end from rows to packets.
- **Sign-in.** `Base64Url` is the hand-written encoder and the PKCE check, `OneTimeStores` the two one-time stores, `DeviceFlow` and `DeviceFlowTheorems` the device flow over all runs, `Sessions` and `SessionTheorems` refresh-token rotation.
- **Access policy.** `AccessTables` evaluates access twice, as the compiling join and as the trace's loops; `Groups` changes and deletes groups; `PolicyVersions`, `CompileRuns` and `Snapshots` number and normalize what is compiled, by compiles in turn and by overlapping ones.
- **Agents.** `Allowlist` and `AllowlistTheorems` replicate the agent allowlist, `Spiffe` prints and parses identities, `Enrollment` traces certificates to tokens, `Renewal` times their renewal, and `AclStore` is the in-memory ACL store.

Where the program changes something in place there is a class whose methods are proved equal to a function on values; the theorems are about those functions. Failures of commands, statements and lookups are parameters, so that a statement for all parameters covers every pattern of failures. History variables are named as such; no step reads them except to draw fresh values.

Several properties one would expect are not true of the code. For these the model keeps the code as it is, proves the exact condition under which they hold, and shows an input on which they fail:

- loopback and tunnel traffic always passes: `ProtectKeepsTrustedTraffic`, `UnprotectDrops` and `UnprotectCutsTrustedTraffic` for one operation, `RunCutsTrustedTraffic` for whole runs, `TidyRunCutsTrustedTraffic` for those without failures; `LostHandleCutsLoopback` and `NextPolicyCutsLoopback` fail
- every pushed rule is enforced: `EnforcedIffOneProtocolPerPort`; `SecondProtocolStaysOpen` fails
- policies reach an agent in order: `InOrderIffReadInTime`; `OlderAfterNewer` fails
- the trace and the compiled policy agree: `Agreement`; `SuspendedDisagrees` and `DanglingDisagrees` fail
- a refresh token succeeds once: `RedeemedOnce`; `OverlapRedeemsTwice` fails
- an access token outlives its session by 15 minutes at most: `AccessBound`; `SlowRefreshExceeds` fails
- a policy version stands for one hash: `OneHashIffUndisturbed`; `OverlapMixes`, `FailedReadMixes` and `FailedWriteMixes` fail
- the allowlist reaches every connector: `CoveredIffGuarded`; `RunsThatLose` fails

`dafny verify dfyconfig.toml` checks the whole project.

## Model

| member | source | states |
|---|---|---|
| FirewallEnforcer.Nft.AddRule | services/agent/src/firewall.rs:181-191 | one `nft add rule` appends a rule under a fresh handle, refuses, or adds it and loses the handle; the caller gets a handle only in the first case |
| FirewallEnforcer.Nft.DeleteRule | services/agent/src/firewall.rs:194-205 | one delete removes exactly the rule of that handle, or fails, is only logged and leaves an orphan |
| FirewallEnforcer.Enforcer.DeleteRules | services/agent/src/firewall.rs:194-205 | the handles are deleted in order, each whatever became of the one before |
| FirewallEnforcer.Enforcer.ProtectPort | services/agent/src/firewall.rs:133-178 | lo accept, TUN accept, drop, with the rollback of the handles gathered so far when a later add fails |
| FirewallEnforcer.Enforcer.StalePorts | services/agent/src/firewall.rs:87-92 | lists, once each and in any order, the protected ports that are no longer desired |
| FirewallEnforcer.Enforcer.SyncPolicy | services/agent/src/firewall.rs:81-127 | the diff: stale ports go, then missing ports are protected in the order of the rules; equals the step function on which every theorem below is proved |
| FirewallEnforcer.Enforcer.UnprotectPort | services/agent/src/firewall.rs:209-216 | the entry is forgotten and its handles deleted |
| FirewallEnforcer.Enforcer.GetState | services/agent/src/firewall.rs:219-230 | one rule for each entry, in the order the map yields |
| FirewallEnforcer.Enforcer.RestoreFromState | services/agent/src/firewall.rs:233-242 | an empty state changes nothing, any other is synced |
| FirewallEnforcer.Enforcer.HandleFirewallPolicy | services/agent/src/firewall.rs:255-293 | only the action `sync` touches the firewall |
| Enforcement.AddRuleEffect | services/agent/src/firewall.rs:181-191 | an add extends the tracked rules by exactly its rule when it returns a handle and by nothing otherwise, whether or not the kernel kept a rule |
| Enforcement.DeleteRulesEffect | services/agent/src/firewall.rs:194-205 | deleting handles takes exactly their rules out of the tracked chain, however many of the deletes fail |
| Enforcement.ProtectPortEffect | services/agent/src/firewall.rs:133-178 | for every pattern of failures: protecting a port appends its triple in order, or leaves the tracked chain as it was |
| Enforcement.SyncPolicyInv | services/agent/src/firewall.rs:81-127 | a sync keeps the invariant under every pattern of failures: on each port the tracked chain is exactly the triple of its entry, or empty |
| Enforcement.HandlesBelongToOnePort | services/agent/src/firewall.rs:194-205 | no handle of one port's entry names a rule of another port, so deletions never reach across ports |
| Enforcement.FirstProtocolAt | services/agent/src/firewall.rs:103-107 | the protocol a new port gets is that of the rule listed first for it |
| EnforcementTheorems.RunInv | services/agent/src/firewall.rs:81-127 | the invariant over any run of syncs |
| EnforcementTheorems.Conservation | services/agent/src/firewall.rs:133-205 | after any run from an empty chain, whatever failed, the kernel holds three rules for each tracked port and one for each orphan |
| EnforcementTheorems.ChainIsTriples | services/agent/src/firewall.rs:133-205 | after any run the rules that are not orphans are exactly those of the entries' triples, and no two rules share a handle |
| EnforcementTheorems.NoLeak | services/agent/src/firewall.rs:133-205 | adds that either return a handle or add nothing, and deletes that succeed, never create an orphan: rollback leaks nothing |
| EnforcementTheorems.FilterRefines | services/agent/src/firewall.rs:129-178 | first-match evaluation drops a packet exactly when its port is in the map with that protocol and it comes from neither lo nor the TUN, on every port without a forgotten rule; on every other port too for outside traffic, but for what forgotten rules drop in addition, so no failure opens a protected port |
| EnforcementTheorems.TidyRunFilters | services/agent/src/firewall.rs:81-205 | over any run without lost handles and failed deletes: chain length three times the map, and the refinement for every packet |
| EnforcementSteps.ProtectKeepsTrustedTraffic | services/agent/src/firewall.rs:133-191 | on any chain, forgotten rules included: while a port is being protected or rolled back, lo or TUN traffic is dropped at some step if and only if it was dropped before, or no earlier rule decides about it, it is for that port and protocol, the third rule was added without its handle, and the accept rule was then deleted |
| EnforcementSteps.UnprotectDrops | services/agent/src/firewall.rs:94-101 | on any chain, forgotten rules included: unprotecting drops accepted lo or TUN traffic at some step if and only if the delete of its accept rule succeeds and the chain without that one rule drops it |
| EnforcementSteps.UnprotectCutsTrustedTraffic | services/agent/src/firewall.rs:94-101 | without a forgotten rule on the port, that is exactly the lo and TUN traffic of the port and protocol whose accept rule's delete succeeds, the first for lo and the second for the TUN |
| TrustedTraffic.RunCutsTrustedTraffic | services/agent/src/firewall.rs:81-205 | over any run on any host, whatever fails, at every step between: a lo or TUN packet is dropped at some moment if and only if one of the run's operations meets the condition above in the state it starts from |
| TrustedTraffic.TidyRunCutsTrustedTraffic | services/agent/src/firewall.rs:81-127 | over any run without lost handles and failed deletes, at every step between: a lo or TUN packet is dropped at some moment if and only if some sync unprotects its port under its protocol |
| TrustedTraffic.LostHandleCutsLoopback | services/agent/src/firewall.rs:164-191 | a host on which protecting a port drops loopback traffic |
| TrustedTraffic.NextPolicyCutsLoopback | services/agent/src/firewall.rs:94-101 | two policies, the second without the port, that drop loopback traffic on a host where nothing fails |
| SyncResults.SyncPolicyResult | services/agent/src/firewall.rs:81-127 | kept ports keep their whole entry, nothing undesired survives, new ports take the protocol of one of their rules; without failures the keys are the desired ports and a new port has the protocol of its first rule |
| SyncResults.EnforcedIffOneProtocolPerPort | services/agent/src/firewall.rs:103-107 | after a clean sync every desired port and protocol is closed to the outside if and only if no rule asks for another protocol than the one its port is kept under: entries are keyed by port alone |
| Strings.LowerCase | services/agent/src/firewall.rs:134 | two protocols have one lower-case form exactly when they differ in the case of letters only; the form has no upper-case letter, and a string without one is its own |
| SyncResults.ClosedInAnyCase | services/agent/src/firewall.rs:133-178 | after a clean sync on any sound host, the rule that decides a port closes it to outside packets of exactly the protocol it spells, in whatever case |
| SyncResults.DefaultSpellingCloses | services/agent/src/firewall.rs:133-178 | a first sync of a rule for "TCP", the default of the database, closes its port to tcp and not to udp |
| SyncResults.SecondProtocolStaysOpen | services/agent/src/firewall.rs:103-107 | with a tcp and a udp rule for one port the second stays open |
| SyncResults.SaveThenRestore | services/agent/src/firewall.rs:219-242 | saving an enforcer that has forgotten no rule and restoring on a fresh one, when the restore meets no failure, gives the same ports, protocols and filter, in whatever order the ports were listed |
| PolicyPorts.PolicyResources | services/controller/api/policy_snapshot.go:140-211 | the scan loop: defaults for NULL or empty columns, and `port` repeating a single port only |
| PolicyPorts.PushedRulesAreDeclared | services/connector/src/main.rs:439-497 | a snapshot is readable if and only if every port column is a u16; the rules pushed are then exactly the ports that protected rows declare, with the row's protocol |
| PolicyPorts.PushedPorts | services/connector/src/main.rs:481-497 | the port set pushed is the union over protected rows of [from..to], of {from} for a nonzero lone from, and of nothing |
| PolicyPorts.Columns | services/controller/api/policy_snapshot.go:177-205 | a NULL or empty protocol becomes TCP and a NULL or empty status unprotected; any other stays; `port` is a port exactly when the row names no other |
| PolicyPorts.FirstPushed | services/connector/src/main.rs:439-445 | rules are pushed in the order of the rows: the first rule for a port, the one an agent keeps, has the protocol of the first row that declares it |
| PolicyPorts.PortRangeAt | services/connector/src/main.rs:481-497 | a range is pushed from its first port to its last, each once |
| Connector.PolicyPublisher.HandlePolicySnapshot | services/connector/src/main.rs:428-470 | an accepted, readable snapshot is stored as latest and broadcast, and any other changes nothing; the stored policy is always the one broadcast last |
| Delivery.ReachableInv | services/connector/src/control_plane.rs:60-104 | every interleaving of accept, broadcast, subscribe, read-latest, send, receive, lag, close, restart and sync keeps the delivery invariant |
| DeliveryTheorems.Convergence | services/connector/src/control_plane.rs:60-104 | in every run, once a snapshot was accepted since the connector started, an agent to which nothing is on its way has last applied the newest accepted policy |
| DeliveryTheorems.EndToEnd | services/agent/src/run.rs:219-232 | from database rows to packets: such an agent, if its last sync met no failure, protects exactly the ports the newest snapshot declares; it drops an outside packet exactly when it is for one of them, with the protocol the port was under before that sync or else that of the first row declaring it, or a forgotten rule drops it, and on a port without forgotten rules no other packet |
| DeliveryTheorems.AtMostOneStepBack | services/connector/src/control_plane.rs:60-104 | after its first message a connection carries strictly newer and newer policies, so that a step back can only follow the first |
| DeliveryTheorems.InOrderIffReadInTime | services/connector/src/control_plane.rs:60-104 | in every reachable state, reading the stored policy leads to no older policy after a newer one, however the process goes on, if and only if the connection has at most the newest broadcast still to receive |
| DeliveryTheorems.OlderAfterNewer | services/connector/src/control_plane.rs:60-69 | a run in which an agent is sent a newer policy first and an older one after it |
| DeliveryTheorems.Drain | services/connector/src/control_plane.rs:72-104 | a listening connection, however far behind, catches up in at most 34 steps of its own and sends exactly the retained broadcasts in order |
| DeliveryTheorems.SendsWhatItSubscribedFor | services/connector/src/control_plane.rs:60-104 | a connection that never lags has sent, or is about to send, the policy stored when it read and then every policy broadcast since it subscribed, each once and in order |
| DeliveryTheorems.SilentAfterLag | services/connector/src/control_plane.rs:72-104 | a connection that has lagged sends nothing more, whatever is broadcast, until its agent sends something |
| DeliveryTheorems.SilentAfterClose | services/connector/src/control_plane.rs:72-97 | a connection that has ended sends nothing more at all |
| Base64Url.EncodeWith | services/controller/admin/handlers_device_auth.go:525-554 | the loop over groups and the one or two bytes left stays in bounds and writes the encoding of RFC 4648 section 5 without padding, for any 64-symbol table |
| Base64Url.EncodeBase64URL | services/controller/admin/handlers_device_auth.go:525-554 | the same with the URL-safe table |
| Base64Url.GroupShifts | services/controller/admin/handlers_device_auth.go:528-540 | the shifts of a group take its six-bit pieces in the order of its bytes |
| Base64Url.EncodeIffDecodeStrict | services/controller/admin/handlers_device_auth.go:525-554 | for every 64-symbol table: a string is the encoding of the bytes if and only if a decoder that refuses nonzero spare bits reads them from it, so there is one encoding and it is padded with zero bits |
| Base64Url.UrlSafeExact | services/controller/admin/handlers_device_auth.go:525-554 | the same for the URL-safe table |
| Base64Url.KnownVectors | services/controller/admin/handlers_device_auth.go:525-554 | the first test vectors of RFC 4648 section 10 |
| Base64Url.RoundTrip | services/controller/admin/handlers_device_auth.go:525-554 | an independent decoder inverts the encoding of every byte string |
| Base64Url.UrlSafeEncoding | services/controller/admin/handlers_device_auth.go:525-554 | (4n+2)/3 symbols, all of the URL-safe alphabet, inverted by the lenient and the strict decoder, hence injective |
| Base64Url.PkceSound | services/controller/admin/handlers_device_auth.go:427-435 | against a challenge derived from a verifier the S256 check (RFC 7636 section 4.6) accepts exactly the verifiers with the same hash |
| OneTimeStores.Prune | services/controller/admin/oauth_invite_handlers.go:61-66 | the pruning loop keeps exactly the entries that have not expired |
| OneTimeStores.PrunedAlive | services/controller/admin/oauth_invite_handlers.go:61-66 | pruning takes exactly the expired entries: what is alive then or at any later time is so with and without it, with the same value |
| OneTimeStores.OAuthStates.Store | services/controller/admin/oauth_invite_handlers.go:57-67 | the state is stored for ten minutes and what has expired is pruned |
| OneTimeStores.OAuthStates.Consume | services/controller/admin/oauth_invite_handlers.go:69-78 | succeeds exactly for a live entry and then removes it; an expired entry stays |
| OneTimeStores.DeviceCodes.Store | services/controller/admin/handlers_device_auth.go:38-48 | the code is stored and what has expired is pruned |
| OneTimeStores.DeviceCodes.Consume | services/controller/admin/handlers_device_auth.go:50-60 | yields the entry of a live code; the code is gone either way |
| DeviceFlow.StepKeeps | services/controller/admin/handlers_device_auth.go:100-522 | every step of interleaved authorize, callback and token requests, other flows, restarts and the clock keeps the invariant that the right to a grant sits in one place only |
| DeviceFlowTheorems.GrantTraced | services/controller/admin/handlers_device_auth.go:100-522 | in every run a grant goes back to exactly one authorize request, of the same workspace and challenge; the challenge is not empty and the verifier meets it |
| DeviceFlowTheorems.GrantsDistinct | services/controller/admin/handlers_device_auth.go:252-522 | no two grants share an authorize request |
| DeviceFlowTheorems.GrantTimes | services/controller/admin/handlers_device_auth.go:286-390 | a grant's code was taken at most 60 s after its issue, and its state at most ten minutes after it was stored |
| DeviceFlowTheorems.CodesChallenged | services/controller/admin/handlers_device_auth.go:427-435 | every stored code has a challenge, so the check is never skipped |
| DeviceFlowTheorems.GrantedToAsker | services/controller/admin/handlers_device_auth.go:427-435 | when the authorize request carried the hash of a verifier, only a verifier of the same hash is granted |
| DeviceFlowTheorems.ConsentYieldsCode | services/controller/admin/handlers_device_auth.go:181-390 | an undisturbed sign-in with consent within ten minutes yields a code bound to the request's workspace and challenge |
| DeviceFlowTheorems.CodeGrants | services/controller/admin/handlers_device_auth.go:401-435 | that code is exchanged within its minute only, once, and granted exactly for a verifier of the same hash |
| DeviceFlowTheorems.CodeStays | services/controller/admin/handlers_device_auth.go:38-48 | in every run without a restart in which nobody presents the code, a live code stays stored unchanged until its minute is over, whatever other requests do |
| DeviceFlowTheorems.StateStays | services/controller/admin/oauth_invite_handlers.go:57-67 | and a live state value until its ten minutes are over, unless it is taken |
| DeviceFlowTheorems.TakenIsGone | services/controller/admin/handlers_device_auth.go:50-60 | a state value or code that was presented cannot be presented again |
| DeviceFlowTheorems.WrongVerifierBurns | services/controller/admin/handlers_device_auth.go:401-435 | in every run, a code spent on a verifier that does not meet its challenge is spent: no continuation grants that sign-in |
| DeviceFlowTheorems.RestartForgets | services/controller/admin/handlers_device_auth.go:33-36 | a restart ends every sign-in under way: none that was not granted before is granted in any continuation |
| DeviceFlowTheorems.FailedCallbackEnds | services/controller/admin/handlers_device_auth.go:286-390 | in every run, a callback that fails after it has taken its state value ends that sign-in for good |
| DeviceFlowTheorems.ReadOnce | services/controller/admin/handlers_device_auth.go:271-292 | a row that a callback read and deleted is not stored again in any continuation |
| Sessions.SessionStore.Create | services/controller/state/session.go:30-43 | a second row under one id is refused |
| Sessions.SessionStore.GetByRefreshTokenHash | services/controller/state/session.go:62-77 | some row with that hash, or none when there is none |
| Sessions.SessionStore.IsValid | services/controller/state/session.go:79-91 | not revoked and not expired; an error for a missing row |
| Sessions.SessionStore.Revoke | services/controller/state/session.go:93-96 | marks one row, and nothing when it is missing |
| Sessions.SessionStore.RevokeAllForUser | services/controller/state/session.go:98-101 | marks exactly that user's rows |
| Sessions.SessionStore.UpdateRefreshToken | services/controller/state/session.go:103-106 | replaces the hash, and does not fail when the row is gone |
| Sessions.SessionStore.CleanExpired | services/controller/state/session.go:108-111 | deletes exactly the expired rows |
| Sessions.StepKeeps | services/controller/admin/handlers_device_auth.go:478-659 | every step of sign-in, refresh (read, then rotate), revoke and clean-up keeps the session invariant |
| SessionTheorems.OnlyNewestAccepted | services/controller/admin/handlers_device_auth.go:581-592 | in every run, overlapping or not, a refresh token is accepted exactly when it is the newest of a stored device session that is neither revoked nor expired |
| SessionTheorems.SignInStores | services/controller/admin/handlers_device_auth.go:484-498 | what a device and an admin sign-in store, for thirty days and for one; no other row changes |
| SessionTheorems.RevocationHappens | services/controller/state/session.go:93-101 | in every reachable state, revoking by id, by user or by refresh token marks exactly the stored sessions of that id, of that user, or whose newest token that is, and changes nothing else |
| SessionTheorems.NoTokenAfterRevocation | services/controller/admin/handlers_device_auth.go:648-656 | after it, in every continuation, no token that was ever issued for that session is accepted |
| SessionTheorems.CleaningDeletes | services/controller/state/session.go:108-111 | cleaning deletes exactly the expired sessions |
| SessionTheorems.AdminUnreachable | services/controller/admin/oauth_invite_handlers.go:334-344 | no refresh or revoke request reaches an admin session |
| SessionTheorems.Stable | services/controller/state/session.go:93-111 | while a session is stored its expiry and kind never change and a revocation stands |
| SessionTheorems.NeverUsableAgain | services/controller/state/session.go:79-101 | a session revoked or expired is never usable again |
| SessionTheorems.AccessChecked | services/controller/admin/handlers_device_auth.go:589-616 | every device access token was issued on a session that had not expired when it was checked, and lives for 15 minutes from some moment between that and now |
| SessionTheorems.AccessBound | services/controller/admin/session_helpers.go:267-284 | in every run no device access token outlives its session by more than 15 minutes if and only if no rotation comes later than its session's expiry |
| SessionTheorems.SlowRefreshExceeds | services/controller/admin/handlers_device_auth.go:584-616 | a refresh that reads in time and rotates after the expiry exceeds the bound |
| SessionTheorems.RedeemedOnce | services/controller/admin/handlers_device_auth.go:584-613 | over every run each refresh token succeeds at most once if and only if every rotation still finds its token to be the session's newest |
| SessionTheorems.UndisturbedIsHashUnchanged | services/controller/admin/handlers_device_auth.go:610-613 | for a stored row that condition is that its hash is still the token's |
| SessionTheorems.SerialRedeemedOnce | services/controller/admin/handlers_device_auth.go:559-625 | when refreshes of one session do not overlap, each refresh token succeeds at most once |
| SessionTheorems.OverlapRedeemsTwice | services/controller/admin/handlers_device_auth.go:584-613 | two overlapping refreshes redeem one token twice |
| AccessTables.CollectIdentities | services/controller/api/policy_snapshot.go:169-175 | the loop over the statement's rows keeps the non-empty identities in order |
| AccessTables.NonEmptyLists | services/controller/api/policy_snapshot.go:146-176 | from a statement that lists each selected identity once, the loop lists each allowed identity once |
| AccessTables.NonEmptyConcat | services/controller/api/policy_snapshot.go:169-175 | and keeps its order: listing after listing, what is kept of one comes before what is kept of the next |
| AccessTables.Trace | services/controller/admin/ui_diagnostics.go:281-306 | the nested loops with `continue` and `break` |
| AccessTables.TraceMeaning | services/controller/admin/ui_diagnostics.go:230-311 | allowed exactly when a rule that is not switched off shares an existing group with the user; the matched rules are exactly those, once each, and the reason names the last |
| AccessTables.TraceReason | services/controller/admin/ui_diagnostics.go:304-325 | the reason is the last matching rule and the first of its groups that the user is in |
| AccessTables.TracedInOrder | services/controller/admin/ui_diagnostics.go:304-325 | matched rules are listed in the order in which they were read |
| AccessTables.ActiveMeaning | services/controller/api/policy_snapshot.go:152 | a status counts as active exactly when it is the word "active", in any case and between any spaces |
| AccessTables.CompiledMeaning | services/controller/api/policy_snapshot.go:146-153 | for a user with an identity of its own: compiled in exactly when active and some rule with `enabled` 1 has a group the user is in, whether or not that group exists |
| AccessTables.Agreement | services/controller/admin/ui_diagnostics.go:281-324 | the two evaluations of a user with an identity of its own agree on every rule table with 0/1 flags and every resource if and only if the user is active and only in groups that exist, or inactive and only in groups that do not |
| AccessTables.LoopsAgree | services/controller/admin/ui_diagnostics.go:230-306 | for such a user, on any listing of the tables, the loops allow exactly when the identity is in the compiled list |
| AccessTables.SuspendedDisagrees | services/controller/admin/ui_diagnostics.go:281-324 | a suspended user in an admitted group is traced as allowed and compiled out |
| AccessTables.DanglingDisagrees | services/controller/api/policy_snapshot.go:146-153 | a membership of a missing group is compiled in and traced as denied |
| Groups.UserStore.DeleteGroup | services/controller/state/user.go:169-196 | four statements in a transaction: all of them or, when any step fails, none |
| Groups.UserStore.AddUserToGroup | services/controller/state/user.go:225-234 | adds the pair, and nothing when it is there |
| Groups.UserStore.RemoveUserFromGroup | services/controller/state/user.go:236-239 | removes exactly the pair |
| Groups.DeletedCompiles | services/controller/state/user.go:169-196 | after deleting a group every resource's identities are exactly those derivable through another group |
| Groups.DeletedTakesAway | services/controller/state/user.go:169-196 | no identity is added, and none is taken away if and only if each has another group |
| Groups.DeletedLeavesNoTrace | services/controller/state/user.go:169-196 | no row mentions the group, other rows stay, and a rule stays exactly when it has another group, so every rule without a group goes too |
| Groups.DeletedLeavesNoDangling | services/controller/state/user.go:169-196 | rows that refer to existing groups keep doing so |
| Groups.DeletedTrace | services/controller/state/user.go:169-196 | the trace afterwards sees exactly what opens through another group |
| Groups.GroupedCompilesAlike | services/controller/state/user.go:182-190 | dropping the rules without a group changes no compiled resource |
| Groups.AddedCompiles | services/controller/state/user.go:225-234 | a new membership lets in exactly the identity it derives |
| Groups.RemovedCompiles | services/controller/state/user.go:236-239 | what is left is what the other memberships derive |
| PolicyVersions.VersionTable.PolicyVersion | services/controller/api/policy_snapshot.go:222-233 | read, compare, upsert, with the errors of both statements ignored: a failed read starts again at version 1, a failed write leaves the row |
| PolicyVersions.VersionCounts | services/controller/api/policy_snapshot.go:222-233 | in a serial run of compiles for any connectors, the version is one more than the number of changes of that connector's hash so far |
| PolicyVersions.OneHashAVersion | services/controller/api/policy_snapshot.go:222-233 | versions start at 1, never decrease, and stand for one hash each |
| PolicyVersions.RisesWithTheHash | services/controller/api/policy_snapshot.go:226-228 | from one compile to the next the version rises by one exactly when the hash differs |
| PolicyVersions.OverlapSharesVersion | services/controller/api/policy_snapshot.go:225-231 | two different hashes compiled from one row get one version exactly when neither is the stored hash |
| PolicyVersions.FirstCompilesShare | services/controller/api/policy_snapshot.go:225-231 | two overlapping first compiles of a connector are both version 1 |
| CompileRuns.OneHashIffUndisturbed | services/controller/api/policy_snapshot.go:222-233 | in every run of overlapping compiles whose reads and writes may fail, a connector's versions never decrease and stand for one hash each if and only if every write finds nothing issued since its read, or issues what was issued last |
| CompileRuns.NewestIsStored | services/controller/api/policy_snapshot.go:229-231 | while no write fails the row issued last is the stored one, so a statement could check that condition |
| CompileRuns.SerialOneHash | services/controller/api/policy_snapshot.go:222-233 | compiles of one connector that do not overlap and do not fail meet it |
| CompileRuns.OverlapMixes | services/controller/api/policy_snapshot.go:225-231 | two overlapping compiles of different hashes are both version 1 |
| CompileRuns.FailedReadMixes | services/controller/api/policy_snapshot.go:225-228 | so are two in turn when the second fails to read |
| CompileRuns.FailedWriteMixes | services/controller/api/policy_snapshot.go:229-231 | and when both read well and the first fails to write |
| Snapshots.NormalizeSnapshot | services/controller/api/policy_snapshot.go:111-119 | sorts the resources and, in place, each one's identities |
| Snapshots.LeqMeans | services/controller/api/policy_snapshot.go:112-117 | the order sorted by is that of the first character that differs, a prefix first |
| Snapshots.NormalizedSame | services/controller/api/policy_snapshot.go:111-119 | the result is in order and lists the same resources with the same identities |
| Snapshots.Canonical | services/controller/api/policy_snapshot.go:111-119 | two snapshots with distinct ids have one normal form if and only if they list the same resources with the same identities in some order |
| Allowlist.AgentRegistry.Add | services/controller/state/tunneler.go:25-33 | the first entry of an agent id is kept; `seen` stays the set of ids |
| Allowlist.RegisteredMeans | services/controller/state/tunneler.go:25-33 | an agent id enters once, behind the entries there are, which do not change |
| Allowlist.AgentAllowlist.Replace | services/connector/src/allowlist.rs:28-35 | the set becomes the non-empty identities of the list |
| Allowlist.AgentAllowlist.Add | services/connector/src/allowlist.rs:37-42 | adds one identity unless it is empty |
| Allowlist.IdsMean | services/connector/src/allowlist.rs:28-35 | the identities of a list are all it has but the empty one |
| Allowlist.FoldMeans | services/connector/src/allowlist.rs:28-42 | after a queue of messages the set has exactly the identities that some message brings after which no list comes, or that were there when no list comes at all |
| Allowlist.SendListCovers | services/controller/api/control_plane.go:356-369 | sending a list leaves the stream without a gap if and only if everything registered since the listing is in it or still on its way |
| Allowlist.CaptureCovers | services/controller/api/control_plane.go:343-354 | copying the clients leaves a stream without a gap if and only if it is among them or gets the agent anyway |
| AllowlistTheorems.OtherStepsCover | services/controller/api/control_plane.go:277-354 | no other step opens a gap for a stream |
| AllowlistTheorems.StepCovers | services/controller/api/control_plane.go:277-369 | one step of any kind leaves a live stream without a gap if and only if it meets its guard |
| AllowlistTheorems.CoveredIffGuarded | services/controller/api/control_plane.go:83-85 | in every run, a stream has every registered identity, or has it on its way, in every state from its list on, if and only if each sending of its list and each copying of the clients while it is live meets its guard |
| AllowlistTheorems.Replicated | services/controller/api/control_plane.go:83-85 | in every run that meets those guards, as every run does in which listing and sending are one step and a connector reconnects only after its old stream is gone, a connector past its list ends with every registered identity |
| AllowlistTheorems.LateListLoses | services/controller/api/control_plane.go:360-368 | an agent announced between listing and sending is erased by the list |
| AllowlistTheorems.OldStreamLoses | services/controller/api/control_plane.go:337-341 | removing a stale stream takes the new one off the clients, and it misses the next agent |
| AllowlistTheorems.RunsThatLose | services/controller/api/control_plane.go:83-85 | both happen in runs from the start |
| Spiffe.CheckId | services/controller/api/enroll.go:409-423 | the loop accepts exactly 1 to 128 characters of the id alphabet |
| Spiffe.IdAlphabet | services/controller/api/enroll.go:409-423 | the alphabet of ids is that of URL-safe base64 and the dot |
| Spiffe.PrintParse | services/controller/api/enroll.go:107 | the interceptor accepts what is printed exactly for a trusted domain and an allowed role, and every parser recovers domain, role and id |
| Spiffe.AcceptedAgree | services/controller/api/interceptor.go:181-213 | on every URI the interceptor accepts, with a query or fragment or without, all parsers read one role and one id; those that need an id refuse exactly the empty one |
| Spiffe.TextViews | services/controller/api/control_plane.go:499-511 | what each parser makes of a domain, a role and anything after it, extra segments included |
| Spiffe.SchemeOptional | services/controller/api/control_plane.go:499-511 | a text without the scheme is read all the same by the controller's parsers and refused by the agent's and the connector's |
| Spiffe.VerifyAccepts | services/agent/src/tls/spiffe.rs:43-74 | the peer check accepts exactly the role's path, alone or followed by any number of segments |
| Spiffe.DomainsAccepted | services/controller/api/interceptor.go:136-147 | the global domain and the proper subdomains of the system domain, and that domain itself only when it is the global one |
| Enrollment.TokenStore.CreateTokenForWorkspace | services/controller/state/token.go:30-49 | a new unconsumed row, or an error and no row |
| Enrollment.TokenStore.ConsumeTokenWithWorkspace | services/controller/state/token.go:58-98 | succeeds for an unexpired token that is unconsumed or bound to this id, binds it and yields its workspace; otherwise nothing changes |
| Enrollment.TokenStore.DeleteByConnectorId | services/controller/state/token.go:100-106 | deletes exactly the tokens bound to the id |
| Enrollment.StepKeeps | services/controller/api/enroll.go:62-275 | creation, consumption, enrolment, renewal and deletion keep the provenance invariant |
| Enrollment.EnrolOutcome | services/controller/api/enroll.go:62-192 | an enrolment issues a certificate exactly for a stored, unexpired token that is unconsumed or bound to this id, when the trust domain is found; the token is bound to the id in either case and no other token changes |
| Enrollment.DeleteOutcome | services/controller/state/token.go:100-106 | deleting a connector loses exactly the tokens bound to its id |
| Enrollment.RenewalRepeats | services/controller/api/enroll.go:204-262 | the role and id a renewal is checked with are those that were enrolled |
| Enrollment.OneIdentityAToken | services/controller/state/token.go:58-98 | in every run all certificates enrolled with one token carry one id and the trust domain of the workspace the token was created for |
| Enrollment.BoundForGood | services/controller/state/token.go:58-98 | in every run, once a token was good for an id, in an enrolment or not, no continuation enrols another id with it, whatever becomes of the token |
| Enrollment.RenewedWasEnrolled | services/controller/api/enroll.go:204-275 | every certificate, however often renewed, repeats the URI, role and id of an earlier enrolment |
| Enrollment.TwoRolesAToken | services/controller/api/enroll.go:62-192 | one token can enrol a connector and an agent of the same id |
| AclStore.Store.Snapshot | services/controller/state/acl.go:57-67 | the resources, each once, and a copy of the list in an array of its own |
| AclStore.Store.AddAuthorization | services/controller/state/acl.go:135-139 | appends, in place while there is room |
| AclStore.Store.UpsertResource | services/controller/state/acl.go:69-77 | an empty id is an error |
| AclStore.Store.DeleteResource | services/controller/state/acl.go:79-90 | compacts the shared array in place to what is not of the resource |
| AclStore.Store.UpdateFilters | services/controller/state/acl.go:92-101 | changes exactly the filters of the resource |
| AclStore.Store.AssignPrincipal | services/controller/state/acl.go:103-121 | updates the first match or appends; an empty id is an error |
| AclStore.Store.RemoveAssignment | services/controller/state/acl.go:123-133 | compacts the shared array in place to what is not the pair |
| AclStore.DeleteAfterSnapshot | services/controller/state/acl.go:57-90 | an earlier snapshot does not see a later deletion's compaction |
| AclStore.RemoveAfterSnapshot | services/controller/state/acl.go:57-133 | nor that of a removed assignment |
| AclStore.KeepOrder | services/controller/state/acl.go:83-89 | survivors keep their order |
| AclStore.RunRefines | services/controller/state/acl.go:79-133 | from distinct pairs, any run of assignments, removals, deletions and filter updates is one on a map from pairs to filters, and pairs stay distinct |
| Renewal.NextRenewalDelay | services/agent/src/renewal.rs:51-71 | the delay to three tenths of the lifetime before expiry, never under ten seconds |
| Renewal.CertStore.RenewalLoop | services/agent/src/renewal.rs:15-48 | when the attempts of the loop start and what each leaves in the store |
| Renewal.AttemptsApart | services/agent/src/renewal.rs:15-48 | attempts are at least ten seconds apart whatever the certificates say |
| Renewal.FailingAttempts | services/agent/src/renewal.rs:51-71 | with a positive lifetime, when renewal keeps failing at once, attempt k starts ten k seconds after the first |
| Renewal.ZeroLifetimeAttempts | services/agent/src/renewal.rs:51-71 | with a lifetime of zero each delay is taken from what is left, and attempt k precedes expiry exactly while something is left |
| Renewal.TriesBound | services/agent/src/renewal.rs:60-64 | then the number of attempts before expiry grows only with the logarithm of the time left |
| Renewal.AttemptsBeforeExpiry | services/agent/src/renewal.rs:51-71 | how many attempts precede expiry, for every lifetime and start |
| Renewal.AttemptsOnTime | services/agent/src/renewal.rs:60-66 | from a loop started ten seconds before the instant to renew at, the first attempt is at that instant and the number is ceil(floor(30% of the lifetime) / 10 s) |
| Renewal.ControllerCerts | services/controller/ca/ca.go:173-181 | with the controller's five-minute certificates the next attempt is 192 s after issue and eleven fit in before expiry |
| Renewal.UnreadableCerts | services/agent/src/renewal.rs:26-36 | a certificate whose validity cannot be read is renewed 42 minutes later; one that ends before it begins keeps its end and counts as an hour long |

## Left out

- EnforcementTheorems.FilterRefines: on a port on which a forgotten rule is left it says nothing about loopback and tunnel traffic, which the map no longer determines there; `RunCutsTrustedTraffic` says when such a packet is dropped.
- DeliveryTheorems.EndToEnd: a port protected before the last sync keeps the protocol it had (`services/agent/src/firewall.rs:104-107`), so there the newest rows do not name it.
- PolicyVersions.OneHashAVersion: is about compiles in turn whose statements succeed; `OneHashIffUndisturbed` is about all others. The deletion of a version row with its connector is not part of the model.
- AccessTables.Agreement: supposes `enabled` flags of 0 and 1, the only ones the program writes; the join asks for 1 and the trace for anything but 0.
- Enforcer start-up: `initialize` creates the table and chain without flushing them, so runs start from an empty chain; `cleanup_all` and nft's own parsing are not part of the model, and each nft command is atomic.
- Lower-casing is ASCII; SQL `TRIM` and `LOWER` are modelled for spaces and ASCII letters.
- The policy cache's verdict on a snapshot is an arbitrary boolean, and TLS, X.509, HMAC, JWT signing and the OAuth exchange are not modelled: SHA-256 is any function (for sessions an injective one with non-empty values), random values are fresh, and presented certificates are ones the controller issued.
- SQL statements are single steps on maps and sets; handlers otherwise interleave. The token store's mutex makes consumption one step.
- One clock reading for each call of the one-time stores: the pruning loop reads the clock again for each entry.
- The bounded queue between a connector task and its agent's stream, which only delays sends, and the other messages on the control streams.
- A control stream that fails in mid-send, and the queue inside gRPC, apart from its being first in, first out.
- URLs with user information or percent escapes, and the collection of the SPIFFE names in `extract_spiffe_id`.
- The backing CA a certificate is signed with, the registry's private addresses and the connector's IP names.
- Changes of a workspace's trust domain, which no statement makes.
- Go's `sort.Slice` and `sort.Strings` are stood for by insertion sorts; with distinct ids any sort gives the same list.
- Query errors that `policyResources` ignores, the user's groups in the trace's `path` output, and the network part of that output.
- Agreement of the in-memory ACL store with its database tables, whose delete paths differ.
- User interface, scanning, heartbeats, audit logs and schema migration: they would only add easy members.
