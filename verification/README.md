# MarzbanNext control plane: a verified model

MarzbanNext keeps users, inbounds, outbounds and routing rules in a database, generates one Xray
config per remote node, and keeps running nodes in step with it. This project models that logic in
Dafny 4.11 and proves what it keeps, undoes, conserves and leaves alone. `dafny verify dfyconfig.toml`
checks all of it.

## What is modelled

**Node configuration** (`Json`, `Protocols`, `NodeTables`, `RowSync`, `RowSyncProperties`, `RoutingRules`,
`RuleSync`, `RuleSyncProperties`, `RuleIsolation`, `RuleRecompose`, `RuleFixpoint`, `NodeConfig`,
`NodeConfigProperties`, `ConfigTemplate`, `TemplateSync`, `TemplateProperties`, `Registry`, `Accounts`,
`SyncClients`, `ControlPlane`, `DirtyBits`, `DirtyBitConditions`, `DirtyBitLimits`, `PanelRuns`, `RunLimits`,
`PanelStore`).
The database is the class `PanelStore.Store`, whose handlers change its tables, commit or roll back, and
mark the nodes that need a restart. Every handler is proved against the transition function of
`ControlPlane`, about which the theorems speak. A thread that connects or restarts a node takes three
steps (it loads a config, delivers it and clears the mark), and requests and other threads may come in
between. The sync that breaks a node's JSON template into shared rows is a method with the loops of the
original and has a closed form. Generating a config is a function of one node's view of the tables. A
table is a sequence in id order. Configs are JSON values, and everything the generator fills in or
overwrites in them is modelled. Creating and enabling an inbound commit the row before accounts are
filled in, and that can fail.

**Incremental user updates** (`NodeClients`, `UserThreads`, `UserSync`, `UserSyncProperties`,
`UserOverlaps`). A
running node holds clients in cells (node, inbound tag, email). The threads that user changes spawn take
steps in any order; a restart replaces what a node holds by what its regenerated config asks for.

**Backup of a MySQL database** (`SqlDump`, `SqlDumpProperties`, `SqlLiterals`, `SqlLiteralProperties`,
`SqlSplitter`, `SqlSplitterProperties`, `SqlIdentifiers`, `SqlRoundTrip`). The scanner that cuts a dump
into statements is a method with the original's loop, proved against an automaton over characters;
literals are read back by the rules of the MySQL 8.0 Reference Manual, section 9.1.1.

**Arithmetic and codecs** (`Calendar`, `Multiples`, `BucketLists`, `StatsBuckets`, `StatsHistory`,
`StatsConservation`, `Counters`, `UsageRecords`, `Base64Url`, `SubscriptionTokens`). Buckets over the
proleptic Gregorian calendar, traffic accounting, and subscription tokens in unpadded base64url (RFC
4648, sections 3.2, 4 and 5).

**State machines** (`UserLifecycle`, `UserLifecycleProperties`, `EndpointNames`, `EndpointOrder`,
`SubscriptionEndpoints`, `SubscriptionEndpointProperties`, `SubscriptionPipeline`, `Notifications`,
`NotificationHistory`). The life of a user, the way from stored hosts to named endpoints and balancers,
and the retry queue of webhook notifications.

`Wrappers`, `Seqs`, `Sorting`, `SortOrder`, `Text` and `Decimals` hold what several of them use.

## What the proofs found

Some promises hold only under a condition that can be checked beforehand, and for each a concrete
state or input shows that it fails without.

- A template that normalization accepts and the sync rejects is stored all the same, and nobody is
  marked (`app/services/node_service.py:140-145`): `DirtyBitLimits.RejectedTemplateGoesUnnoticed`. That
  does no harm exactly when the node is stopped or marked, or the templates differ only in rules, in
  entries that rows of the node manage, and in what the generator overwrites
  (`DirtyBitConditions.RejectedTemplateSoundExactlyWhen`).
- Creating or enabling an inbound commits the row, then fills in accounts, and marks its nodes last. If an
  enabled row doubles an excluded entry of any template, filling in accounts raises
  (`app/services/system_service.py:267-276`, `:309-310`): `DirtyBitLimits.FillingFailsAfterCommit`. That does
  no harm exactly when each of the row's nodes is stopped or marked or sees no difference
  (`DirtyBitConditions.FillingSoundExactlyWhen`), and never happens while no inbound is created under an
  excluded tag (`PanelRuns.UnexcludedRunsFill`).
- Between loading a config and clearing the mark nothing may touch the node
  (`app/xray/operations.py:350-355`, `:388-393`): an edit in between loses its mark
  (`DirtyBitLimits.EditBetweenLoadAndClear`). Runs in which every start is left alone are sound
  (`DirtyBits.RunsKeepDirtyBits`); a start that was disturbed is sound exactly when the node sees no
  difference (`DirtyBitConditions.LateApplySoundExactlyWhen`,
  `DirtyBitConditions.LateDeliverySoundExactlyWhen`).
- Syncing one node moves a read-only rule for every node that shares it, so another node's rule order
  can change (`DirtyBitLimits.SharedRuleMoves`, `RuleIsolation.OrderKeptExactlyWhen`). The sync never
  shares a rule; assigning a read-only rule to two nodes does.
- Two read-only rules of one node under one name keep the template from coming back and make a second
  sync move rules again (`RuleFixpoint.HomonymsMoveAgain`, `RuleRecompose.RulesRecomposedExactlyWhen`).
- Requests that all succeed lead from an empty panel to a node whose outbounds are all shadowed by
  disabled rows (`RunLimits.OutboundsGetShadowed`), and to one whose template and rows use the same
  excluded tag (`RunLimits.ExcludedTagClashes`). `PanelRuns.ReachableConfigsGenerateExactlyWhen` says when
  a config can be generated.
- Syncing one node's template can give a user a client on another node's inbounds, although that node is
  neither marked nor called (`SyncClients.AccountReachesOtherNode`,
  `SyncClients.TemplateKeepsClientsExactlyWhen`): the new account leaves out only tags of that template.
- `add_user` never replaces a client that a node already holds
  (`UserSyncProperties.AddLeavesOldClient`, `UserSyncProperties.AddConvergesExactlyWhen`).
- Two changes of one user whose calls overlap can leave the older client
  (`UserOverlaps.OlderClientStays`): every order ends well exactly when the older change leaves the cell
  alone or wants the same there (`UserOverlaps.OverlapConvergesExactlyWhen`).
- The statement splitter takes a backslash inside backticks for an escape, which MySQL does not. A
  quoted identifier survives exactly when it does not end in an odd run of backslashes and has no backtick
  after one (`SqlIdentifiers.TrailingBackslashIsLost`, `SqlIdentifiers.IdentifierSurvivesExactlyWhen`).
- The review job stops at an active, expired user without a data limit whose next plan fires on either
  reason and would hand over the rest of the limit; users behind it and all users on hold are not
  reviewed (`UserLifecycleProperties.JobStops`, `UserLifecycleProperties.ReviewOfAll`).

## Model

| member | source | states |
|---|---|---|
| `RoutingRules.NormalizedRule` | app/models/routing.py:8-37 | a normalized rule is its own normal form, has a non-empty tag, and that tag is its name whatever the fallback |
| `RoutingRules.NormalizeAllNormal` | app/db/crud/routing.py:190-197 | normalizing the rules of a template keeps their number, yields normal rules, and leaves normal rules alone |
| `Json.MergeDicts` | app/xray/config.py:26-32 | the loop overrides and merges nested objects as specified |
| `Json.MergedSameExactlyWhen` | app/xray/config.py:26-32 | merging the same over two objects gives the same exactly when they differ only in what is overridden, at any depth |
| `RowSync.DictionaryKeepsLast` | app/db/crud/routing.py:169-187 | the tag-keyed dictionary of template entries has one entry per tag, the last one written under it |
| `RowSync.DetachDroppedRows` | app/db/crud/routing.py:216-223 | the first loop takes the node off the read-only rows the template dropped and removes those left without nodes, no others |
| `RowSync.SyncConfigRows` | app/db/crud/routing.py:216-266 | the row sync reports the first conflict in template order or yields each old row as the template leaves it followed by one new row per unknown tag |
| `RowSyncProperties.OtherNodesKeepTheirRows` | app/db/crud/routing.py:216-247 | isolation: every other node is assigned the same rows with the same contents and flags in the same order |
| `RowSyncProperties.SyncKeepsRowsSound` | app/db/crud/routing.py:216-266 | tags stay unique and repeated in the contents, and read-only rows stay enabled |
| `RowSyncProperties.NodeOwnsExactlyTheTemplate` | app/db/crud/routing.py:236-266 | afterwards the node's read-only rows hold template entries only, and editable rows are those of before |
| `RowSyncProperties.EveryEntryHasItsRow` | app/db/crud/routing.py:236-266 | every template entry has an enabled read-only row of the node with exactly its content |
| `RowSyncProperties.FixedExactlyWhenSettled` | app/db/crud/routing.py:281-328 | the row sync changes nothing exactly when the table already agreed with the template |
| `RowSyncProperties.SyncSettlesRows` | app/db/crud/routing.py:281-328 | one successful sync makes the table agree with the template |
| `RuleSync.AdoptTemplateRules` | app/db/crud/routing.py:344-366 | the loop over template rules equals the fold of single rounds and collects exactly the rules' names |
| `RuleSync.DropStaleRules` | app/db/crud/routing.py:368-373 | the last loop takes the node off its read-only rules with other names, removes those left without nodes, and keeps every other row |
| `RuleSync.SyncRoutingRules` | app/db/crud/routing.py:330-373 | the rule sync rejects the first malformed rule or yields the synced table |
| `RuleSyncProperties.SyncClosedForm` | app/db/crud/routing.py:330-373 | the two loops amount to one statement: each old rule decided on its own, then the new rules in order with consecutive ids |
| `RuleIsolation.OtherNodesKeepTheirRules` | app/db/crud/routing.py:344-373 | another node keeps its rules with contents, flags and ids; only planned positions of shared rules move |
| `RuleIsolation.OrderKeptExactlyWhen` | app/db/crud/routing.py:351-355 | another node's rule order survives the sync exactly when each pair of its rules compares by planned position as by position |
| `RuleIsolation.GeneratedRulesKept` | app/db/crud/routing.py:344-373 | under that condition the rules generated for the other node are the same |
| `RuleIsolation.UnsharedKeepsOrder` | app/db/crud/routing.py:351-355 | a node that shares no read-only rule disturbs nobody's order |
| `RuleRecompose.EveryRuleWritten` | app/db/crud/routing.py:344-366 | after the sync every template rule has an enabled read-only row of the node at its own position |
| `RuleRecompose.SyncKeepsRulesSound` | app/db/crud/routing.py:330-373 | ids stay increasing and below the next one, and read-only rules stay enabled and named by their tag |
| `RuleRecompose.RulesRecomposedExactlyWhen` | app/db/crud/routing.py:340-373 | the node's read-only rules, as the generated config lists them, are the template's in the template's order exactly when no two of them shared a name of the template |
| `RuleFixpoint.FixedExactlyWhenSettled` | app/db/crud/routing.py:330-373 | the rule sync changes nothing, positions included, exactly when each rule was found under its name, in place, with its content |
| `RuleFixpoint.SyncSettlesRules` | app/db/crud/routing.py:330-373 | without two rules under one name of the template, one sync settles the rules |
| `RuleFixpoint.HomonymsMoveAgain` | app/db/crud/routing.py:340-356 | two rules under one name: a second sync with the same template moves a rule that the first did not |
| `ConfigTemplate.NormalizeXrayConfigTemplate` | app/utils/xray_config_template.py:10-42 | the loop returns the template with all rules normalized, or the first bad or doubled rule, or the failed tag check |
| `ConfigTemplate.NormalizationMeans` | app/utils/xray_config_template.py:20-40 | what is accepted differs from the payload in its rules only and satisfies the template invariant; exactly the templates that satisfy it come back unchanged |
| `TemplateProperties.SyncLeavesOthersAlone` | app/db/crud/routing.py:200-375 | isolation of the whole sync: another node's rows are the same, and its rule order is the same exactly when planned positions compare as before |
| `TemplateProperties.SyncKeepsSound` | app/db/crud/routing.py:200-375 | a successful sync keeps all table invariants |
| `TemplateProperties.ItemsRecomposed` | app/xray/config.py:76-137 | entries merged from template and synced rows are, as a multiset, the template's and the node's enabled editable ones |
| `TemplateProperties.DecomposeRecompose` | app/xray/config.py:54-176 | after a successful sync the merged inbounds and outbounds are permutations of the template's plus the node's editable rows, and the rules come back equal and in order exactly without homonyms |
| `TemplateProperties.SyncChangesNothingExactlyWhenSettled` | app/db/crud/routing.py:200-375 | a sync changes no row, position, host or account exactly when the database already agreed with the template |
| `TemplateProperties.SyncIsIdempotent` | app/db/crud/routing.py:200-375 | a second sync with the same template changes nothing |
| `NodeConfig.MergeManagedConfigs` | app/xray/config.py:54-176 | the merge keeps unmanaged and excluded template entries, appends the enabled rows, and lists the enabled rules by position and id |
| `NodeConfig.ResolveInbounds` | app/xray/config.py:364-380 | the loop gives supported inbounds their missing settings and account inbounds their missing client list |
| `NodeConfig.EnsureApiServices` | app/xray/config.py:325-336 | the API section gets its missing tag and, in order, its missing services |
| `NodeConfig.ApplyApi` | app/xray/config.py:266-322 | an own API inbound is readdressed; otherwise inbound, rule, fresh statistics and forced policies are added |
| `NodeConfigProperties.InboundCheckMeans` | app/xray/config.py:338-362 | the inbound tag check passes exactly for distinct non-empty tags without commas |
| `NodeConfigProperties.OutboundCheckMeans` | app/xray/config.py:338-362 | the outbound tag check passes exactly for distinct non-empty tags |
| `NodeConfigProperties.MergedTagsDistinct` | app/xray/config.py:76-96 | merged tags are distinct and non-empty exactly when no enabled row doubles an excluded tag of the template |
| `NodeConfigProperties.MergedEmptyExactlyWhen` | app/xray/config.py:76-137 | nothing is left of the entries exactly when no row of the node is enabled and disabled rows shadow every entry of the template |
| `NodeConfigProperties.GeneratesExactlyWhen` | app/xray/config.py:192-216 | a config is generated exactly when neither inbounds nor outbounds are all shadowed and no enabled inbound row doubles an excluded entry of the template |
| `NodeConfigProperties.SameConfigExactlyWhen` | app/xray/config.py:179-336 | a config comes out the same from two views exactly when they differ only in what is filled in or overwritten: log files, settings and client lists, API services, and either the address of an own API inbound or statistics and forced policies |
| `NodeConfigProperties.ServicesSameExactlyWhen` | app/xray/config.py:325-336 | two lists of services are completed to the same exactly when one is the other with some of what would be added to it |
| `PanelRuns.ReachableConfigsGenerateExactlyWhen` | app/xray/config.py:338-362 | the same in every state reachable by any requests, rejected ones included |
| `PanelRuns.EnabledRowsSuffice` | app/xray/config.py:338-362 | in every reachable state without rows on excluded tags, an enabled inbound and an enabled outbound row of the node suffice |
| `RunLimits.OutboundsGetShadowed` | app/services/node_service.py:132-149 | five requests that all succeed lead from an empty panel to a node whose config has no outbounds |
| `RunLimits.ExcludedTagClashes` | app/services/system_service.py:254-277 | two requests lead to a node whose config has an inbound tag twice |
| `PanelRuns.EveryRunKeepsSound` | app/services/system_service.py:254-452 | over every run tags stay unique, read-only rows enabled, and stored templates normalized |
| `PanelRuns.SyncKeepsUnshared` | app/db/crud/routing.py:344-373 | the sync never gives a read-only rule a second node |
| `PanelRuns.CarefulRunsKeepDirtyBits` | app/services/routing_service.py:61-130 | in every state of a run in which no read-only rule gets a second node, no rejected template is stored, no accounts are filled in from a broken registry and every start is left alone, a connected node that is not pending runs exactly the config that would be generated for it now |
| `PanelRuns.UnexcludedRunsFill` | app/services/system_service.py:125-140 | over every run in which no inbound is created under an excluded tag, rejected requests included, filling in accounts never fails |
| `DirtyBits.RunsKeepDirtyBits` | app/utils/node_restart_state.py:8-27 | the same with the weaker condition that a template change keeps the other nodes' planned orders, for every interleaving of requests and starting threads in which a config is delivered to a marked node or undisturbed, and the mark cleared undisturbed |
| `DirtyBits.UndisturbedIsFresh` | app/xray/operations.py:350-355 | as long as no request marks or writes the node and no other thread restarts it, a thread holds exactly the config that would be generated now |
| `DirtyBits.StepKeepsDirtyBits` | app/services/system_service.py:254-452 | each edit, reassignment, reorder, template change and removal, and each step of a start, keeps dirty bits sound: whoever is not marked would be given the same config |
| `DirtyBits.OperationsKeepSound` | app/db/crud/proxy_inbounds.py:181-227 | every operation, whatever its outcome, keeps unique tags and ids and read-only rows enabled |
| `DirtyBits.AcceptsExactly` | app/db/crud/routing.py:236-247 | the sync of a normalized template succeeds exactly when no wanted tag is editable or held by another node with other content |
| `DirtyBitConditions.FillingSoundExactlyWhen` | app/services/system_service.py:261-311 | storing an inbound row is sound exactly when accounts can be filled in, or each unmarked running node that the row was or is assigned to sees no difference |
| `DirtyBitConditions.LateApplySoundExactlyWhen` | app/xray/operations.py:352-355 | clearing the mark after a disturbed start is sound exactly when the node is gone from the connected ones or the view it was loaded from differs from the present one only in what the generator fills in or overwrites |
| `DirtyBitConditions.LateDeliverySoundExactlyWhen` | app/xray/operations.py:350-352 | delivering such a config is sound exactly when the node is marked or the two views differ in no more than that |
| `DirtyBitConditions.RejectedTemplateSoundExactlyWhen` | app/services/node_service.py:140-147 | a rejected template leaves dirty bits sound exactly when the node is stopped or marked, or the templates differ only in rules, in entries that rows of the node manage, and in what the generator fills in or overwrites |
| `DirtyBitLimits.RejectedTemplateGoesUnnoticed` | app/services/node_service.py:140-147 | a state in which a rejected template leaves a running node stale and unmarked |
| `DirtyBitLimits.FillingFailsAfterCommit` | app/services/system_service.py:261-276 | a run in which a stored inbound leaves its started node stale and unmarked, because filling in accounts fails |
| `DirtyBitLimits.EditBetweenLoadAndClear` | app/xray/operations.py:350-355 | a run in which an edit between load and clear loses its mark |
| `DirtyBitLimits.SharedRuleMoves` | app/db/crud/routing.py:351-355 | a shared read-only rule moves on the other node when one node is synced |
| `PanelStore.Store.MarkNodesPendingRestart` | app/utils/node_restart_state.py:8-12 | adds the nodes to the pending set and nothing else |
| `PanelStore.Store.ClearNodePendingRestart` | app/utils/node_restart_state.py:15-17 | takes the node out of the pending set and nothing else |
| `PanelStore.Store.SyncReadonlyNodeConfig` | app/db/crud/routing.py:200-375 | commits exactly the synced tables, or fails with the first error and commits nothing |
| `PanelStore.Store.ModifyNodeConfigTemplate` | app/services/node_service.py:132-149 | the handler is the template step of the transition system and keeps the store valid |
| `PanelStore.Store.CreateInboundConfig` | app/services/system_service.py:254-277 | the handler is the corresponding step: all rows validated together, the row committed, accounts filled in if the registry can be built, and marks only then |
| `PanelStore.Store.ModifyInboundConfig` | app/services/system_service.py:280-311 | the handler is the corresponding step; accounts are filled in only when the row becomes enabled, and marks come after that |
| `PanelStore.Store.DeleteInboundConfig` | app/services/system_service.py:314-329 | the handler is the corresponding step; hosts and exclusions of the tag go with the row |
| `PanelStore.Store.ModifyInboundNodes` | app/services/system_service.py:420-452 | the handler is the corresponding step and marks both node sets of each row that really changes |
| `PanelStore.Store.CreateOutboundConfig` | app/services/system_service.py:343-358 | the handler is the corresponding step |
| `PanelStore.Store.ModifyOutboundConfig` | app/services/system_service.py:361-389 | the handler is the corresponding step, marking the old and the new nodes |
| `PanelStore.Store.DeleteOutboundConfig` | app/services/system_service.py:392-407 | the handler is the corresponding step, marking the old nodes |
| `PanelStore.Store.CreateRoutingRule` | app/services/routing_service.py:47-58 | the handler is the corresponding step; a missing position is one past the last |
| `PanelStore.Store.ModifyRoutingRule` | app/services/routing_service.py:86-111 | the handler is the corresponding step, marking the old and the new nodes |
| `PanelStore.Store.ReorderRoutingRules` | app/services/routing_service.py:61-83 | the handler places a complete list of ids, and marks the nodes of the rules that move |
| `PanelStore.Store.DeleteRoutingRule` | app/services/routing_service.py:114-130 | the handler is the corresponding step |
| `PanelStore.Store.AddNewNode` | app/services/node_service.py:82-113 | the handler is the corresponding step; a node whose template cannot be synced is removed again |
| `PanelStore.Store.RemoveNodeConfig` | app/services/node_service.py:744-757 | the handler is the corresponding step; shared rows survive without the node |
| `PanelStore.Store.ModifyNodeSettings` | app/services/node_service.py:229-243 | the handler is the corresponding step: the settings change and the node is disconnected |
| `PanelStore.Store.LoadForStart` | app/xray/operations.py:326-350 | a thread loads the config, or is over; a failed restart disconnects the node |
| `PanelStore.Store.DeliverConfig` | app/xray/operations.py:352-354 | the node starts with the loaded config |
| `PanelStore.Store.FinishStart` | app/xray/operations.py:354-359 | the mark is cleared if the config was delivered |
| `PanelStore.Store.RestartNode` | app/xray/operations.py:370-402 | a thread that nobody interrupts leaves its node unmarked and up to date, and the dirty bits sound |
| `PanelStore.Store.Perform` | app/services/system_service.py:254-452 | any request or thread step is one step of the transition system and keeps the store valid, and the dirty bits sound where that step allows it |
| `PanelStore.Store.PerformAll` | app/utils/node_restart_state.py:8-27 | any sequence of them takes the store through a run, and a careful run keeps the dirty bits sound |
| `Registry.TemplateSupportInbounds` | app/utils/xray_config_registry.py:43-58 | the loops collect one entry for each excluded tag that some template uses |
| `Registry.GetEnabledInboundRegistry` | app/utils/xray_config_registry.py:75-94 | the registry is built exactly when no enabled row doubles an excluded entry of a template, and lists the supported enabled contents |
| `Registry.RegistryBuildsExactlyWhen` | app/utils/xray_config_registry.py:75-94 | the checks of the registry's own config pass exactly under that condition |
| `Registry.InboundFitsExactlyWhen` | app/services/system_service.py:83-101 | new inbound content passes the check of all rows together exactly when its tag is usable and no other row, enabled or not, doubles an excluded entry of a template |
| `Registry.OutboundFitsExactlyWhen` | app/services/system_service.py:104-122 | the same for new outbound content and all inbound rows |
| `Accounts.NormalizeUserInbounds` | app/utils/xray_config_registry.py:136-173 | the loop yields the selection per protocol, or the first unknown tag, or fails where the registry cannot be built |
| `Accounts.SelectionRoundTrip` | app/db/models/users.py:88-108 | selecting tags, storing the complement and reading back gives the selected set in registry order |
| `Accounts.EnsureProtocolInboundsForUsers` | app/db/crud/proxy_inbounds.py:61-111 | every user without the protocol gets an account that leaves out the protocol's other stored tags, and nobody else changes |
| `Accounts.ExcludeProtocolInboundsForUsers` | app/db/crud/proxy_inbounds.py:114-155 | every account of the protocol leaves out the stored tags as well |
| `Accounts.AutoAssignAddsTheTag` | app/services/system_service.py:267-272 | a new enabled inbound with auto-assign gives every user exactly that tag on its protocol and changes no other protocol |
| `Accounts.ManualInboundChangesNobody` | app/services/system_service.py:267-275 | without auto-assign no user's inbounds change |
| `SyncClients.TemplateKeepsClientsExactlyWhen` | app/db/crud/routing.py:268-279 | after a sync every user has the same clients on another node's inbounds exactly when nobody without an account for such an inbound's protocol meets a new inbound of that protocol in a template without this one |
| `SyncClients.AccountReachesOtherNode` | app/db/crud/proxy_inbounds.py:61-111 | a sync of node 1 that gives a user a client on node 2 |
| `NodeClients.IncludeDbUsers` | app/xray/config.py:620-690 | the loops give the config, under each tag and email, exactly the client its inbound and the user's account ask for, XTLS flows stripped where they do not apply |
| `NodeClients.ConfigMatchesRows` | app/xray/config.py:620-690 | a config whose account inbounds are the node's enabled rows holds exactly the clients those rows ask for |
| `NodeClients.GeneratedConfigServesRows` | app/xray/config.py:76-96 | a generated config is such a config when every account inbound of the template is a row's |
| `UserThreads.ConvergesExactlyWhen` | app/xray/operations.py:94-118 | whatever the interleaving, a finished run leaves what is wanted in a cell exactly when it was held or promised at the start |
| `UserThreads.CanFinish` | app/xray/operations.py:94-118 | every partial run can be continued to a finished one |
| `UserSync.RestartInboundNodes` | app/xray/operations.py:70-79 | one restart per running node that has one of the tags |
| `UserSync.AddUser` | app/xray/operations.py:122-176 | the loops spawn exactly the threads of the specification |
| `UserSync.UpdateUser` | app/xray/operations.py:206-275 | the loops spawn exactly the threads of the specification: alters for active tags, removals for the others |
| `UserSync.RemoveUser` | app/xray/operations.py:179-203 | the loops spawn one removal per running node and assigned tag |
| `UserSyncProperties.UpdateConverges` | app/xray/operations.py:206-275 | after a change of a served user and all its calls, in any order, every cell of a node that was up to date holds what is wanted now |
| `UserSyncProperties.RemoveConverges` | app/xray/operations.py:179-203 | the same for a user who is deleted or no longer served |
| `UserSyncProperties.AddConvergesExactlyWhen` | app/xray/operations.py:122-176 | add_user brings a node up to date exactly when what it holds of the user is nothing or still wanted, or the node is restarted |
| `UserSyncProperties.AddLeavesOldClient` | app/xray/operations.py:122-176 | a node that holds an older client keeps it through add_user |
| `UserSyncProperties.AddKeepsOthers` | app/xray/operations.py:122-176 | add_user keeps every cell that was right |
| `UserSyncProperties.IncrementalEqualsRegenerated` | app/xray/operations.py:94-275 | a node that held exactly the clients of its config holds exactly those of the regenerated config when all calls have been made |
| `UserSyncProperties.CreationEqualsRegenerated` | app/xray/operations.py:122-176 | the same for a user who is created or served again, through add_user |
| `UserOverlaps.EveryOrderExactlyWhen` | app/xray/operations.py:94-118 | calls of the shapes that changes spawn leave a wanted cell in every order exactly when each thread is fine for it and something makes up for what it holds |
| `UserOverlaps.OverlapConvergesExactlyWhen` | app/xray/operations.py:206-275 | when the calls of two changes of one user overlap, every order leaves the newer client exactly when the older change leaves the cell alone or wants the same there |
| `UserOverlaps.OlderClientStays` | app/xray/operations.py:108-118 | two changes of a secret and an order of their calls that leaves the older one |
| `SqlLiteralProperties.EscapeIsOnePass` | app/utils/backups.py:71-90 | the chain of replacements equals one pass over the characters |
| `SqlLiteralProperties.LiteralRoundTrip` | app/utils/backups.py:71-90 | MySQL reads every written literal back as the value stored |
| `SqlDump.DumpMysqlDatabase` | app/utils/backups.py:93-138 | the loops write the specified lines, each ended by a line break |
| `SqlDump.DumpSql` | app/utils/backups.py:93-138 | the statements among those lines are exactly those of the database, in order |
| `SqlDumpProperties.LinesSplit` | app/utils/backups.py:169-230 | splitting well-formed lines yields their statements, comments and blank lines dropped |
| `SqlSplitter.SplitSqlStatements` | app/utils/backups.py:169-230 | the scanning loop, with its forward jumps over comments, collects exactly what the automaton emits |
| `SqlSplitterProperties.SplitComposes` | app/utils/backups.py:169-230 | if scanning the first text ends outside quotes and comments, splitting both around a semicolon is splitting each |
| `SqlSplitterProperties.StatementsTrimmed` | app/utils/backups.py:222-230 | every statement is non-empty and without outer white space |
| `SqlIdentifiers.IdentifierSurvivesExactlyWhen` | app/utils/backups.py:67-68 | a quoted identifier comes back as one statement exactly when it is backslash-safe |
| `SqlIdentifiers.TrailingBackslashIsLost` | app/utils/backups.py:67-68 | a name that ends in one backslash does not come back |
| `SqlIdentifiers.NoBackslashIsSafe` | app/utils/backups.py:67-68 | identifiers without backslashes are safe |
| `SqlRoundTrip.LiteralWhole` | app/utils/backups.py:71-90 | a written literal holds no comment and no semicolon outside quotes, and closes its quotes |
| `SqlRoundTrip.DumpSplits` | app/utils/backups.py:93-230 | splitting a dump returns exactly the written statements in order, whatever the values hold, for safe names and CREATE texts |
| `SqlRoundTrip.DumpAndSplit` | app/utils/backups.py:233-240 | writing and then splitting gives the statements to restore |
| `Calendar.NextDayOrdinal` | app/db/crud/stats.py:39-50 | the calendar's next day is the next ordinal |
| `Calendar.FromOrdinalOf` | app/db/crud/stats.py:22-36 | dates and ordinals undo each other, so the calendar has no gaps or repetitions |
| `BucketLists.InBucketExactlyWhen` | app/db/crud/stats.py:22-50 | a moment lies between a bucket's start and the next one exactly when the bucket is its own |
| `BucketLists.ListedExactlyWhen` | app/db/crud/stats.py:66-70 | the list holds exactly the bucket starts between the first and the last |
| `BucketLists.ListIncreases` | app/db/crud/stats.py:66-70 | the list is strictly increasing |
| `BucketLists.BucketList` | app/db/crud/stats.py:66-70 | the loop ends and builds that list |
| `StatsBuckets.CalendarLawful` | app/db/crud/stats.py:22-50 | hours, days, weeks and months are lawful: every moment lies in its own bucket and no bucket starts inside another |
| `StatsHistory.GetStatsHistory` | app/db/crud/stats.py:53-150 | the loops give, per node and bucket, the traffic of the rows that fall into it, and per bucket the users created in it with the running total and the growth over the bucket before |
| `StatsConservation.WindowCovered` | app/db/crud/stats.py:61-70 | every moment of the window has its bucket in the list, for any clock that never runs backwards |
| `StatsConservation.TrafficConserved` | app/db/crud/stats.py:72-106 | the points of a node add up to its traffic in the window |
| `StatsConservation.LastTotalCountsEverybody` | app/db/crud/stats.py:108-142 | the last running total counts everybody created up to the end of the window |
| `StatsConservation.HistoryConserves` | app/db/crud/stats.py:53-150 | both hold of the answer to any query |
| `StatsConservation.FixedOffsetConserves` | app/db/crud/stats.py:53-150 | in particular for a time zone at a fixed offset |
| `UsageRecords.GetUsersStats` | app/jobs/record_usages.py:112-120 | the accumulator has exactly one entry for each user with traffic, and the entry is all its bytes |
| `UsageRecords.RecordUserUsages` | app/jobs/record_usages.py:132-180 | every user grows by its increment and is online now if some node reported traffic, every admin grows by its entry, and nothing else changes |
| `UsageRecords.IncrementBounds` | app/jobs/record_usages.py:146-151 | with k reporting nodes the increment lies above the exact weighted sum less k, and not above the sum |
| `UsageRecords.AdminUsageMeans` | app/jobs/record_usages.py:159-163 | an admin is charged exactly what the users it owns are charged together |
| `UsageRecords.RecordNodeUsages` | app/jobs/record_usages.py:188-219 | the system row grows by what all nodes report, and each node's hourly row by what that node reports |
| `UsageRecords.SystemGrowthIsNodesGrowth` | app/jobs/record_usages.py:188-219 | in each direction the system grows by exactly what the nodes' rows grow by together |
| `Base64Url.UnpaddedRoundTrip` | app/utils/jwt.py:49-72 | stripping the padding, padding by length and decoding gives the bytes back |
| `SubscriptionTokens.TokenRoundTrip` | app/utils/jwt.py:49-92 | parsing a minted token returns the username and the rounded-up second, and never takes it for a JWT |
| `SubscriptionTokens.AcceptedExactlyWhen` | app/dependencies.py:78-93 | a minted token is accepted exactly when creation and revocation are not after the rounded-up second, so always when it is minted at or after both |
| `Notifications.Queue.Notify` | app/utils/notification.py:109-111 | appends the notice when webhooks are set and does nothing otherwise |
| `Notifications.Queue.Drain` | app/jobs/send_notifications.py:61-72 | the loop empties the queue into the batch and the dropped, under any clock that gets past every send time |
| `Notifications.Queue.SendNotifications` | app/jobs/send_notifications.py:56-84 | one run sends a batch and requeues it with one more try and a later time if it fails |
| `NotificationHistory.FailedBatchCosts` | app/jobs/send_notifications.py:75-84 | a failed batch lowers the summed remaining attempts by its size |
| `NotificationHistory.SendingKeepsSound` | app/jobs/send_notifications.py:56-84 | a run forgets no notice and leaves each in exactly one of queued, delivered and dropped |
| `NotificationHistory.EveryRunIsSound` | app/jobs/send_notifications.py:56-84 | over every history a notice enters at most limit + 1 batches and is always in exactly one place |
| `UserLifecycle.DbUser.constructor` | app/db/crud/users.py:221-271 | a created user has the requested status and, if on hold, a duration |
| `UserLifecycle.DbUser.Update` | app/db/crud/users.py:304-408 | the step-by-step update gives the modified state, the limit deciding before the expiry |
| `UserLifecycle.DbUser.ResetDataUsage` | app/db/crud/users.py:411-440 | usage goes to the log, the plan goes, and the status is active unless expired |
| `UserLifecycle.DbUser.ResetToNextPlan` | app/db/crud/users.py:443-478 | the plan takes effect, or the arithmetic on a missing limit fails and changes nothing |
| `UserLifecycle.DbUser.StartExpire` | app/db/crud/users.py:717-734 | the hold duration becomes an expiry |
| `UserLifecycle.ReviewActiveUsers` | app/jobs/review_users.py:58-96 | the first loop reviews the users in turn up to the first one that stops it |
| `UserLifecycle.Review` | app/jobs/review_users.py:58-119 | one pass stops at the first user that stops it and leaves what the specification says of everybody, those behind included |
| `UserLifecycle.DbUser.RecordUsage` | app/jobs/record_usages.py:166-176 | recording adds to the usage and sets the time online |
| `UserLifecycleProperties.ReviewOfAll` | app/jobs/review_users.py:58-119 | the job is stopped by exactly the first active, expired user without a limit whose plan hands over the rest; that user, everybody behind and everybody on hold stay as they were; in front of it, or if there is none, nobody who fired no plan stays active over the limit or past the expiry; nobody's lifetime traffic changes |
| `UserLifecycleProperties.JobStops` | app/db/crud/users.py:466-471 | two users are created with an expiry, the first one's plan stops the job, and the second stays active past the expiry |
| `UserLifecycleProperties.EveryLife` | app/models/user.py:207-216 | in every state of every life a user on hold has a duration, and the lifetime traffic is what was recorded since the last reset of all users |
| `EndpointNames.RemarkValidation` | app/subscription/singbox.py:36-44 | the search ends after at most one probe more than there are names, with a name not yet used |
| `EndpointNames.Pigeonhole` | app/subscription/clash.py:70-78 | no more candidates can be taken than there are names |
| `EndpointOrder.CollectTargets` | app/subscription/share.py:409-438 | every host of every known tag under a protocol with an account becomes a target, nothing else does, sequence numbers are their places, and no host comes twice if none is listed twice |
| `EndpointOrder.SortedKeepsHosts` | app/subscription/share.py:441-441 | sorting keeps all targets and keeps their hosts apart |
| `EndpointOrder.SortedMeans` | app/subscription/share.py:441-441 | sorting permutes the targets into the order of their keys |
| `EndpointOrder.SortedByPositionAndId` | app/subscription/share.py:351-352 | endpoints are emitted by position and then id, missing numbers last |
| `SubscriptionEndpoints.Configuration.Add` | app/subscription/singbox.py:289-367 | an endpoint the client supports gets a new name in the endpoints and in the default list, any other changes nothing |
| `SubscriptionEndpoints.Configuration.ProcessEndpoints` | app/subscription/share.py:514-589 | the loops yield the names, the balancers that have tags, and the default list without assigned tags |
| `SubscriptionEndpointProperties.TagsDistinct` | app/subscription/share.py:549-555 | all endpoint tags of a run are distinct |
| `SubscriptionEndpointProperties.DefaultOrBalanced` | app/subscription/share.py:556-566 | each tag is in the default list or in some balancer, never in both |
| `SubscriptionEndpointProperties.BalancedExactlyWhenSelected` | app/subscription/share.py:514-521 | a balancer holds an endpoint's tag exactly when it selects its host |
| `SubscriptionEndpointProperties.DefaultExactlyWhenFree` | app/subscription/share.py:556-566 | an endpoint stays in the default list exactly when no enabled balancer selects its host |
| `SubscriptionPipeline.BuildSubscriptionHostsByInbound` | app/subscription/share.py:195-228 | the loop lists the enabled hosts under their inbounds, in order |
| `SubscriptionPipeline.RecordsAreShown` | app/subscription/share.py:409-503 | the endpoint records are exactly the enabled hosts on known inbounds of the user, each once |
| `SubscriptionPipeline.ProcessInboundsAndTags` | app/subscription/share.py:377-589 | the whole way: records as said and sorted, all tags distinct, and each in the default list exactly when no enabled balancer selects its host |

## Left out

- Transports, gRPC and REST calls, certificates, geo resources, logs, bots, the dashboard and the command line are input and output around libraries.
- SQLAlchemy is taken as tables, commit and rollback; column rounding and the truncation of group_concat are left out.
- Routing rules are their tags, type, targets and the canonical text of the rest; template entries that are not objects, and sections of the wrong JSON type, are left out.
- Resolving an inbound to network, TLS and header type is a function of its content; fallbacks and the rest of that method are left out.
- The file names of the access and error log carry the day's date, which a generated config leaves out.
- Random choices (account settings, SNI, host, user agent), digests and the JWT library are parameters.
- The fallback from a new node's own template to the default template of the settings happens before the template is passed in.
- Unique node names, user templates, the certificates of nodes and their associations do not reach a generated config.
- The guard against connecting twice gives no exclusion between threads and is left out.
- `PanelStore.Store.LoadForStart`: reads the node's row and its assigned rows in one step, where the code uses several queries.
- `ConfigTemplate.NormalizeXrayConfigTemplate`: does not reject inbounds whose transport cannot be resolved, because resolving is left out.
- `PanelStore.Store.CreateInboundConfig`: does not reject contents whose transport cannot be resolved, for the same reason.
- `PanelStore.Store.ModifyInboundConfig`: does not reject such contents either.
- `UsageRecords.RecordUserUsages`: leaves out the hourly rows per user and node, whose column rounds.
- `DirtyBits.RunsKeepDirtyBits`: asks for accepted templates and for accounts filled in from registries that can be built, because otherwise the claim breaks; `DirtyBitConditions.RejectedTemplateSoundExactlyWhen` and `DirtyBitConditions.FillingSoundExactlyWhen` say exactly when.
- Where the registry of enabled inbounds cannot be built, reading a user's inbounds raises and no call reaches a node; the calls for a user are modelled where it can.
- `UserSyncProperties.IncrementalEqualsRegenerated`: assumes that calls to connected nodes succeed, because a failed call is only logged.
- Clients written by hand into an inbound's settings are left out; the flow of a Trojan account is not carried by the API message and is left out of its client.
- Every transport in use reports support for run-time API calls, so the branches for those that do not are left out.
- SQLite dumps, archives and the execution of restored statements are left out; so are tables whose CREATE text holds comments or bare semicolons.
- Numbers are exact; how a percentage is rounded is a parameter of the statistics.
- Daylight saving time: a clock is any function that never runs backwards, which a fixed offset is.
- What `int()` accepts beyond plain digits, and usernames beyond ASCII, are parameters of the token parser.
- Balancers of the V2Ray JSON format, clients without balancers, and the per-format builders of outbounds copy fields and would add only easy members.
- Notification reminders, automatic deletion of expired users and the text of notifications are left out.
- In app/db/crud/users.py line 430 a membership test takes a single string, so everybody but an expired user becomes active; the model follows the code. The sense of `add_remaining_traffic` in lines 467-468 follows the code too.
- The route that activates a next plan checks the plan after clearing it (app/services/user_service.py:283-289); only the reset it calls is modelled.
