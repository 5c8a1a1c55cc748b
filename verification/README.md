# Verification of the generated entity layer

This project models the entity layer of the repository's `ent/` directory in Dafny and proves what its queries, mutations,
builders, hooks and transactions do. It covers one or two entities per pattern; the generated code of the other entities is the same text with
other names. `dafny verify dfyconfig.toml` checks everything.

## The modules

- `Schema`, `Store`: columns, edges and cells, and the abstract database that stands in for the SQL layer.
- `Plan`: what running a query tree means, as a function from the contents of the tree and the store to the contents it is left with and the nodes or
  the error it returns. `Nodes` and `QueryObjects` hold the code itself: entity objects that point at each other, the loops of the loaders, the builder objects with
  their contexts and sub-builders. `Query.All` is proved to do what `Plan.Run` says. `EagerLoad`, `Projection`, `Rerun`, `BuilderCalls`, `SlotHistory`, `EdgePaths`,
  `StaleKeys`, `LostEdges`, `Accessors`,
  `FirstOnly` and `CloneReuse` prove the laws of queries.
- `EdgeHistory`, `SelectedFields`, `TenantMutations`, `DeviceTokens`, `PluginInstalls`, `OldValues`: mutation objects, the builders that lower them, reading rows back, and the
  remembered old values. What a save stores is stated in terms of the calls that were made.
- `HookChains`, `CreateBuilders`: single and bulk creates through hooks. `HookChains` says what a run does, `CreateBuilders` holds the arrays, the mutators and the
  mutation objects and is proved to do it.
- `Transactions`, `Membership`, `CompletionHooks`: drivers, transactions and clients as a state machine over runs, and the hooks of
  Commit and Rollback.

## Assumptions

- A query returns the rows of its table that match all its predicates, in an order that is some function of the order terms and those rows, cut to its page, where a limit or
  offset of zero is none. Ids are
  unique within a table and the foreign keys of many-to-one edges are not NULL, as `ent/migrate/schema.go` declares. Since the id is always selected, a DISTINCT has
  no effect.
- An update spec applies its clears before its additions, a clear without targets unlinks everything over its edge, and an accepted update changes only the rows it
  matches. Whether the store accepts is a free input; a refused write changes nothing.
- A column that is both set and cleared gets a value of the store's choosing. An inserted row has NULL in every column its spec does not name.
- A transaction's statements take effect together when its connection commits, and never otherwise; a commit that fails publishes nothing.
- Validators, default values, the clock and the driver's failures are parameters.

## Findings

Each is proved for all inputs, with the exact condition where there is one.

- A query object that is reused after its rows changed, or under a larger limit, may lose edges at any depth, because every run that loads an edge leaves one more key
  set on the edge's builder. After any history of calls and runs the edges at the end of any path are right iff no row they need was outside an earlier key set of
  their builder (`StaleKeys.ListsRightIff`, `StaleKeys.PointersRightIff`; inputs: `LostEdges.LargerLimitLosesEdges`, `LostEdges.NewMemberLosesUser`). On a unique edge the
  accessor then answers not-found for a neighbour the store has (`StaleKeys.WrongNotFoundIff`). First and Only also leave their limit behind (`FirstOnly.LimitSticks`).
- In a bulk create the check looks at the builder's own mutation before it is replaced by the one a hook handed down, unlike in a single create. So, with hooks
  that edit nothing and call on at most once, a row escapes the check iff the batch is stored and one of the mutations handed down does not meet it
  (`HookChains.SwapEscapesIff`; an input: `HookChains.SwapEscapesCheck`).
- A bulk create's Save can report success with nothing stored. It takes a hook that replies with success on its own, without which success can be trusted
  (`HookChains.SuccessIsStored`): by not calling on, which also marks the earlier mutations as saved (`HookChains.ShortCircuitReportsSuccess`), or by replacing the error
  of the call it made (`HookChains.SwallowedError`). The exact condition, for hooks that edit nothing and call on at most once, is `HookChains.FalseSuccessIff`.
- The guard on remembered old values looks at the mutation the closure was made for. When a hook handed down another one, a first call after the
  save answers with the new value, against the documented error (`OldValues.FirstCallAfterSave`).
- Clearing the tenant edge of a plugin install leaves its column in the set of cleared fields for good, and the list of cleared fields does not name it
  (`PluginInstalls.ReportedCleared`). The update check, whose message speaks of clearing a required edge, refuses it only when a tenant was
  also set since the last reset (`PluginInstalls.CheckAfter`).
- The debug client of a transactional client may start a transaction within a transaction; its Commit and Rollback do nothing, so atomicity is kept
  (`Transactions.DebugGetsRoundTheGuard`, `Membership.TransactionAtomicity`).

## Model

| member | source | states |
|---|---|---|
| `Store.FetchContract` | ent/tenant_query.go:608-646 | a query returns matching rows of its table, each once; without limit and offset it returns all of them |
| `Store.FetchIsPage` | ent/tenant_query.go:608-646 | the returned rows stand next to each other in what the store returns in the order asked for, from the offset on and no more than the limit |
| `Plan.Run` | ent/tenant_query.go:426-504 | running a query changes nothing of it but the contents of its eager-load queries, and keeps the tree well formed |
| `Plan.LoadEdges` | ent/tenant_query.go:478-503 | loading leaves a fitting builder in exactly the slots that were requested |
| `EagerLoad.LoadEdgesResult` | ent/tenant_query.go:478-503 | on every node loading sets the slots from the first one on to the joins of their sub-queries, and keeps its fields, its flags, its earlier slots and one place per edge |
| `EagerLoad.SelectedColumns` | ent/tenantuser_query.go:533-547 | whatever is projected, the id is selected first and exactly once, every projected column is selected, and so are the foreign keys of requested many-to-one edges |
| `EagerLoad.SelectedIff` | ent/tenant_query.go:608-624 | a column is selected iff it is the id, a projected one (any one, when none is projected) or the foreign key of a requested many-to-one edge |
| `EagerLoad.NarrowSelectsKey` | ent/tenant_query.go:516-518 | the sub-query of a loader returns the column the loader joins on, under every projection |
| `EagerLoad.RunResult` | ent/tenant_query.go:478-503 | the nodes of a successful run hold, slot by slot, the join of the slot's sub-query or nothing when it was not requested |
| `EagerLoad.NeighborRows` | ent/tenant_query.go:519-523 | the returned neighbours are stored rows, each once, that the sub-query accepts and whose key was asked for; all such rows when the sub-query is unpaged |
| `EagerLoad.NeverUnexpected` | ent/tenantuser_query.go:472-475 | over a store that honours its predicates a query tree with valid columns never fails: the unexpected-foreign-key errors are unreachable |
| `EagerLoad.FailsBecause` | ent/tenant_query.go:437-441 | a run that fails names a column that some query of the tree projects and its entity does not have |
| `EagerLoad.RootFailsFirst` | ent/tenant_query.go:437-441 | the first projected column the entity does not have is reported at once, with nothing changed |
| `EagerLoad.OneToManyJoin` | ent/tenant_query.go:506-535 | each parent's list is the subsequence of returned children whose foreign key is its id, and it links exactly what a nested loop links |
| `EagerLoad.ManyToOneJoin` | ent/tenantuser_query.go:456-484 | each row points at the one returned neighbour its key names, for an unpaged sub-query iff the store has one, and at nothing otherwise: a left outer join |
| `EagerLoad.ListsPartitionNeighbors` | ent/tenant_query.go:525-533 | the lengths of all parents' lists sum to the number of returned children |
| `EagerLoad.ListLengthsSum` | ent/tenant_query.go:525-533 | over parents with distinct ids every child whose key is some parent's id is in exactly one list |
| `EagerLoad.ListsKeepOrder` | ent/tenant_query.go:525-533 | a loaded list keeps the order in which its nodes were returned and leaves none of them out |
| `EagerLoad.JoinsAreInverse` | ent/role_query.go:412-441 | a child is in a parent's loaded list iff the child's loaded parent is that parent (roles and permissions, tenants and tenant users, and the other pairs) |
| `EagerLoad.NodeRow` | ent/tenant_query.go:608-624 | node i comes from row i of the page and holds a cell iff the row has it, it is not NULL and the caller wants its column, and then that very cell; so the id and the keys of requested edges are the row's |
| `Projection.ProjectionKeepsLinks` | ent/tenantuser.go:91-144 | two queries that differ only in projected columns, at any depth, load trees that link the same ids, and agree on every column both select |
| `Rerun.RerunStable` | ent/tenantuser_query.go:498-499 | running one query object any number of times over an unchanged store returns the same nodes and edges every time, at every depth |
| `Rerun.RunTwice` | ent/tenant_query.go:519-521 | a second run returns what the first did and leaves an object that accepts the same rows, although it has more predicates |
| `Rerun.SameRuns` | ent/tenant_query.go:452-504 | queries whose predicate lists accept the same rows return the same nodes and stay equivalent |
| `SlotHistory.SlotFollows` | ent/tenant_query.go:516-524 | an eager-load builder is where its own calls take it, those made on it and those of the loader in every run that got as far as loading it, whatever else is done with the query that holds it |
| `SlotHistory.KeySetsAccumulate` | ent/tenant_query.go:519-521 | after any history of calls on a query and on the builders below it, of runs over any stores, failed ones included, an eager-load builder has exactly the predicates asked of it and one key set per run that loaded it |
| `EdgePaths.Along` | ent/tenant_query.go:525-533 | the nodes reached over any path of eager-loaded edges are exactly those that the builder at its end returns, after the history it got from all calls and loaders above it |
| `StaleKeys.ListsRightIff` | ent/tenant_query.go:519-535 | after any history, at the end of any path of edges: a list edge links what a nested loop over the predicates asked for links iff no row it needs was outside an earlier key set of its builder |
| `StaleKeys.PointersRightIff` | ent/tenantuser_query.go:469-484 | after any history, at the end of any path: over a unique edge every node points at its stored neighbour, or at nothing when there is none, under the same condition and only then |
| `StaleKeys.WrongNotFoundIff` | ent/tenantuser.go:51-71 | after any history, at the end of any path: the accessor of a unique edge answers not-found for a neighbour the store has iff the condition fails |
| `LostEdges.LargerLimitLosesEdges` | ent/tenant_query.go:519-535 | an input that loses an edge: fetching one tenant and then two through one query object, the second tenant comes without the member the store links to it |
| `LostEdges.TwoTenantsExist` | ent/migrate/schema.go:135-181 | the store of that input exists |
| `LostEdges.NewMemberLosesUser` | ent/tenantuser_query.go:469-484 | an input that loses one below a right list: the tenant gains a member between two runs, the list of members is right, and the new member's accessor answers not-found for a stored user |
| `LostEdges.GainsMemberExists` | ent/migrate/schema.go:135-181 | the stores of that input exist |
| `Accessors.OneReports` | ent/tenantuser.go:51-71 | a unique edge reports not-loaded iff it was not requested, and not-found iff it was and its sub-query, whatever its page, returned no such neighbour; for an unpaged one, iff the store has none that the sub-query accepts |
| `Accessors.ManyReports` | ent/tenant.go:50-75 | a list edge reports not-loaded iff it was not requested, and otherwise gives the joined list |
| `FirstOnly.First` | ent/tenant_query.go:146-155 | First gives the first node of the run, edges included, which is the first candidate row's; not-found iff there is none, or the error of the run |
| `FirstOnly.Only` | ent/tenant_query.go:192-205 | Only gives the one node there is, edges included, and tells none, one and more apart although it fetches two rows at most |
| `FirstOnly.LimitSticks` | ent/tenant_query.go:146-147 | the limit stays on the builder: a later All returns what the limited run fetched, and all candidates iff they fit or the limit is zero, which is none |
| `Nodes.IndexById` | ent/tenant_query.go:507-515 | collects the ids in order, indexes the parents by id, the last of equal ids winning, and gives each an empty list |
| `Nodes.AssignMany` | ent/tenant_query.go:526-533 | appends every neighbour to the list of the parent its key names; fails exactly on the first neighbour with a key that is no parent's |
| `Nodes.GroupByKey` | ent/tenantuser_query.go:457-465 | the keys without duplicates in order of first appearance, and all nodes grouped under theirs |
| `Nodes.AssignOne` | ent/tenantuser_query.go:474-482 | points every node of a neighbour's group at it; fails exactly on the first neighbour that no node refers to |
| `Nodes.AttachMany` | ent/tenant_query.go:525-535 | on the heap, attaching over a one-to-many edge gives the nodes the evaluator gives, or its error |
| `Nodes.AttachOne` | ent/tenantuser_query.go:473-484 | on the heap, attaching over a many-to-one edge gives the nodes the evaluator gives, or its error |
| `Nodes.Node.AssignValues` | ent/tenantuser.go:91-144 | assigns exactly the non-NULL cells of the selected columns |
| `QueryObjects.Query.Where` | ent/tenant_query.go:39-42 | appends predicates to this builder and leaves every other part of the tree alone |
| `QueryObjects.Query.Limit` | ent/tenant_query.go:45-48 | sets the limit of this builder's context only |
| `QueryObjects.Query.Select` | ent/tenant_query.go:413-419 | appends to the projected columns, without removing repetitions |
| `QueryObjects.Query.With` | ent/tenant_query.go:347-354 | replaces the eager-load builder of one edge by a new one it owns |
| `QueryObjects.Query.Clone` | ent/tenant_query.go:326-343 | the copy has the same contents and shares no object with the original, at any depth |
| `EagerLoad.NewBuilder` | ent/tenant_query.go:347-354 | a new builder asks for everything: its nodes are the rows of the table, each once with all its cells, and no edge is loaded |
| `QueryObjects.Query.SelectColumns` | ent/tenantuser_query.go:533-547 | the column loop computes the selected columns |
| `QueryObjects.Query.CheckFields` | ent/tenant_query.go:437-441 | reports the first projected column the entity does not have |
| `QueryObjects.Query.RunSub` | ent/tenant_query.go:516-524 | a loader narrows the sub-builder in place, runs it, and changes nothing else of the tree |
| `QueryObjects.Query.LoadMany` | ent/tenant_query.go:506-535 | the one-to-many loader on the heap does what the evaluator says, for nodes and builder tree |
| `QueryObjects.Query.LoadOne` | ent/tenantuser_query.go:456-484 | the many-to-one loader on the heap does what the evaluator says |
| `QueryObjects.Query.LoadAll` | ent/tenant_query.go:481-502 | loads the requested edges in slot order and stops at the first error |
| `QueryObjects.Query.All` | ent/tenant_query.go:245-252 | All on the builder tree refines the evaluator: same nodes or error, same contents left behind, all returned nodes new |
| `CloneReuse.UseBoth` | ent/tenant_query.go:326-343 | after Clone, any interleaving of builder calls and runs on original and copy, also on nested eager-load builders, leaves each as if the other had never been used |
| `CloneReuse.Perform` | ent/tenantuser_query.go:298-314 | one call on the objects changes the contents as the call's meaning says and only objects the builder owns |
| `EdgeHistory.IdsOf` | ent/mutation.go:2971-2976 | lists every id of an edge map once, in an order of the map's choosing |
| `EdgeHistory.LowerEdge` | ent/role_update.go:186-233 | what one edge adds to the update spec: a clear without targets drops the removals, other removals and all additions name their targets |
| `EdgeHistory.PendingMeans` | ent/mutation.go:2945-2997 | after any calls an id is pending for addition iff its last Add or Remove since the last Reset was an Add, and the edge is cleared iff a Clear followed the last Reset |
| `EdgeHistory.OutcomeMeans` | ent/role_update.go:186-233 | saving links exactly the ids whose last Add or Remove since the last Reset was Add, and those with neither that were linked when no Clear followed the last Reset |
| `EdgeHistory.LoweredEffect` | ent/role_update.go:186-233 | the block of one edge acts on that edge and leaves every other edge alone |
| `TenantMutations.TenantMutation.AddIDs` | ent/mutation.go:4042-4049 | the loop adds all ids to the edge's pending additions and leaves pending removals as they are |
| `TenantMutations.TenantMutation.RemoveIDs` | ent/mutation.go:4062-4070 | the loop takes the ids out of the pending additions and into the pending removals |
| `TenantMutations.TenantMutation.ClearEdge` | ent/mutation.go:4052-4054 | marks the edge cleared and keeps its pending ids |
| `TenantMutations.TenantMutation.ResetEdge` | ent/mutation.go:4089-4093 | forgets everything pending on one edge and nothing of the others |
| `TenantMutations.TenantMutation.SetField` | ent/mutation.go:4297-4336 | sets a known field of the right type and reports unknown fields and wrong types without a change |
| `TenantMutations.TenantMutation.ResetField` | ent/mutation.go:4381-4400 | unsets a known field and reports unknown ones without a change |
| `TenantMutations.TenantMutation.AddedEdges` | ent/mutation.go:4403-4415 | names the edges with a pending addition map, once each |
| `TenantMutations.Lower` | ent/tenant_update.go:225-359 | the spec built from a mutation, applied to any stored tenant, gives what saving the mutation means |
| `TenantMutations.UpdateMany` | ent/tenant_update.go:216-376 | updates the matching tenants and marks the mutation done iff the store accepts; a refusal leaves everything alone |
| `TenantMutations.UpdateOne` | ent/tenant_update.go:595-789 | reports, in this order, a missing id, the first invalid column, no match, a refusal, each without any change; otherwise saves and returns the selected columns of the new row |
| `TenantMutations.UpdateErrorIs` | ent/tenant_update.go:595-613 | a missing id is reported before a selected name that is no column, and that before a tenant that does not match |
| `SelectedFields.ReturnedColumns` | ent/tenant_update.go:601-613 | all columns, or the id first and the selected ones other than it; or the first selected name that is no column |
| `TenantMutations.Create` | ent/tenant_create.go:128-209 | requires slug, name and schema name, inserts under a new id or changes nothing; the row has the five columns, each with the value set or, for plan and status, the default, and no other |
| `TenantMutations.FirstUnsetIs` | ent/tenant_create.go:168-186 | a create reports the first of slug, name, plan, status and schema name that is not set |
| `TenantMutations.CreateBy` | ent/tenant_create.go:128-289 | from the first call on a real mutation to the save: the new tenant has exactly the values set last, with the default plan and status, and the links the calls ask for; no other tenant changes |
| `TenantMutations.LastSetMeans` | ent/mutation.go:4297-4400 | the value set last on a field is that of a Set which no Set and no Reset of the field follows |
| `TenantMutations.SaveFollowsCalls` | ent/tenant_update.go:225-359 | after any sequence of calls a save links over each edge exactly what the calls on that edge ask for, and stores the last values set on name, plan and status and nothing else |
| `TenantMutations.EdgeOfCalls` | ent/mutation.go:4042-4201 | a tenant's three edges do not affect each other: each is what the calls on it alone make it |
| `TenantMutations.CreateFollowsCalls` | ent/tenant_create.go:241-289 | a created tenant is linked to the ids whose last touch since the last Reset was an Add; clears play no part |
| `TenantMutations.AddedEdgesFollowCalls` | ent/mutation.go:4403-4415 | an edge is named as added iff an Add call, be it an empty one, followed its last Reset |
| `TenantMutations.UpdateBy` | ent/tenant_update.go:190-376 | from the first call on a real mutation to the save: every matching tenant ends with the links and the columns the calls ask for, every other one is untouched; a refusal leaves all of them alone |
| `TenantMutations.ImmutableColumns` | ent/tenant_update.go:225-233 | no run of creates and updates, with mutations holding anything whatever, changes slug or schema name of a tenant that exists |
| `DeviceTokens.DeviceTokenMutation.SetField` | ent/mutation.go:1229-1289 | sets a known field of the right type, does not unmark it as cleared, reports the rest |
| `DeviceTokens.DeviceTokenMutation.ClearField` | ent/mutation.go:1341-1357 | unsets and marks a nullable field, refuses the others |
| `DeviceTokens.DeviceTokenMutation.ResetField` | ent/mutation.go:1361-1389 | unsets and unmarks |
| `DeviceTokens.DeviceTokenMutation.ClearedFields` | ent/mutation.go:1315-1330 | lists exactly the keys of the cleared set, once each |
| `DeviceTokens.ValueFollowsCalls` | ent/mutation.go:883-929 | after any calls a field has a value iff the last call that touched it was a Set, and then that value |
| `DeviceTokens.ClearedFollowsCalls` | ent/mutation.go:1097-1112 | after any calls a field is marked cleared iff a Clear followed its last Reset |
| `DeviceTokens.Lower` | ent/devicetoken_update.go:218-250 | an update sends every set field but the creation time, and clears every field marked cleared |
| `DeviceTokens.UpdateMany` | ent/devicetoken_update.go:206-262 | a refused value is reported before anything is sent; done is set iff the store accepts, and then each matching row has what was set, NULL under what was cleared, and its other cells and all other rows are untouched |
| `DeviceTokens.FirstInvalidIs` | ent/devicetoken_update.go:185-203 | the validators of token hash, user and tenant run on set values only, in this order, and the first refusal is reported |
| `DeviceTokens.UpdateOne` | ent/devicetoken_update.go:460-537 | reports, in this order, a failing validator, a missing id, an invalid column, no match, a refusal, each without any change; otherwise saves and reads the new row back through the selected columns |
| `DeviceTokens.UpdateErrorIs` | ent/devicetoken_update.go:460-500 | the order of the errors: a refused value, a missing id, a selected name that is no column, no match, a refusal of the store |
| `DeviceTokens.SaveFollowsCalls` | ent/devicetoken_update.go:230-250 | what a save makes of a nullable field, by the last call that touched it; only a Set on top of a Clear is left to the store |
| `DeviceTokens.SaveOfRequired` | ent/devicetoken_update.go:218-229 | token hash, user and tenant get the value of the last call that touched them if it was a Set; every other column that updates do not send stays |
| `DeviceTokens.CreatedAtIsImmutable` | ent/devicetoken_update.go:218-250 | no run of creates and updates changes the creation time of a token that exists |
| `DeviceTokens.CreateSpec` | ent/devicetoken_create.go:217-260 | the spec has the values set on the mutation, its id if it has one, and nothing else; the returned entity holds the cells of the row it describes |
| `DeviceTokens.CreatedRowIs` | ent/devicetoken_create.go:217-260 | the created row has what was set under each column and NULL under every other |
| `DeviceTokens.FirstUnmetIs` | ent/devicetoken_create.go:163-192 | a create reports the first of token hash, user, tenant and creation time that is missing or refused, and passes iff there is none |
| `DeviceTokens.DefaultedIs` | ent/devicetoken_create.go:151-160 | the defaults fill in the name and the creation time where none is set and change nothing else |
| `DeviceTokens.ScanValues` | ent/devicetoken.go:40-53 | one holder per column, of the column's type, and an unknown holder for unknown columns |
| `DeviceTokens.DeviceToken.Assign` | ent/devicetoken.go:61-121 | a holder of the wrong type is an error without effect, NULL leaves the field, unknown columns are kept as selected values |
| `DeviceTokens.DeviceToken.AssignValues` | ent/devicetoken.go:57-124 | too few values, or the first mistyped one, is reported; columns before it stay assigned |
| `DeviceTokens.ReadRow` | ent/devicetoken.go:40-124 | reading a row through any columns never errors and gives exactly the cells of those columns |
| `DeviceTokens.TokenReads` | ent/devicetoken.go:57-124 | each field of an entity holds the cell of its own column, the zero value or a nil pointer when it is NULL or absent |
| `DeviceTokens.CreateThenRead` | ent/devicetoken_create.go:217-260 | reading back a created row through any list of columns that has them all, in any order, repeated or extended, gives the entity the create returned, nil pointers included |
| `PluginInstalls.PermissionsFollowCalls` | ent/mutation.go:1669-1732 | the pending list is the last Set, unless a Clear or Reset came after it, followed by everything appended since the last Set, Clear or Reset |
| `PluginInstalls.TenantStaysCleared` | ent/mutation.go:1735-1759 | once the tenant edge was cleared, its column stays marked as a cleared field whatever is reset |
| `PluginInstalls.TenantClearedFollowsCalls` | ent/mutation.go:1735-1759 | the edge itself is cleared iff a ClearTenant followed the last ResetTenant |
| `PluginInstalls.ReportedCleared` | ent/mutation.go:1906-1912 | the list of cleared fields is exactly the cleared set iff the tenant edge was never cleared |
| `PluginInstalls.TenantFollowsCalls` | ent/mutation.go:1562-1596 | a tenant is set iff some SetTenantID came after the last reset of the field and of the edge |
| `PluginInstalls.TenantIsLastSet` | ent/mutation.go:1562-1596 | and then it is the one set last |
| `PluginInstalls.PermissionsClearedFollowsCalls` | ent/mutation.go:1714-1732 | the permissions are marked cleared iff a Clear followed their last Reset |
| `PluginInstalls.CheckAfter` | ent/plugininstall_update.go:138-143 | after any calls the check refuses iff a ClearTenant followed the last ResetTenant and a SetTenantID the last reset of the field and of the edge |
| `OldValues.Memo.Call` | ent/mutation.go:2668-2687 | the first call fetches unless the owner is done, every later call repeats its outcome |
| `OldValues.RoleMutation.OldField` | ent/mutation.go:2769-2781 | the guards come first and leave the closure alone; then the cell of the asked column of the caller's entity as it is now, or of the row the closure fetched, or its error |
| `OldValues.Perform` | ent/mutation.go:2655-2781 | real mutations, closures and entities, shared between mutations as hooks leave them, taken through any run answer as the state machine does |
| `OldValues.OneSnapshot` | ent/mutation.go:2668-2687 | over any run, with hooks that hand mutations down, all answers of a closure, through whichever mutation, are cells of one stored row, each of the column asked for, as it was at the first call and fetched once, or one error |
| `OldValues.AskedTooLate` | ent/mutation.go:2677-2682 | if a closure was not asked before its mutation was saved every later call fails and nothing is fetched, unless that mutation is overwritten |
| `OldValues.GivenAnswers` | ent/mutation.go:2690-2697 | a mutation made for a caller's entity answers every call, before and after the save, from that entity as the caller last left it, without a fetch |
| `OldValues.FirstCallAfterSave` | ent/mutation.go:2677-2682 | a first call on a saved mutation fails iff the closure belongs to it or to another saved mutation |
| `OldValues.HookHandsDownAnother` | ent/ent.go:517-525 | after a hook handed down another mutation, a first call after the save is answered with the new value of the column |
| `HookChains.BulkAllOrNothing` | ent/tenantuser_create.go:263-315 | with pass-through hooks and distinct builders one batch, of all specs in builder order, is sent iff there is a builder and every check passes; on success every mutation is done with its own node's id, otherwise none is |
| `HookChains.ReturnedNodes` | ent/tenantuser_create.go:285-314 | and the returned entities are one per builder, each holding what its stored row holds |
| `HookChains.EditIsStored` | ent/ent.go:517-533 | what a hook sets on the mutation before it calls on is stored, along with the rest of the mutation |
| `HookChains.RetryIsStored` | ent/tenantuser_create.go:274-307 | a hook that calls on again after a refusal gets one batch stored when the store then accepts |
| `HookChains.TurnsInOrder` | ent/ent.go:517-533 | a hook may answer differently each time it is called: refused first and let through then, an outer hook that calls on twice saves once |
| `HookChains.PassThrough` | ent/tenantuser_create.go:274-307 | the exact trace: each builder's hooks around everything of the builders after it, down to the batch or the first failing check, and the exact states |
| `HookChains.Bracketed` | ent/tenantuser_create.go:303-306 | whatever hooks do and however often they call on, the trace is bracketed in the sense of the next row |
| `HookChains.EveryEvent` | ent/tenantuser_create.go:274-306 | when a hook of a bracketed trace is entered, the hooks that are open are exactly those of all earlier builders and the earlier ones of its own; when a batch is sent, all hooks are; an exit leaves the hook entered last |
| `HookChains.AroundIs` | ent/ent.go:527-532 | hooks are entered in list order and left in reverse order |
| `HookChains.SingleOnion` | ent/ent.go:510-541 | a single create through pass-through hooks: the onion around one save, and its exact effect |
| `HookChains.SingleIsChecked` | ent/devicetoken_create.go:194-215 | whatever the hooks of a single create do or hand down, and however often they call on, every row that reaches the store meets the check |
| `HookChains.SingleStoresOnce` | ent/ent.go:517-533 | at most one row reaches the store when no hook calls on more than once |
| `HookChains.BulkIsChecked` | ent/devicetoken_create.go:281-291 | in a bulk create every stored row meets the check when each hook hands down the mutation it was given, whatever else it does and however often |
| `HookChains.EditFree` | ent/tenantuser_create.go:274-307 | for hooks that edit nothing and call on at most once, over any number of builders: the reply is the first one a hook gives on its own, else that of the first failing check or of the store, and the rows of the mutations handed down are stored iff all checks of the builders' own mutations pass, no hook stops and the store accepts |
| `HookChains.SwapEscapesIff` | ent/devicetoken_create.go:281-291 | with such hooks every stored row meets the check iff the batch is not stored or every mutation handed down meets it |
| `HookChains.SwapEscapesCheck` | ent/devicetoken_create.go:281-291 | an input on which a row escapes: one hook that hands down a mutation nothing was set on |
| `HookChains.CheckedSpec` | ent/devicetoken_create.go:163-192 | the check passes iff the row it lets through has every required column with a valid value |
| `HookChains.SuccessIsStored` | ent/devicetoken_create.go:293-321 | whatever hooks edit, hand down or repeat: when none replies with success on its own, a Save that succeeds had its last batch accepted, and that batch is stored and is the one spec per builder it leaves behind |
| `HookChains.FalseSuccessIff` | ent/devicetoken_create.go:293-321 | with hooks that edit nothing and call on at most once, Save succeeds with nothing stored iff the first reply a hook gives on its own is success, and a check fails, the store refuses or a hook stops |
| `HookChains.SwallowedError` | ent/devicetoken_create.go:293-321 | an input: a hook that calls on and turns the store's refusal into success |
| `HookChains.ShortCircuitReportsSuccess` | ent/tenantuser_create.go:293-307 | another: a hook that replies with success makes a bulk create succeed without a write, earlier builders marked done, later ones not |
| `CreateBuilders.Chain` | ent/ent.go:527-532 | the loop wraps the hooks last first and stops at a nil hook |
| `CreateBuilders.Defaults` | ent/devicetoken_create.go:151-160 | fills in name and creation time only where none is set, and changes nothing else |
| `CreateBuilders.Saving.Mutate` | ent/tenantuser_create.go:274-302 | calling a chained mutator on real mutations and arrays does what the evaluator says |
| `CreateBuilders.Saving.RunBulk` | ent/tenantuser_create.go:274-302 | the innermost mutator checks, rebinds, fills its array slots, calls on or writes, and marks, as the evaluator says |
| `CreateBuilders.Saving.RunSingle` | ent/ent.go:517-525 | the builder's mutation is overwritten, checked, inserted and marked, as the evaluator says |
| `CreateBuilders.SaveMany` | ent/tenantuser_create.go:263-315 | the bulk Save on arrays of mutations and mutators refines the evaluator; a nil hook panics before anything ran |
| `CreateBuilders.SaveOne` | ent/devicetoken_create.go:123-126 | the single Save refines the evaluator; a nil hook is an error and nothing runs; through pass-through hooks the stored row has every value that was set, the defaults where none was, and nothing else |
| `CreateBuilders.CreateAll` | ent/tenantuser_create.go:263-315 | on the real objects, from the states before the defaults: iff all are ready and the store accepts, each row has every value set on its builder, the defaults where none was and nothing else, every mutation is done with its id and every returned entity holds its row; otherwise nothing is stored and none is done |
| `Transactions.StepIs` | ent/tx.go:211-235 | what any step does to connections and database, with no driver left in it: only a commit that reaches a connection publishes, and it publishes the whole log |
| `Transactions.ExecOnIs` | ent/tx.go:227-230 | a statement through any chain of transactional drivers lands in the log of the one connection it reaches |
| `Transactions.BeginIs` | ent/tx.go:201-211 | Tx on a transactional driver, however wrapped, opens nothing and returns that driver |
| `Transactions.Atomicity` | ent/tx.go:211-235 | in every run of any clients, the database holds exactly the statements of committed connections, in order, and nothing of any other |
| `Transactions.EndThroughIs` | ent/tx.go:78-90 | a Commit or Rollback through hooks ends the transaction as one without hooks would if they let a call through, and changes nothing if they refuse |
| `Transactions.OnlyTheUserEnds` | ent/tx.go:219-225 | a transaction is ended by its user's Commits and Rollbacks that the hooks let through, and by nothing builders do |
| `Transactions.StatusAfter` | ent/tx.go:78-90 | the first Commit or Rollback by the user that the hooks let through decides the transaction for good; refused ones leave it open |
| `Transactions.LogAtomicity` | ent/tx.go:134-146 | the database holds nothing of a transaction's connection unless the first Commit or Rollback that the hooks let through is a Commit that works, and then every statement sent to it up to then, in order |
| `Membership.Belongs` | ent/tx.go:157-175 | which transaction a client is in, told by the events alone: starting opens one, whatever is made from a client is where the client is, debug logging changes nothing, unwrapping leads to where it was started; in every run clients send their statements there |
| `Membership.TransactionAtomicity` | ent/tx.go:134-175 | in any run the database holds nothing of a transaction unless the first Commit or Rollback of its user that the hooks let through is a Commit that works, and then every statement sent up to then by any client in it, in order |
| `Membership.StartedTransaction` | ent/client.go:160-198 | the same for a transaction that a client outside all transactions starts, with nothing but events in it |
| `Membership.OutsideTakesEffect` | ent/client.go:160-198 | the other statements in effect are those of clients in no transaction, each at once and in order |
| `Membership.Replies` | ent/client.go:160-167 | who may start or be unwrapped, which statements are refused, and what a Commit or Rollback without hooks replies |
| `Transactions.NeverDirectlyNested` | ent/client.go:160-163 | no transaction is ever started from a transactional driver itself |
| `Transactions.NoNesting` | ent/client.go:160-198 | in every run that wraps no transaction in debug logging no transaction is started within another |
| `Transactions.FlatClients` | ent/devicetoken.go:141-148 | then a client in a transaction refuses to start one, and one Unwrap leads out of it |
| `Transactions.NestsIff` | ent/client.go:160-167 | a start nests iff the client's driver is a debug wrapper around a transaction |
| `Transactions.DebugGetsRoundTheGuard` | ent/client.go:221-230 | the debug client of a transactional client is such a client; the nested Commit and Rollback do nothing |
| `CompletionHooks.Completion.Commit` | ent/tx.go:78-90 | Commit runs on a copy of the hooks: those registered meanwhile take no part; how often the transaction is reached, and what became of it, is as the hooks' calls and replies say |
| `CompletionHooks.Completion.CallAll` | ent/tx.go:72-75 | a hook may call on any number of times, each time through the rest of the chain down to the transaction |
| `CompletionHooks.EndsIffReached` | ent/tx.go:78-90 | the transaction ends iff the hooks let some call through, and the first such call decides how; otherwise it stays open |
| `CompletionHooks.SuccessCommits` | ent/tx.go:78-90 | when no hook reports a success of its own, a Commit that succeeds committed the transaction |
| `CompletionHooks.RepliesTruly` | ent/tx.go:78-90 | through hooks that forward the reply a Commit succeeds iff it was pending and the database commits it |
| `CompletionHooks.OnionIs` | ent/tx.go:86-88 | hooks that call on at most once: those up to the first that refuses are entered in the order in which they were registered and left in reverse order |

## Left out

- SQL text, dialects, the graph layer and real drivers: they are not part of this repository and are replaced by the assumptions above.
- Traversal paths (`QueryTenantUsers` and its like), the stored selector they produce, interceptors, contexts and operation names: they only reach code that is not visible.
- Count, IDs, Exist, GroupBy, aggregates and scanning into user structs: library and reflection behaviour.
- Sharing of backing arrays between a slice and a copy of it made by append: predicates, order terms and fields are values here, which is what Clone's appends to fresh slices provide.
- Sharing of map values after a hook's mutation is copied over the builder's: the copy is by value here, so a later change of the other mutation's cleared fields or of its edge maps is not seen by the builder's.
- The early return of a many-to-one loader without keys: it is unreachable, since loaders run on at least one node.
- Hooks that change builders other than through mutations, or that keep the mutator they wrap and call it after they returned.
- Statements and other calls that a commit or rollback hook makes: they are events of a run before or after it, not in the middle of it.
- A builder that is listed twice in one bulk create: each position is a builder of its own here, while two builders may share a mutation.
- Replies with values: a hook of a single create that succeeds with a value of another type, nil included, is an error in `withHooks`; here a hook's own success stands for
  one with an entity. Mutations of another type, which the innermost mutators refuse, cannot be handed down here.
- Role updates, whose single edge is lowered by the block `EdgeHistory.LowerEdge` models, and the nullable fields of roles: they only repeat the tenant and device token models.
- Permissions of a plugin install once saved: what SQL makes of a list that is both set and appended to is not visible.
- `Client.BeginTx`, whose guard and transactional driver are those of `Client.Tx`; the debug wrapper's own BeginTx belongs to the dialect library.
- Delete builders, String methods, the panicking variants, `SetNillable` setters and upserts: one-branch facts.
- The hand-written services, migrations and the user interface.
- Goroutines: transactional drivers are documented as not safe for them, and runs are sequences of steps.
- TenantMutations.Table.Update: does not model that a child has one parent only, because the store refuses such additions; they fall under refused writes.
- TenantMutations.UpdateMany: does not model the predicates of the mutation, because the set of rows they match is an input.
- DeviceTokens.SaveFollowsCalls: does not model the result of a Set on top of a Clear, because it is the store's choice.
- OldValues.Perform: does not model the entity client that fetches, because a fetch is the store's answer for the captured id.
