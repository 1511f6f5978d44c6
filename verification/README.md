# Verified model of the ent persistence engine

The repository keeps its data through an entity framework under `internal/ent`: mutation objects
collect changes, builders turn them into specifications for a SQL graph library, query builders load
nodes and their edges, hooks and interceptors wrap every operation, and a transactional client
absorbs the commits of the builders inside it. The code is the same for every entity. This project
models each algorithm once, on a named entity, and proves what it promises for all inputs and all
runs of calls. It also covers `splitCSV` of the command.

Everything that the source updates in place is a class here, and its methods are proved against
functions on values; the main results are lemmas about those functions, or contracts of methods that
run whole scripts of calls on the objects.

| file | what it models |
|---|---|
| `EdgeMutation.dfy` | the change set of a to-many edge (added, removed, cleared) |
| `UpdateSpec.dfy` | update specifications, the table store, and saving key roots |
| `UserMutation.dfy` | the nullable role (field and edge), and saving users |
| `Accumulators.dfy` | next_index with its increment, replay through SetField/AddField; permissions with appends |
| `OldValue.dfy` | the key root mutation and its memoised lookup of old values |
| `EagerLoad.dfy`, `EagerJoin.dfy` | eager loading as hash joins on nodes; projections; the joins over tables |
| `EagerQuery.dfy` | sqlAll of users with both edges, the edge accessors, Only and First |
| `BulkCreate.dfy` | bulk creation: the closed form of the closure chain, and the chain on the heap |
| `Hooks.dfy` | withHooks, withInterceptors, Use |
| `Transaction.dfy` | commit and rollback hooks, the transaction driver, the store with pending writes |
| `QueryBuilder.dfy` | query builders as mutable trees over Go slices, and Clone |
| `SplitCsv.dfy` | splitCSV |
| `UserRow.dfy`, `UserCreate.dfy` | scanning and assigning rows; defaults, check, createSpec, and the round trip |

## What is assumed

The SQL graph library, the database and the JSON codec are not part of this model. Of them it
assumes:

- An update that succeeds applies all clears of edges before all adds. An O2M clear without ids clears
  every row that refers to the node, one with ids only those rows; an add makes the existing rows it
  names refer to the node. An update that the library refuses, for instance because a row is still
  connected elsewhere or does not exist, is the error answer of the `update` parameter and changes
  nothing.
- A query returns exactly the rows that satisfy all its predicates, in a fixed order, with the columns
  of its specification; `AddColumnOnce` and `AppendFieldOnce` append only what is absent. Where a
  contract speaks of arbitrary answers (`EagerLoad`), not even this is assumed.
- The batch insert leaves explicit ids alone and fills in an `int64` for every specification without
  one.
- JSON decoding undoes encoding, and an encoding is never empty.

## Where the code does something one might not expect

Each of these is proved. Where that makes a property fail that one would expect, the lemmas named
state exactly when it holds.

- Adding an id and then clearing the edge stores the id (`SequentialIffClearsSuperseded`).
- ResetRole leaves the mark that ClearRole put on the field, and ResetRoleID the one on the edge
  (`RoleWrittenInOrderIff`).
- Replaying a mutation through its Fields loses a recorded clear (`Replay`, `ReplayAfterClear`).
- Increments wrap around silently (`IncrementIsSumIff`, `IncrementsOverflow`).
- In a bulk, `check()` reads the mutation that the builder held before its hooks replaced it
  (`CreatedIsCheckedIff`, `UncheckedCreation`); hooks that return success without calling next, or drop
  its error, make for success and done mutations without an insert (`UnearnedIff`,
  `SuccessWithoutInsertIff`, `DroppedError`); and an explicit id of zero, if the validator lets it pass,
  panics after the insert while the single create keeps it (`BulkOfOne`).
- Eager loading leaves its filter in the child query (`SecondLoadIff`); Only and First leave their
  limit on the query.
- Clone drops the modifiers, although its comment promises all steps (`Query.Clone`).
- Commit can report an error although the transaction is committed (`CommittedWithError`), and none
  although it is not (`SilentlyUncommitted`); `TruthfulIff` states exactly when it does neither, for
  hooks in the usual style, and `FirstEndDecides` what it comes to for all hooks. A hook can also roll
  back what it is asked to commit (`RollbackFromInside`).

## Model

| member | source | states |
|---|---|---|
| `EdgeMutation.EffectIsHoistedFold` | internal/ent/mutation.go:1396-1448 | for every run of Add/Remove/Clear/Reset calls and every stored edge set, what the emitted update does (`(if cleared then {} else stored - removed) + pending`) is the sequential fold of the calls since the last Reset with every Clear moved to the front |
| `EdgeMutation.SequentialIffClearsSuperseded` | internal/ent/mutation.go:1396-1448 | the update equals the plain sequential fold of the run **iff** every id pending at the last Clear is named again by a later Add or Remove; in particular whenever no Clear follows an Add |
| `EdgeMutation.ThroughClear` | internal/ent/mutation.go:1396-1425 | around a Clear: an id is pending afterwards iff its last later mention is an Add, or it is not mentioned later and was pending before; the fold forgets everything before the Clear |
| `EdgeMutation.LastMentionDecides` | internal/ent/mutation.go:1396-1425 | the last call naming an id decides whether it is pending, from any starting change set |
| `EdgeMutation.EffectWithoutReset` | internal/ent/mutation.go:1396-1425 | runs without Reset: the effect is the fold of the non-Clear calls over the stored set, or over nothing when there was a Clear |
| `EdgeMutation.AddThenClearKeepsTheId` | internal/ent/mutation.go:1396-1409 | the counterexample to the plain fold: Add then Clear still stores the added id |
| `EdgeMutation.EdgeFields.AddIDs` | internal/ent/mutation.go:1396-1404 | allocates the nil map, then inserts every id; the change set moves by one `Step` |
| `EdgeMutation.EdgeFields.RemoveIDs` | internal/ent/mutation.go:1416-1425 | each id leaves the pending set (deleting from a nil map does nothing) and joins the removed set |
| `EdgeMutation.EdgeFields.ClearEdge` | internal/ent/mutation.go:1406-1409 | only the cleared mark changes |
| `EdgeMutation.EdgeFields.ResetEdge` | internal/ent/mutation.go:1443-1448 | all three fields go back to nil and false |
| `EdgeMutation.EdgeFields.IDs` | internal/ent/mutation.go:1435-1441 | the pending ids, each once, in no promised order |
| `EdgeMutation.EdgeFields.RemovedIDs` | internal/ent/mutation.go:1427-1433 | the removed ids, each once, in no promised order |
| `EdgeMutation.EdgeFields.Apply` | internal/ent/mutation.go:1396-1448 | any run of calls on the mutation object leaves the change set that `Run` says |
| `Common.RangeKeys` | internal/ent/mutation.go:1435-1441 | ranging over a Go map gives every key exactly once |
| `UpdateSpec.EmitToMany` | internal/ent/keyroot_update.go:145-189 | the three blocks of one to-many edge emit one clear of everything iff cleared, otherwise one clear of exactly the removed ids, and one add of exactly the pending ids |
| `UpdateSpec.ToManyColumn` | internal/ent/keyroot_update.go:145-189 | on the foreign-key column: the updated node ends with `(if cleared then {} else stored - removed) + pending` (of existing rows), and every other owner loses exactly the rows named in the add |
| `UpdateSpec.ColumnAfter` | internal/ent/keyroot_update.go:145-234 | in a specification with several edges, a column is changed only by the clear and the add that name it |
| `UpdateSpec.OneEdge` | internal/ent/keyroot_update.go:145-189 | the two together: one edge's share of a whole specification, for its owner and for every other owner |
| `KeyRootUpdate.SqlSave` | internal/ent/keyroot_update.go:136-245 | the emitted specification realises both edges on **every** store (`Realises`), leaves all other columns alone; the mutation is marked done iff the database accepts; a missing row and a broken constraint get their own error types; a successful save completes the mutation for its old-value lookup |
| `KeyRootUpdate.Correct` | internal/ent/keyroot_update.go:145-234 | the clear and add parts of the two edges, in the order of the code, realise both change sets on any store |
| `KeyRootUpdate.SavedRunOfCalls` | internal/ent/keyroot_update.go:145-189 | from calls to rows: after any run of wallet calls the saved edge set is the fold with Clears in front, and is the plain fold iff the Clears are superseded |
| `UserMutation.RoleRunMeaning` | internal/ent/mutation.go:4733-4780 | for every run of role calls: a role is set iff SetRoleID is the last call other than ClearRole, and it is the role of that call; RoleCleared holds iff a ClearRole or ClearRoleID came since the last ResetRoleID, or a ClearRole since the last ResetRole |
| `UserMutation.RoleWrittenInOrderIff` | internal/ent/mutation.go:4733-4858 | the update writes what the calls say in order **iff** the calls do not end in a ClearRole with a role set before it, nor, over a stored role, in a ResetRoleID with a ClearRole since the last ResetRole, nor in a ResetRole with a clear of either kind since the last ResetRoleID |
| `UserMutation.UndoingClearRole` | internal/ent/mutation.go:4833-4858 | ResetRole alone does not undo ClearRole; ResetRole with ResetRoleID, in either order, leaves a mutation without role changes after any run |
| `UserMutation.FieldMark` | internal/ent/mutation.go:4764-4780 | the mark in clearedFields, as the latest of its setters and undoers |
| `UserMutation.EdgeMark` | internal/ent/mutation.go:4833-4858 | the mark of the edge, likewise |
| `UserMutation.UserMutation.CallSetRoleID` | internal/ent/mutation.go:4733-4736 | sets the pointer and touches neither clear mark |
| `UserMutation.UserMutation.CallClearRoleID` | internal/ent/mutation.go:4764-4768 | drops the pointer, marks the field |
| `UserMutation.UserMutation.CallResetRoleID` | internal/ent/mutation.go:4776-4780 | drops the pointer, unmarks the field, leaves the edge mark |
| `UserMutation.UserMutation.CallClearRole` | internal/ent/mutation.go:4833-4837 | marks field and edge and keeps the pointer |
| `UserMutation.UserMutation.CallResetRole` | internal/ent/mutation.go:4854-4858 | drops the pointer, unmarks the edge, leaves the field mark |
| `UserMutation.UserMutation.ApplyRoleCalls` | internal/ent/mutation.go:4733-4858 | any run of role calls on the object leaves what `RoleRun` says |
| `UserMutation.UserMutation.RoleIDs` | internal/ent/mutation.go:4844-4852 | the role as a list of at most one id |
| `UserUpdate.Check` | internal/ent/user_update.go:187-199 | no error iff each of the two validated strings is unset or valid; the username is reported first |
| `UserUpdate.ScalarFields` | internal/ent/user_update.go:213-224 | writing the emitted columns to any stored row puts each set scalar into its own column, by name, and keeps every other column |
| `UserUpdate.BuildSpec` | internal/ent/user_update.go:202-304 | the emitted role edge writes set-else-null-else-stored into the updated row and nothing into any other row, on every store; the sessions edge is realised for the user and for every other owner; no other column is touched; the append is emitted iff non-empty (`Specified`) |
| `UserUpdate.EdgesRealised` | internal/ent/user_update.go:230-304 | the role and sessions parts, in the order of the code, realise both changes on every store and touch no other column |
| `UserUpdate.SqlSave` | internal/ent/user_update.go:201-314 | a specification reaches the database iff the checks pass, and is then `Specified`; done iff it is accepted |
| `UserUpdate.RoleColumn` | internal/ent/user_update.go:230-258 | clear-then-add of the many-to-one role edge on the users.role_id column |
| `UserUpdate.SavedRoleCalls` | internal/ent/user_update.go:230-258 | from calls to the stored row: the saved row holds what the calls say in order **iff** they are not misread |
| `CounterMutation.NumberRunMeaning` | internal/ent/mutation.go:6084-6138 | for every run: the pending increment is the 64-bit wrap of the unbounded sum of the Adds since the last Set or Reset, absent iff there were none; the value is the last Set; value-or-stored plus increment is the fold of the calls |
| `CounterMutation.IncrementIsSumIff` | internal/ent/mutation.go:6116-6123 | after every run with increments, the pending one is their unbounded sum **iff** that sum fits into 64 bits |
| `CounterMutation.IncrementsOverflow` | internal/ent/mutation.go:6116-6123 | two increments of 2^62 leave a negative pending increment |
| `CounterMutation.WalletCounterMutation.SetNextIndex` | internal/ent/mutation.go:6084-6088 | sets the value and forgets the increment |
| `CounterMutation.WalletCounterMutation.AddNextIndex` | internal/ent/mutation.go:6116-6123 | starts or extends the increment, with int64 wrap-around, and keeps the value |
| `CounterMutation.WalletCounterMutation.ResetNextIndex` | internal/ent/mutation.go:6134-6138 | forgets both |
| `CounterMutation.WalletCounterMutation.Fields` | internal/ent/mutation.go:6197-6212 | the set fields in schema order |
| `CounterMutation.WalletCounterMutation.Field` | internal/ent/mutation.go:6214-6227 | has a value exactly for the names in Fields, of the type of the field |
| `CounterMutation.WalletCounterMutation.SetField` | internal/ent/mutation.go:6244-6272 | fails without effect exactly for an unknown name or a value of the wrong type; next_index goes through Set |
| `CounterMutation.WalletCounterMutation.AddField` | internal/ent/mutation.go:6295-6309 | likewise for increments |
| `CounterMutation.Replay` | internal/ent/mutation.go:6197-6309 | replaying Fields and then AddedFields onto a fresh mutation never fails and reproduces key root, adapter, next_index and the increment of **any** source state; it reproduces the whole state iff no clear of the key root is recorded |
| `CounterMutation.ReplayAfterClear` | internal/ent/mutation.go:6140-6165 | the input that shows it: after a clear of the key root the replay differs, even if the edge is reset |
| `CounterMutation.ReplaySet` | internal/ent/mutation.go:6197-6272 | the set half of the replay |
| `CounterMutation.ReplayAdded` | internal/ent/mutation.go:6274-6309 | the increment half of the replay |
| `Permissions.ListRunMeaning` | internal/ent/mutation.go:1923-1972 | for every run: the appended tail is the concatenation of the Appends since the last Set or Reset, and value-or-stored followed by the tail is the fold of the calls |
| `Permissions.RoleMutation.SetPermissions` | internal/ent/mutation.go:1923-1927 | sets the list and forgets the tail |
| `Permissions.RoleMutation.AppendPermissions` | internal/ent/mutation.go:1955-1958 | extends the tail and keeps the list |
| `Permissions.RoleMutation.ResetPermissions` | internal/ent/mutation.go:1968-1972 | forgets both |
| `Permissions.RoleMutation.AppendedPermissions` | internal/ent/mutation.go:1960-1966 | an empty tail reads as absent |
| `OldValue.LookupsAreMemoised` | internal/ent/mutation.go:1239-1259 | over any run of lookups and completions every lookup returns what the first one decided |
| `OldValue.MemoIsFirst` | internal/ent/mutation.go:1239-1259 | the memo is what the first lookup decided: the database's answer then if the mutation was not complete, an error otherwise; the database is read once in the first case and never in the second |
| `OldValue.KeyRootMutation.Lookup` | internal/ent/mutation.go:1246-1255 | the closure: `once` guards the only read |
| `OldValue.KeyRootMutation.OldDerivationScheme` | internal/ent/mutation.go:1338-1353 | only on an update of one node with an id does it look up; otherwise it fails without reading |
| `OldValue.KeyRootMutation.Play` | internal/ent/mutation.go:1239-1259 | any run of lookups and completions on the object returns the specified replies |
| `EagerLoad.IndexNodes` | internal/ent/keyroot_query.go:456-464 | the key list in node order, the index to the **last** node of each id, and empty child lists |
| `EagerLoad.Distribute` | internal/ent/role_query.go:475-485 | each neighbour goes to the last node with its key, in query order; the loop stops at the first neighbour with a nil or unknown key, with the error for it, and what was handed out before stays |
| `EagerLoad.LoadMany` | internal/ent/role_query.go:455-487 | one-to-many loading for **any** answer of the neighbour query: its filter and its projection, success iff every key is a parent id, and each node's children |
| `EagerLoad.ChildRowsCompose` | internal/ent/keyroot_query.go:475-482 | children come in the order of the rows |
| `EagerLoad.GroupNodes` | internal/ent/user_query.go:455-466 | the distinct non-nil keys in first-seen order, and a partition of the nodes with a key by that key |
| `EagerLoad.AssignGroups` | internal/ent/user_query.go:475-483 | each node ends with the last returned neighbour bearing its key, other nodes are untouched; error at the first foreign neighbour |
| `EagerLoad.LoadOne` | internal/ent/user_query.go:454-485 | many-to-one loading for any answer of the neighbour query; no query at all when no node has a key |
| `EagerLoad.LastWithIdIsLast` | internal/ent/user_query.go:475-483 | the neighbour that a key ends with is the last one bearing it |
| `EagerLoad.Query.AppendFieldOnce` | internal/ent/user_query.go:496-498 | appends the field unless it is selected already; what is selected stays, in order |
| `Projection.QuerySpecColumns` | internal/ent/user_query.go:537-548 | the column loop of querySpec |
| `Projection.ColumnsOfProjection` | internal/ent/user_query.go:537-548 | for every list of selected fields: the id once, in front; the foreign key whenever the parent edge is requested; nothing else added, nothing selected lost |
| `Projection.NonIdsCompose` | internal/ent/user_query.go:540-544 | the selected fields stay in their order |
| `Projection.ChildColumnsRead` | internal/ent/user_query.go:496-498 | an extended child query reads the id, the foreign key and everything it selected, and nothing else |
| `EagerJoin.LoadManyIsJoin` | internal/ent/keyroot_query.go:455-484 | over a table the hash join is the nested-loop join: no stray key, and each id's last node gets exactly the selected rows that refer to it, in order, under any projection |
| `EagerJoin.ChildrenAddUp` | internal/ent/keyroot_query.go:475-482 | conservation: when no key strays the child-list lengths sum to the number of neighbours |
| `EagerJoin.IssuedIds` | internal/ent/user_query.go:455-466 | the id list issued by many-to-one loading has no repeats, names exactly the keys, in first-seen order |
| `EagerJoin.LoadOneIsJoin` | internal/ent/user_query.go:454-485 | over a table: no foreign neighbour, and each key finds the row that the unfiltered query would find |
| `EagerJoin.FilteredChildren` | internal/ent/user_query.go:499-501 | filtering by the parents' ids loses no child of these parents |
| `EagerJoin.FilteredOne` | internal/ent/user_query.go:470-470 | filtering by the issued ids keeps the last row of each key |
| `EagerJoin.ParentsFound` | internal/ent/user_query.go:454-485 | under a projection that need not select the id, every node with a key still finds its parent |
| `EagerJoin.JoinsAreConverse` | internal/ent/session_query.go:409-437 | the two directions of the edge: a session is listed under a user iff the user is the session's parent |
| `EagerJoin.LoadManyFromTable` | internal/ent/user_query.go:486-515 | the loader on nodes, over a table: it fails only if the database does, and otherwise writes the nested-loop join |
| `EagerJoin.LoadOneFromTable` | internal/ent/session_query.go:409-437 | likewise for the other direction |
| `EagerJoin.LoadBothWays` | internal/ent/session_query.go:409-437 | loading sessions onto users and users onto sessions over the same tables leaves converse relations: s is among u's sessions iff s's user is u |
| `EagerJoin.ProjectionKeepsEdges` | internal/ent/user_query.go:496-498 | a projection of the children changes no child list, and a projection of the nodes that requests the parent edge hides no key |
| `EagerJoin.SecondLoadIff` | internal/ent/user_query.go:499-501 | the filter stays in the child query: a second load through it gives a node its children **iff** the node was in the first load or has none |
| `EagerQuery.UserQuery.QueryNodes` | internal/ent/user_query.go:408-437 | one new node per returned row, marked with what was asked for |
| `EagerQuery.UserQuery.SqlAll` | internal/ent/user_query.go:408-452 | for whatever rows the main query answers: only a failing query makes it fail; each node's role and sessions are those of its row; a repeated id has its sessions at its last node and an empty list at the others |
| `EagerQuery.UserQuery.All` | internal/ent/user_query.go:408-452 | end to end over the three tables and under any three projections: the nodes are the selected users in order, the edge accessors RoleOrErr and SessionsOrErr give the nested-loop joins of the **stored** row, not-found and not-loaded exactly when due |
| `EagerQuery.UserQuery.Only` | internal/ent/user_query.go:157-173 | the selected user, with its edges, iff exactly one is selected, not-found iff none, not-singular iff more; the limit of two stays on the query |
| `EagerQuery.UserQuery.First` | internal/ent/user_query.go:112-123 | the first selected user, with its edges, not-found iff there is none; the limit of one stays |
| `BulkChain.ChainMeaning` | internal/ent/unsealkeyslot_create.go:283-325 | the chain of closures in closed form, for every list of builders and hooks, also such that drop or replace the error of next: the batch runs iff no turn stops early; the result is that of the far end passed back through the turns; exactly those builders are marked that are handed a success and do not crash on it |
| `BulkChain.SuccessIff` | internal/ent/unsealkeyslot_create.go:297-322 | the chain succeeds **iff** its result turns into a success somewhere (the batch, a hook that returns success without calling next, or one that drops the error it was given) and every turn further out lets a success through |
| `BulkChain.UnearnedIff` | internal/ent/unsealkeyslot_create.go:297-322 | without a successful batch, success is reported or a mutation is marked done **iff** a hook returned success without calling next or dropped the error it was given, and the turn outside it does not crash on that success |
| `BulkChain.AllOrNothing` | internal/ent/unsealkeyslot_create.go:276-332 | for hooks that turn no error into a success: the batch runs iff every check passes and every hook calls next; before a successful batch an error is reported and nothing is marked; afterwards the marked mutations are a final stretch, and success means all |
| `BulkChain.HonestHooks` | internal/ent/unsealkeyslot_create.go:320-322 | a turn under hooks that keep errors keeps errors, for any number of them |
| `BulkChain.DroppedError` | internal/ent/unsealkeyslot_create.go:297-318 | the input that shows it: a hook drops the error of a failed batch, success is reported and the builder before it is marked |
| `BulkChain.SuccessWithoutInsertIff` | internal/ent/unsealkeyslot_create.go:286-322 | exactly when success is reported without a successful batch: `SuccessIff` on the whole chain |
| `BulkChain.CreatedIsCheckedIff` | internal/ent/unsealkeyslot_create.go:291-296 | what is created was checked, for every validator, **iff** the own mutation of the builder cannot pass, or the mutation passed on has both keys and no id other than the own one |
| `BulkChain.CheckedIsCreated` | internal/ent/unsealkeyslot_create.go:291-296 | if every hook passes on the mutation it was given, what was checked is what is created |
| `BulkChain.UncheckedCreation` | internal/ent/unsealkeyslot_create.go:291-296 | `check()` reads the builder's old mutation: a hook passing on another mutation gets it inserted although it would not pass |
| `BulkChain.BulkOfOne` | internal/ent/unsealkeyslot_create.go:90-108 | a bulk of one without hooks gives the result of creating the one, **iff** that is an error or the id is not an explicit zero |
| `BulkChain.SpecInserts` | internal/ent/unsealkeyslot_create.go:110-130 | createSpec for every content: the row that the specification writes has each key in its own column, if it is set, and no other column; the node is that row read back; the ids are the explicit one or none |
| `BulkChain.EnterComposes` | internal/ent/unsealkeyslot_create.go:320-322 | a list of hooks in two pieces: the first is wrapped around the second, goes first and has the last word |
| `BulkChain.OneHook` | internal/ent/unsealkeyslot_create.go:320-322 | one hook around the rest: it rejects, skips, passes on the edited mutation or another one |
| `BulkChain.HooklessStops` | internal/ent/unsealkeyslot_create.go:286-311 | without hooks, from the contents: the first failing check stops the bulk with its error, and nothing is inserted or marked |
| `BulkChain.HooklessRuns` | internal/ent/unsealkeyslot_create.go:286-318 | without hooks and with all checks passing: the batch runs, its error is reported, and otherwise it succeeds unless there is an explicit id of zero |
| `BulkCreate.SaveOne` | internal/ent/unsealkeyslot_create.go:90-108 | one insert, of the mutation's keys in their columns under its id or none, iff the check passes; the node is the inserted row read back, under the explicit or else the generated id, which the mutation then has; the id conversion never panics |
| `BulkCreate.CreateBulk.Save` | internal/ent/unsealkeyslot_create.go:276-332 | the error, the batch inserts issued, every mutation and done flag are those of `Chain` on the builders' entries; at most one batch, one row per builder; every slot pair holds the row of the content passed on, each key in its column, and the node read back from it, with explicit and generated ids (`SlotsFilled`); a stored error or an empty list makes no call |
| `BulkCreate.CreateBulk.SlotsAreFilled` | internal/ent/unsealkeyslot_create.go:296-318 | from the outcome of the chain to the slots: the rows, nodes and ids of every builder that got as far as createSpec |
| `BulkCreate.CreateBulk.SaveAllOrNothing` | internal/ent/unsealkeyslot_create.go:276-332 | on the objects, for hooks that keep errors: one batch insert, of one row per builder in order, iff every check passes and every hook calls next; unless it succeeds an error is returned and no mutation gets done; after a success all are done and every returned node has the keys passed on and its explicit or generated id |
| `BulkCreate.CreateBulk.DoneOnlyIfMarked` | internal/ent/unsealkeyslot_create.go:309-318 | on the objects, a mutation is newly done only if its turn was handed a success |
| `BulkCreate.CreateBulk.RunChain` | internal/ent/unsealkeyslot_create.go:326-330 | the first mutator on fresh slots |
| `BulkCreate.CreateBulk.Mutate` | internal/ent/unsealkeyslot_create.go:283-324 | the mutator of one builder from its hook j on; terminates on the number of builders left |
| `BulkCreate.CreateBulk.CallHook` | internal/ent/unsealkeyslot_create.go:320-322 | one hook: it stops the chain, edits the mutation, or passes on another |
| `BulkCreate.CreateBulk.Turn` | internal/ent/unsealkeyslot_create.go:291-318 | check, createSpec into slot i, the next mutator or the batch, and the bookkeeping on the way back |
| `BulkCreate.CreateBulk.BatchCreate` | internal/ent/unsealkeyslot_create.go:300-307 | one batch call with exactly the specs in builder order; a generated id per spec without one |
| `BulkCreate.CreateBulk.Mark` | internal/ent/unsealkeyslot_create.go:312-317 | the id conversion and the done mark of one builder touch nobody else's slots and mutations |
| `BulkChain.HookHasTheLastWord` | internal/ent/unsealkeyslot_create.go:320-322 | what a hook makes of the result of next, error or success, replaces the result and nothing else |
| `BulkCreate.CreateBulk.PassOn` | internal/ent/unsealkeyslot_create.go:320-322 | a hook edits the mutation it was given and passes on that one or a new one |
| `Hooks.WithHooks` | internal/ent/ent.go:509-541 | a nil hook anywhere: an error, and neither exec nor any mutator runs; otherwise the onion with hook 0 outermost around the mutation copy and exec: its error is returned as it is, its value if it is of the right type, and otherwise an error; without hooks exactly what exec returns |
| `Hooks.WithInterceptors` | internal/ent/ent.go:576-590 | the same onion around a querier: errors as they are, values of the right type, an error for others |
| `Hooks.OnionComposes` | internal/ent/ent.go:526-531 | wrapping `a + b` is wrapping a around b |
| `Hooks.Client.Use` | internal/ent/client.go:292-296 | successive Use calls compose: the hooks so far wrap around the new ones |
| `Hooks.LayersRunOnce` | internal/ent/ent.go:517-534 | under hooks that call next once, may edit the builder's mutation in place and see their mutation and the reply afterwards: exec runs exactly once, on the mutation that the innermost hook passed on, which the builder then holds; replies pass outwards in reverse order |
| `Hooks.SaveUnderLayers` | internal/ent/ent.go:509-541 | the whole way under hooks that call next once and hand its reply on: one execution, on the mutation that the innermost hook passed on, and the caller gets exactly its value or error |
| `Hooks.ExecutionsMultiply` | internal/ent/ent.go:517-534 | under hooks that decide by the replies how often to call next, exec runs at least the product of the least and at most the product of the most calls |
| `Transaction.RunsAreSafe` | internal/ent/tx.go:77-154 | for every run of builder operations, registrations, commits and rollbacks, and hooks that branch on results, drop errors, crash or end the transaction themselves: others see the starting store until a commit, then exactly the executed writes in order, or the starting store after a rollback; an ended transaction stays ended |
| `Transaction.HooksAreSafe` | internal/ent/tx.go:77-90 | the same for one Commit or Rollback under such hooks; from any state, an ended transaction keeps its outcome and the hook lists only grow |
| `Transaction.BuildersNeverEndIt` | internal/ent/tx.go:209-235 | a builder that opens, commits and rolls back as it likes adds its writes to the running transaction and does nothing else |
| `Transaction.OnlyTheCopyRuns` | internal/ent/tx.go:77-98 | hooks registered while a commit runs do not join that commit, whatever the hooks do; only a commit that a hook starts from inside takes a copy of its own |
| `Transaction.FirstEndDecides` | internal/ent/tx.go:77-146 | for all such hooks: Commit or Rollback ends a running transaction **iff** the look ahead meets an end, in the way of the first one, be it at the bottom of the hooks or made by a hook; a commit publishes what was executed up to there; otherwise the transaction keeps running, with the error looked ahead to |
| `Transaction.EndsIff` | internal/ent/tx.go:77-146 | for hooks in the usual style (each error returned or dropped, the ending left to next): Commit commits, and Rollback rolls back, **iff** every hook gets to call next; a commit publishes the earlier writes and those of the hooks on the way in; and exactly when an error is reported |
| `Transaction.TruthfulIff` | internal/ent/tx.go:77-146 | for these hooks: no error is reported exactly when the transaction ended as asked, **iff** hooks that all get to call next let its success through, or hooks that do not all get there report an error |
| `Transaction.TruthfulStrictIff` | internal/ent/tx.go:77-146 | the same for hooks that drop no error, in terms of their steps: **iff**, when all get to call next, they only register hooks after that, and otherwise one fails and all around it call next |
| `Transaction.StrictHooks` | internal/ent/tx.go:77-90 | for hooks that drop no error: a success passes iff they only register hooks after first calling next; an error without an end is reported iff one fails and all around it call next |
| `Transaction.RollbackFromInside` | internal/ent/tx.go:133-146 | a hook that rolls back before anything else: Commit does not commit |
| `Transaction.SilentlyUncommitted` | internal/ent/tx.go:77-90 | a hook that returns without calling next: no error, and nothing is committed |
| `Transaction.CommittedWithError` | internal/ent/tx.go:77-90 | a hook that fails after calling next makes Commit report an error although everything is published |
| `Transaction.EntersAll` | internal/ent/tx.go:86-89 | hooks that get to call next are all entered, the first registered outermost |
| `Transaction.PreparedState` | internal/ent/tx.go:92-98 | after any run of builders and registrations the lists are exactly the registered hooks in order, the pending writes those of the builders in order, and nothing is published |
| `Transaction.RegisteredHooksRun` | internal/ent/tx.go:77-155 | registrations, then Commit or Rollback: the registered hooks run, in the order of registration; it ends the transaction **iff** all of them get to call next, publishing the builders' and the hooks' writes; and exactly when an error is reported |
| `Transaction.TxDriver.Build` | internal/ent/tx.go:209-235 | any mixture of driver calls on the object |
| `Transaction.TxDriver.OpenTx` | internal/ent/tx.go:209-211 | opening a transaction inside one gives the driver itself |
| `Transaction.TxDriver.AddHook` | internal/ent/tx.go:92-98 | the hook goes to the end of its own list; the other list keeps |
| `Transaction.TxDriver.End` | internal/ent/tx.go:77-90 | Commit and Rollback as the hooks of a copy of the list around the end of the database transaction |
| `Transaction.TxDriver.Call` | internal/ent/tx.go:79-89 | the wrapped committer |
| `Transaction.TxDriver.CallProg` | internal/ent/tx.go:80-89 | one hook on the object: it goes on by what each of its calls returns |
| `Transaction.StartTx` | internal/ent/client.go:155-179 | a nested transaction is refused, and a begin that the database refuses is reported; otherwise a fresh transaction over the current store |
| `Transaction.Use` | internal/ent/tx.go:77-235 | any run of operations on the objects ends in the specified state, safely; without an end among them every registered hook is on its list, in order |
| `QueryBuilder.Append` | internal/ent/user_query.go:37-41 | Go append on a shared backing array: the items, in place or in a new array |
| `QueryBuilder.CopyOf` | internal/ent/user_query.go:301-303 | `append([]T{}, s...)`: same items, a backing array of its own |
| `QueryBuilder.Fields.CopyFrom` | internal/ent/user_query.go:298-309 | the context and every slice in new objects; modifiers left behind |
| `QueryBuilder.Query.Clone` | internal/ent/user_query.go:292-310 | only new objects that share nothing; along **every** path of edges the clone has a query iff the original does, with its own fields and no modifiers |
| `QueryBuilder.ClonedAtEveryPath` | internal/ent/user_query.go:292-310 | the copy has, along every path of edges, what the original has there, field by field, modifiers aside |
| `QueryBuilder.CopyIsCloned` | internal/ent/user_query.go:292-310 | and it is the only tree of which that is true |
| `QueryBuilder.Fields.Apply` | internal/ent/user_query.go:37-66 | each builder call changes its own field as it says, and no other (`Changed`) |
| `QueryBuilder.FieldStepChanges` | internal/ent/user_query.go:37-66 | Changed determines the fields after a call |
| `QueryBuilder.StepTouches` | internal/ent/keyroot_query.go:312-332 | a call on the own fields leaves both nested queries alone, one on an edge leaves the own fields and the sibling alone; WithX starts from a query with nothing set |
| `QueryBuilder.StepsCompose` | internal/ent/keyroot_query.go:37-66 | runs of calls compose, earlier calls first |
| `QueryBuilder.Query.Apply` | internal/ent/keyroot_query.go:312-332 | any call, also WithX of either edge and calls on the nested query of either edge, which leave the sibling alone |
| `QueryBuilder.Query.Run` | internal/ent/keyroot_query.go:37-66 | a run of calls |
| `QueryBuilder.ApplyBeside` | internal/ent/keyroot_query.go:292-310 | a call on one of two builders that share nothing leaves the other's value alone |
| `QueryBuilder.CloneThenDiverge` | internal/ent/keyroot_query.go:292-310 | after Clone, any interleaving of calls on original and clone, and on the nested queries of either edge, leaves each as if the other's calls had never been made |
| `SplitCsv.SplitCSV` | cmd/main.go:271-283 | nil iff the value is blank; otherwise exactly the non-blank parts, trimmed, in order |
| `SplitCsv.KeptIsEachNonBlank` | cmd/main.go:277-281 | what is kept is each non-blank part, trimmed, once, and in order |
| `SplitCsv.TrimCutsSpaces` | cmd/main.go:278-278 | trimming cuts a prefix and a suffix of spaces |
| `SplitCsv.JoinOfSplit` | cmd/main.go:275-275 | joining the parts gives the value back, and the parts have no commas |
| `SplitCsv.SplitOfJoin` | cmd/main.go:275-275 | splitting inverts joining on every non-empty list of comma-free parts |
| `SplitCsv.KeptIsClean` | cmd/main.go:277-281 | what is kept is non-empty, trimmed and comma-free |
| `SplitCsv.SplitCsvRoundTrips` | cmd/main.go:271-283 | splitCSV inverts comma-joining on clean lists, and splitting the join of its own output changes nothing |
| `UserRow.ScanValues` | internal/ent/user.go:70-86 | a holder of the column's kind for every column, known or not, empty |
| `UserRow.User.AssignOne` | internal/ent/user.go:94-144 | one column: an error exactly for a holder of the wrong type or bytes that do not decode; otherwise only its field changes |
| `UserRow.User.AssignValues` | internal/ent/user.go:88-146 | for every column list, with repeats and unknown names: the first bad column is reported, each field is read off the last occurrence before it that carries a value, and other columns are kept by name |
| `UserRow.LastCarryingMeaning` | internal/ent/user.go:94-144 | which occurrence that is |
| `UserRow.SelectedMeaning` | internal/ent/user.go:141-143 | other columns: the holder of the last column of a name, or what was there |
| `UserCreate.ScannedNeverFails` | internal/ent/user.go:70-146 | assignValues on what was scanned into the allocated holders never reports a type or length mismatch |
| `UserCreate.LastOverRow` | internal/ent/user.go:70-146 | over one row repeats of a column do not matter |
| `UserCreate.Defaults` | internal/ent/user_create.go:146-160 | sets what is unset, keeps what is set; setting the default list drops pending appends |
| `UserCreate.Check` | internal/ent/user_create.go:162-190 | no error iff everything required is there and valid; otherwise the first required field that is not |
| `UserCreate.EdgesOf` | internal/ent/user_create.go:245-277 | the role edge with its one id, and RoleID on the node; the sessions edge with exactly the pending ids |
| `UserCreate.CreateSpecOf` | internal/ent/user_create.go:215-279 | node and specification agree with the mutation, field by field |
| `UserCreate.SqlSave` | internal/ent/user_create.go:192-213 | an insert is sent iff the checks pass; on success the returned node has every field of the mutation and the explicit or generated id, and is, for every JSON codec that decodes what it encodes, the node read back from the inserted row |
| `UserCreate.CreateThenRead` | internal/ent/user_create.go:215-279 | create-then-read: every column comes back, absent optionals as nil, the role edge as RoleID |
| `UserCreate.CreateThenUpdate` | internal/ent/user_update.go:213-258 | create, update, read: the node read back has exactly the fields that the update sets changed to what it sets, role included, and all others as created |

## Left out

- The service layer (sealing and unsealing, wallet allocation, signing, auth, recovery, audit), `run()`, configuration, HTTP, logging: outside the persistence engine.
- The other entities, UpdateOne builders and bulk creation of other entities: copies of the modelled algorithms; the bulk creation of users differs only in calling `defaults()` on each builder first.
- The nullable timestamps of sessions and their like: set, clear and reset follow the role field of users without an edge.
- What a set and a clear of the same scalar, or a set and an append of the same JSON column, come to in SQL: the library decides; both are stated at mutation level only.
- `String()`, time and JSON formatting, the panicking `...X` wrappers, error predicates, upsert options, aggregates, counts, `IDs`, `Exist` and grouping.
- Validators and default values are parameters; contexts, predicates on the main update, drivers, dialects and modifiers of statements are dropped.
- The mutex around the hook lists and `sync.Once` are modelled sequentially; a commit that the database itself refuses is not modelled.
- Hooks of a bulk are deterministic: by the mutation they are given they reject, skip, or edit it in place and pass on it or a new one, each calling next at most once; by the result of next they return any result. Edits after next and recovering from a panic are not modelled; passing on a mutation of another entity is an error like a rejection; calling next several times is covered for `withHooks` only.
- BulkCreate.CreateBulk.Save: requires the builders and their mutations to be distinct objects, as Create makes them, although the source accepts a list that names one twice; the pointer of a mutation to its node's id is modelled by storing the final id, and the Go panic by an error value.
- BulkCreate.CreateBulk.RunChain: requires distinct builders and mutations for the same reason.
- Transaction hooks are finite trees of calls that branch on the success or failure of each call; deciding by the kind of an error or by rows read, and keeping a committer to call it later, are not covered. How deep commits and rollbacks started by hooks may nest is a parameter, the stack; using it up is a crash, as are panics.
- Transaction.TruthfulIff: is stated for hooks in the usual style, which leave the ending to next; for other hooks the reported error is the one that `RunHooks` computes, and `FirstEndDecides` gives it when the transaction is not ended.
- QueryBuilder.Query.Clone: interceptors are a list value, predicates, orders and modifiers are tokens, and `path` is a shared token.
- EagerLoad.LoadMany: the nodes are distinct objects, as sqlAll allocates them; eager loads of the neighbours themselves are not followed.
- EagerQuery.UserQuery.All: offset, order and uniqueness of the main query are part of its opaque answer; a limit of zero is the library's to read.
- Hooks.WithHooks: mutators are total functions on a world, so panics and non-termination in hooks are not modelled; scanning with interceptors is left out.
- UserRow.User.AssignValues: what a failed JSON decode leaves half-written in the list is not modelled.
- SplitCsv.SplitCSV: strings are sequences of Unicode characters, so invalid UTF-8 is not modelled.
