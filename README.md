# Endexa core, modelled in Dafny

Endexa lets several users browse and edit a taxonomy, a tree of labelled terms that
belongs to a project, while documents of the project are uploaded, processed and
annotated. This project models the core of that system and proves properties of the
model:

- **Taxonomy materializer** (`TaxonomyModel`). Flat parent-pointer term rows become a
  nested tree for clients. The tree is cached under `models.project.<taxonomy id>`.
  The same rows also give a naturally sorted export document, which the export
  handler serves as a download.
- **Document, project and user materializers** (`DocumentModel`, `ProjectModel`,
  `UserModel`, over the table snapshot in `Tables`).
  - A document row becomes a processing, ready or complete document.
  - A project row becomes the project with its taxonomies and its documents bucketed
    by state.
  - A user row becomes the user with teams, recent projects and the cached current
    project.
  - Sign-in finds or creates the user. The very first user is made an Admin of the
    first team.
- **Seeding** (`Seeding`, `ProjectPermissions`, `TeamPermissions`, `ProjectRoles`,
  `TeamRoles`, `TeamModel`). Constant permission and role tables are inserted with
  "ignore duplicates". Role-permission records are derived from the stored roles. A
  default team is created when none exists.
- **Action envelopes** (`Envelope` and one module per creator file). Every state change
  travels as `{type, payload, meta}`. `meta.sendToServer` decides whether it goes to the
  server, and a server-bound envelope names its project.
- **Client thunks** (`UploadActions`, `ImportTaxonomyThunk`, over the client store
  `ClientStore`). Documents are uploaded five at a time, and an imported taxonomy is
  sent to the server.
- **Socket relay** (`Relay`). A subscriber forwards each action published on the
  `action` channel to the socket room `projects-<project id>`. The `identify-user`
  handshake puts a socket in the room of its user's current project.

A JavaScript promise is modelled as `Settled<T>`: `Resolved(value)`, `Rejected(error)`,
or `Pending` when it never settles. `Pending` is the fate of every promise whose failure
the source does not catch.

The shared Redis cache is modelled by the `Cache` class. It can be down, and then every
read reports an error. Writing a model and reading it back depends on JSON encoding, so
the lemmas about that are stated for any `encode`/`decode` pair that round-trips.

Termination of the tree and export recursion rests on the store's referential
invariant. This is `TaxonomyModel.WellFormed`: ids are unique, and a rank that every
child has below its parent witnesses that the parent relation has no cycles.

Three behaviours of the code are easy to misread, and the model follows the code:

- `populateUser` with no team or no Admin role: the code calls `reject` and falls
  through to `team.id`. That read throws before `userTeam.create` is reached, so no
  membership is created (`UserModel.PopulateFirstUser`).
- Taxonomy `rowToModel` when the cache read fails: the code rejects with the cache's
  error. It does not fall back to building the tree.
- The store's tables use the `utf8_general_ci` collation. So `ORDER BY label`,
  `ORDER BY name` and `ORDER BY team.name`, the e-mail lookup of sign-in and the Admin
  role lookup all ignore letter case (`Strings.CollationKey`). For example, "apple" sorts
  before "Banana", and "Bob@x.com" finds the stored "bob@x.com".

## Model

| member | source | states |
|---|---|---|
| Envelope.ServerMeta | src/middleware/actions/taxonomy.js:28-32 | server-bound meta: sent to the server, naming initiator and project; well routed |
| Envelope.LocalMetaBy | src/middleware/actions/taxonomy.js:117-121 | local meta: never sent, no project, records the given initiator |
| EnvActions.InitEnv | src/middleware/actions/env.js:4-11 | type "INIT ENVIRONMENT", local and anonymous, environment carried unchanged |
| NullActions.NullAction | src/middleware/actions/null.js:3-9 | type "NULL ACTION", local and anonymous; takes no argument, so every call gives the same envelope |
| TaxonomyActions.TypeOfDistinguishesKinds | src/middleware/actions/taxonomy.js:21-217 | the 13 type strings are pairwise distinct: equal types imply the same kind of payload |
| TaxonomyActions.AddTaxonomy | src/middleware/actions/taxonomy.js:21-36 | server-bound to the caller's project; fresh generated id; name and imported taxonomy carried unchanged |
| TaxonomyActions.AddToTaxonomy | src/middleware/actions/taxonomy.js:38-55 | server-bound to the project; fresh id; label, parent and taxonomy carried unchanged |
| TaxonomyActions.ChangeSelectedTaxonomy | src/middleware/actions/taxonomy.js:57-64 | local and anonymous; the (possibly null) selection carried unchanged |
| TaxonomyActions.CompletedTaxonomyImport | src/middleware/actions/taxonomy.js:66-77 | local and anonymous; id and tree carried unchanged |
| TaxonomyActions.CreateTaxonomyImport | src/middleware/actions/taxonomy.js:79-92 | local and anonymous; id, name and step count carried unchanged |
| TaxonomyActions.FilterTaxonomyRequest | src/middleware/actions/taxonomy.js:94-108 | server-bound to the project; filter and taxonomy id carried unchanged |
| TaxonomyActions.FilterTaxonomyResponse | src/middleware/actions/taxonomy.js:110-124 | local, no project, yet records the user as initiator |
| TaxonomyActions.RemoveFromTaxonomy | src/middleware/actions/taxonomy.js:126-140 | server-bound to the project; the caller's term id kept, not regenerated |
| TaxonomyActions.RenameTaxonomy | src/middleware/actions/taxonomy.js:142-156 | server-bound to the project; id and new name carried unchanged |
| TaxonomyActions.RenameTermInTaxonomy | src/middleware/actions/taxonomy.js:158-174 | server-bound to the project; id, new name and taxonomy carried unchanged |
| TaxonomyActions.UpdateClientTaxonomyId | src/middleware/actions/taxonomy.js:176-187 | local and anonymous; client id and server id carried unchanged |
| TaxonomyActions.UpdateClientTaxonomyTermId | src/middleware/actions/taxonomy.js:189-202 | local and anonymous; client id, id and taxonomy id carried unchanged |
| TaxonomyActions.UpdateClientTaxonomyImport | src/middleware/actions/taxonomy.js:204-217 | local and anonymous; import progress carried unchanged |
| DocumentActions.TypeOfDistinguishesKinds | src/middleware/actions/document.js:25-128 | the 7 type strings are pairwise distinct |
| DocumentActions.BatchLabel | src/middleware/actions/document.js:34 | the trimmed batch name when it is not blank, otherwise the formatted current time; a typed label never starts with white space |
| DocumentActions.AddDocuments | src/middleware/actions/document.js:25-49 | local although it names project and initiator; documents are the element-wise conversion of the import documents, same length and order, all with the same batch label |
| DocumentActions.ChangeDocumentSet | src/middleware/actions/document.js:51-62 | local and anonymous; an omitted batch is null |
| DocumentActions.CompleteDocument | src/middleware/actions/document.js:64-79 | server-bound to the project; annotations, document and user carried unchanged |
| DocumentActions.DeleteDocuments | src/middleware/actions/document.js:81-93 | server-bound to the project; the ids carried unchanged |
| DocumentActions.MarkDocumentsComplete | src/middleware/actions/document.js:95-107 | server-bound to the project; the documents carried unchanged |
| DocumentActions.SetDocumentsWorkBatch | src/middleware/actions/document.js:109-116 | local and anonymous |
| DocumentActions.UpdateDocuments | src/middleware/actions/document.js:118-128 | always local, no project; initiator is the user's id when a user is given and null otherwise |
| UserActions.SetCurrentUser | src/middleware/actions/user.js:9-16 | local and anonymous; the user carried unchanged |
| UserActions.ClearCurrentUser | src/middleware/actions/user.js:18-24 | local and anonymous, no payload |
| UserActions.MarkCurrentDocumentAsViewing | src/middleware/actions/user.js:26-39 | server-bound to the project with the user as initiator; the (possibly null) document id and the user carried unchanged |
| ProjectActions.CreateNewProject | src/middleware/actions/project.js:8-21 | server-bound with the literal project "NEW" rather than a project id; name and team carried unchanged |
| ProjectActions.ProjectAdded | src/middleware/actions/project.js:23-30 | local, no project, records the user as initiator; the project carried unchanged |
| UploadActions.UploadDocuments | src/middleware/actions/upload.js:11-28 | server-bound; the project both in meta and beside the documents; an omitted batch id is null |
| UploadActions.NextBatch | src/middleware/actions/upload.js:33-38 | the documents of the first min(5, n) keys, in key order |
| UploadActions.NextBatchId | src/middleware/actions/upload.js:48 | the reply's batch id when it is truthy, otherwise null |
| UploadActions.UploadRequest | src/middleware/actions/upload.js:32-43 | nothing is sent exactly when no document waits; otherwise the envelope of the next batch |
| UploadActions.ProcessUploadBatch | src/middleware/actions/upload.js:30-52 | with nothing waiting, nothing is sent, dispatched or scheduled; with no current user or project `unwrap` throws; otherwise one batch is sent, and an answer is dispatched and the next call is queued with the answer's batch id |
| ClientStore.Store.constructor | src/middleware/actions/upload.js:31-33 | a store with the given selections, nothing dispatched or queued |
| ClientStore.Store.Dispatch | src/middleware/actions/upload.js:46 | appends the action to what was dispatched, nothing else changes |
| ClientStore.Store.Schedule | src/middleware/actions/upload.js:47-49 | appends one upload call to the timer queue, nothing else changes |
| ImportTaxonomyThunk.ImportTaxonomy | src/middleware/actions/importTaxonomy.js:8-27 | sends exactly when project and user are current; what it sends is the server-bound `addTaxonomy` envelope for that project; it dispatches the server's answer, not the envelope |
| Relay.RoomOf | src/server/init/initSocket.js:32 | the room is `projects-` plus the project id, or `projects-undefined` when the action names no project |
| Relay.RoomOfInjective | src/server/init/initSocket.js:39 | different projects have different rooms |
| Relay.Members | src/server/init/initSocket.js:40 | the sockets that joined a room |
| Relay.Connect | src/server/init/initSocket.js:36 | a new socket is in no room and has received nothing |
| Relay.Identify | src/server/init/initSocket.js:37-43 | with a current project the socket joins that room and the subscriber subscribes to it; without one nothing changes; other sockets keep their rooms |
| Relay.Receive | src/server/init/initSocket.js:29-34 | an `action` message is appended to the inbox of exactly the sockets in its project's room; other channels change nothing |
| Relay.IdentifyKeepsRooms | src/server/init/initSocket.js:36-44 | joins are never undone: after identifying with two projects the socket is in both rooms |
| Relay.DeliveredIffMember | src/server/init/initSocket.js:32 | a socket receives the action if and only if it is in the room, whoever initiated it, so the originator gets its own action back |
| Relay.RoomChannelDropped | src/server/init/initSocket.js:30-41 | messages on a room's channel, which the handshake subscribes to, are dropped |
| Relay.TwoRoomsScenario | src/server/init/initSocket.js:29-44 | two clients in the room of P1 both receive an action of P1, including its sender; a client in P2 receives nothing |
| Relay.Server.constructor | src/server/init/initSocket.js:25-35 | the subscriber starts subscribed to `action`, with no sockets |
| Relay.Server.OnConnection | src/server/init/initSocket.js:36 | the new state is `Connect` of the old one |
| Relay.Server.IdentifyUser | src/server/init/initSocket.js:37-43 | the new state is `Identify` of the old one |
| Relay.Server.OnMessage | src/server/init/initSocket.js:29-34 | the new state is `Receive` of the old one |
| Cache.Lookup | src/server/models/taxonomy.js:144-152 | error exactly when the cache is down; a hit exactly for a stored non-empty value, which it returns; otherwise a miss |
| Cache.Write | src/server/models/taxonomy.js:162 | the key now holds the value with the given expiry; every other entry is unchanged |
| Cache.WriteThenRead | src/server/models/taxonomy.js:149-162 | reading a key right after writing a non-empty value hits that value |
| Cache.Cache.constructor | src/server/models/taxonomy.js:144 | an empty cache, up or down |
| Cache.Cache.Get | src/server/models/taxonomy.js:144-152 | the read the callback observes, changing nothing |
| Cache.Cache.Set | src/server/models/taxonomy.js:162 | the new contents are `Write` of the old |
| Seeding.InsertIgnore | src/server/models/projectRole.js:77-83 | existing rows kept in place; only records are appended; afterwards every record's key is present |
| Seeding.InsertIgnoreNothingNew | src/server/models/projectRole.js:99-100 | records whose keys are all present insert nothing |
| Seeding.InsertIgnoreIdempotent | src/server/models/projectRole.js:99-100 | seeding the same records twice adds nothing the second time |
| Seeding.DistinctInsert | src/server/models/projectPermissions.js:39-47 | records with distinct keys, none present, are all appended in order |
| Seeding.SpecsNamed | src/server/models/projectRole.js:88 | the table's roles with the row's label, and only those |
| Seeding.PermissionsOf | src/server/models/projectRole.js:88-90 | the permissions of the first role with the row's label, none for an unknown label |
| Seeding.GrantsOf | src/server/models/projectRole.js:89-96 | one record per permission of the row's role, in table order, naming the row's id |
| Seeding.ToInsertCount | src/server/models/projectRole.js:86-98 | the reduce emits as many records as the matched roles have permissions |
| Seeding.ToInsertMembers | src/server/models/projectRole.js:86-98 | a record is emitted exactly for a stored row and a permission of its label, under the given column names |
| Seeding.Stored | src/server/models/projectRole.js:63-74 | the stored row keeps a value only under the table's own key column; an unset key column holds the empty default |
| Seeding.StoredMatching | src/server/models/teamRole.js:59-94 | with records named after the table's key columns, the stored rows are exactly the pairs of a stored role's id and a permission of its label |
| Seeding.NewRoles | src/server/models/projectRole.js:77-82 | one role row per table role, with its label, in order |
| Seeding.RoleTables.constructor | src/server/models/projectRole.js:45-74 | the two tables and the role-permission table's key columns as given |
| Seeding.RoleTables.Seed | src/server/models/projectRole.js:77-100 | roles inserted ignoring duplicate labels (compared under the collation), then the rows the store makes of the records the reduce builds from all stored roles, ignoring duplicates |
| Seeding.SeedTwice | src/server/models/projectRole.js:77-100 | a second seeding changes neither table, whatever ids are generated |
| Seeding.PermissionRecords | src/server/models/projectPermissions.js:39-45 | one record per key, id the key and label its description, in key order |
| Seeding.PermissionTable.constructor | src/server/models/projectPermissions.js:22-38 | the table as given |
| Seeding.PermissionTable.Seed | src/server/models/projectPermissions.js:39-47 | the records are inserted ignoring duplicate ids |
| Seeding.SeedEmptyPermissions | src/server/models/projectPermissions.js:39-47 | into an empty table, seeding stores exactly the records |
| ProjectPermissions.Ids | src/server/models/projectPermissions.js:9-20 | exactly 10 permission ids, all distinct |
| ProjectPermissions.InitProjectPermissionsModel | src/server/models/projectPermissions.js:39-47 | the table after seeding the ten permissions |
| ProjectPermissions.SeedProjectPermissions | src/server/models/projectPermissions.js:39-47 | an empty table receives the ten permissions with their descriptions; re-seeding changes nothing |
| TeamPermissions.Ids | src/server/models/teamPermissions.js:9-18 | exactly 8 permission ids, all distinct |
| TeamPermissions.InitTeamPermissionsModel | src/server/models/teamPermissions.js:37-45 | the table after seeding the eight permissions |
| TeamPermissions.SeedTeamPermissions | src/server/models/teamPermissions.js:37-45 | an empty table receives the eight permissions with their descriptions; re-seeding changes nothing |
| ProjectRoles.InitProjectRoleModel | src/server/models/projectRole.js:45-109 | roles inserted ignoring duplicates, then the rows stored for the reduce's records, which are all the blank pair |
| ProjectRoles.AsWrittenRows | src/server/models/projectRole.js:63-98 | every row stored for the records the reduce builds is the blank pair |
| ProjectRoles.SeedLosesGrants | src/server/models/projectRole.js:63-100 | seeding an empty table stores only the blank pair, where the corrected seeding stores the Member role's permission |
| ProjectRoles.InitProjectRoleModelCorrected | src/server/models/projectRole.js:45-109 | the records built under the table's own columns are stored |
| ProjectRoles.CorrectedSeedStoresGrants | src/server/models/projectRole.js:86-100 | after corrected seeding the table holds a pair exactly when it was there before or it is a stored role's id with one of its label's permissions |
| ProjectRoles.ProjectRolePermissions | src/server/models/projectRole.js:10-43 | Member, Admin and Owner get their permission lists; any other label gets none |
| ProjectRoles.OwnerSubsumes | src/server/models/projectRole.js:10-43 | Owner has every permission of Admin and of Member |
| ProjectRoles.RolePermissionsAreKnown | src/server/models/projectRole.js:10-43 | every permission a project role names is a project permission id |
| ProjectRoles.EmittedColumnsMismatch | src/server/models/projectRole.js:63-98 | every record the reduce builds names `teamRoleId`/`teamPermissionId`, never the project table's own `projectRoleId`/`projectPermissionId` |
| ProjectRoles.SeededProjectRoleRecords | src/server/models/projectRole.js:86-98 | three freshly stored roles receive 17 records |
| TeamRoles.InitTeamRoleModel | src/server/models/teamRole.js:41-105 | roles inserted ignoring duplicates, then the rows stored for the reduce's records from all stored roles |
| TeamRoles.TeamGrantsStored | src/server/models/teamRole.js:59-94 | the stored rows are exactly a stored role's id with one of its label's permissions |
| TeamRoles.TeamRolePermissions | src/server/models/teamRole.js:10-39 | Manager and Admin get their permission lists; Member and unknown labels get none |
| TeamRoles.AdminSubsumesManager | src/server/models/teamRole.js:10-39 | Admin has every Manager permission and also one that Manager lacks |
| TeamRoles.RolePermissionsAreKnown | src/server/models/teamRole.js:10-39 | every permission a team role names is a team permission id |
| TeamRoles.MemberGrantedNothing | src/server/models/teamRole.js:82-94 | no stored row names a Member row |
| TeamRoles.SeededTeamRoleRecords | src/server/models/teamRole.js:82-94 | three freshly stored roles receive 12 records |
| TeamModel.InitTeams | src/server/models/team.js:18-31 | an empty table gets the single team "Endexa Admins"; a non-empty one is unchanged; at least one team afterwards |
| TeamModel.InitTeamsIdempotent | src/server/models/team.js:21-22 | starting twice creates at most one team |
| TeamModel.TeamTable.constructor | src/server/models/team.js:3-17 | the table as given |
| TeamModel.TeamTable.InitTeamModel | src/server/models/team.js:18-31 | the new table is `InitTeams` of the old |
| Tables.ViewersOf | src/server/models/document.js:131-158 | exactly the brief records of the users viewing the document |
| DocumentModel.UnixSeconds | src/server/models/document.js:139 | whole seconds, rounded down |
| DocumentModel.UnhandledState | src/server/models/document.js:297 | the message quotes the state, and a null state as "null" |
| DocumentModel.DocumentFromRow | src/server/models/document.js:262-313 | an unhandled state rejects with its message; a failed viewer query rejects; a model exactly for a handled state with the joins it reads present; otherwise a TypeError; title defaults to "Untitled"; id, flag, batch and uploader copied; viewers as queried |
| DocumentModel.DocumentFromRowState | src/server/models/document.js:143-147 | "uploaded" and "processing" show as processing with the progress of their processing job; "ready" carries the confidence; "complete" the completer |
| DocumentModel.FailedStateRejected | src/server/models/document.js:296-297 | the enumeration's own "failed" state is rejected as unhandled |
| DocumentModel.UploadedAsProcessing | src/server/models/document.js:265-267 | an "uploaded" row gives the same model as that row in "processing" |
| DocumentModel.DocumentCacheKey | src/server/models/document.js:13-17 | `models.document.` followed by the id |
| DocumentModel.DocumentCacheKeyById | src/server/models/document.js:13-17 | a model and its id share a key; different ids have different keys |
| TaxonomyModel.OrderByLabel | src/server/models/taxonomy.js:155-157 | a permutation of the terms, sorted by label under the case-insensitive collation |
| TaxonomyModel.ChildTerms | src/server/models/taxonomy.js:96-105 | the first 100 children of the parent by label, or all of them when there are fewer: a sub-multiset of the children, as many as the limit allows, sorted by label, and no child left out sorts before one kept |
| TaxonomyModel.RootTerms | src/server/models/taxonomy.js:153-159 | the first 100 roots of the taxonomy by label, or all of them when there are fewer: a sub-multiset of the roots, as many as the limit allows, sorted by label, and no root left out sorts before one kept |
| TaxonomyModel.ChildrenAmong | src/server/models/taxonomy.js:125 | exactly the fetched children whose parent is the given term |
| TaxonomyModel.ChildrenAmongIsChildQuery | src/server/models/taxonomy.js:121-126 | the filter hands each term exactly its own child query |
| TaxonomyModel.LeavesOf | src/server/models/taxonomy.js:90-93 | the `{id, label}` of each term, in order |
| TaxonomyModel.LowerLabels | src/server/models/taxonomy.js:132 | the lower-cased label of each term, in order |
| TaxonomyModel.BuildTree | src/server/models/taxonomy.js:76-139 | id and label as given; count is the number of terms; a leaf list exactly when no term has a child, and then the terms' leaves in order; otherwise keyed by exactly the lower-cased labels |
| TaxonomyModel.SubtreesOf | src/server/models/taxonomy.js:120-126 | one subtree per term, in order |
| TaxonomyModel.Subtree | src/server/models/taxonomy.js:122-125 | a term's subtree has that term's id and label |
| TaxonomyModel.TreeOfNoTerms | src/server/models/taxonomy.js:80-87 | no terms gives no children and a zero count |
| TaxonomyModel.TreeOfLeaves | src/server/models/taxonomy.js:110-118 | with no grandchildren the children are the leaves in input order, counted |
| TaxonomyModel.TreeSubtreeOf | src/server/models/taxonomy.js:127-136 | a lower-cased label maps to the subtree of the last term with that label |
| TaxonomyModel.TaxonomyCacheKey | src/server/models/taxonomy.js:15-17 | `models.project.` followed by the taxonomy id |
| TaxonomyModel.TaxonomyCacheKeyInjective | src/server/models/taxonomy.js:15-17 | different taxonomies have different keys |
| TaxonomyModel.Materialize | src/server/models/taxonomy.js:153-160 | the root has no id and the taxonomy's name; it counts at most 100 root terms |
| TaxonomyModel.CachedTreeReadError | src/server/models/taxonomy.js:145-148 | a failed read rejects, builds nothing, writes nothing |
| TaxonomyModel.CachedTreeHit | src/server/models/taxonomy.js:149-152 | a hit returns the decoded entry whatever the terms are, and writes nothing |
| TaxonomyModel.CachedTreeMiss | src/server/models/taxonomy.js:153-164 | a miss returns the built tree and stores its encoding with the default expiry |
| TaxonomyModel.CachedTreeTwice | src/server/models/taxonomy.js:143-164 | when encoding round-trips, a second call is a hit on the same tree and changes nothing |
| TaxonomyModel.RowToModel | src/server/models/taxonomy.js:141-167 | result and new cache are those of `CachedTree` on the old cache |
| TaxonomyModel.EffectiveParent | src/server/models/taxonomy.js:203 | a null or empty parent id selects the roots |
| TaxonomyModel.ChildrenIn | src/server/models/taxonomy.js:198-208 | exactly the taxonomy's terms under the parent |
| TaxonomyModel.GrandparentRows | src/server/models/taxonomy.js:178-186 | exactly the children under the parent that have children themselves |
| TaxonomyModel.ChildlessIn | src/server/models/taxonomy.js:222-233 | exactly the children under the parent not named by the ids |
| TaxonomyModel.EmptyLists | src/server/models/taxonomy.js:237 | one empty list per term |
| TaxonomyModel.Merge | src/server/models/taxonomy.js:218-242 | distinct keys, exactly the labels of the rows and of the other children |
| TaxonomyModel.MergeOther | src/server/models/taxonomy.js:239-242 | a childless child's label maps to the empty list, whatever a row had under it |
| TaxonomyModel.MergeRow | src/server/models/taxonomy.js:218-242 | any other label keeps the value the rows gave it |
| TaxonomyModel.SortKeys | src/server/models/taxonomy.js:243-248 | the keys in the comparator's order |
| TaxonomyModel.SortKeysLookup | src/server/models/taxonomy.js:243-248 | sorting keys keeps each key's value |
| TaxonomyModel.ChildExports | src/server/models/taxonomy.js:214-216 | one recursive export per row, in order |
| TaxonomyModel.ExportLeaves | src/server/models/taxonomy.js:196-212 | with no grandchildren, the export is the children's labels, a permutation sorted under the case-insensitive collation |
| TaxonomyModel.ExportKeys | src/server/models/taxonomy.js:214-248 | otherwise an object keyed once by each child's label, in the comparator's order when it is a strict order |
| TaxonomyModel.ExportChildless | src/server/models/taxonomy.js:234-242 | a childless child exports as the empty list, even over a row with the same label |
| TaxonomyModel.ExportRow | src/server/models/taxonomy.js:214-221 | a row's unique label maps to that row's own recursive export |
| TaxonomyModel.FindTaxonomy | src/server/models/taxonomy.js:256-257 | the taxonomy with that id, or none exactly when no row has it |
| TaxonomyModel.HandleExport | src/server/models/taxonomy.js:255-284 | 404 exactly for an unknown taxonomy; a download named after the taxonomy, holding its export, exactly when the file is written; 500 exactly when the step after the export throws |
| TaxonomyModel.NotFoundReadsNoTerms | src/server/models/taxonomy.js:259-262 | the 404 answer does not depend on the terms or the file steps |
| ProjectModel.ProjectCacheKey | src/server/models/project.js:14-18 | `models.project.` followed by the id of the id or model given |
| ProjectModel.ProjectKeyIsTaxonomyKey | src/server/models/project.js:14-18 | a project and a taxonomy with the same id share one cache key |
| ProjectModel.ProjectKeyNotDocumentKey | src/server/models/project.js:14-18 | project keys never collide with document keys |
| ProjectModel.ProjectTaxonomies | src/server/models/project.js:57-60 | exactly the project's taxonomy rows |
| ProjectModel.TaxonomyRows | src/server/models/project.js:57-60 | the first 100 of the project's taxonomies by name, or all when there are fewer: a sub-multiset, as many as the limit allows, sorted by name under the collation, and none left out sorts before one kept |
| ProjectModel.DocumentRows | src/server/models/project.js:61-81 | exactly the project's documents in the given state |
| ProjectModel.DocumentModels | src/server/models/project.js:90-92 | each row's document model with its viewers, in order |
| ProjectModel.TaxonomyTrees | src/server/models/project.js:89 | one outcome per taxonomy, resolved exactly when the cache is up; a down cache is left unchanged; no other key is touched |
| ProjectModel.Finish | src/server/models/project.js:88-137 | never rejects; resolves exactly when every taxonomy and document model resolved |
| ProjectModel.ProjectOf | src/server/models/project.js:54-139 | never rejects; resolves exactly when the cache is up (or there is no taxonomy) and every document model resolves; a down cache is unchanged |
| ProjectModel.RowToModel | src/server/models/project.js:54-139 | result and new cache are those of `ProjectOf` on the old cache |
| ProjectModel.LoadTaxonomies | src/server/models/project.js:89 | trees and new cache are those of `TaxonomyTrees` on the old cache |
| ProjectModel.ResolvedProjectTotals | src/server/models/project.js:99-130 | the row's id, name and slug; each bucket counts the project's documents in its state; the total is their sum; uploading is empty |
| ProjectModel.BucketLookup | src/server/models/project.js:109-114 | a bucket maps each queried row's id to its model |
| ProjectModel.BucketKeys | src/server/models/project.js:109-114 | a bucket's keys are exactly its rows' ids |
| ProjectModel.QueriedBucketContents | src/server/models/project.js:109-129 | a state's bucket holds every project document in that state under its id, and no other document |
| ProjectModel.ResolvedProjectBuckets | src/server/models/project.js:103-130 | the three buckets are those of the three state queries |
| ProjectModel.ResolvedProjectDocument | src/server/models/project.js:61-81 | a ready document is listed with its confidence; an uploaded or failed one is in no bucket |
| ProjectModel.TreesOnEmptyCache | src/server/models/project.js:89 | with the cache up and nothing cached, every taxonomy is built from the term store |
| ProjectModel.ResolvedProjectTaxonomies | src/server/models/project.js:131-134 | on a cold cache, each taxonomy id maps to the tree built for it |
| ProjectModel.ProjectTaxonomyObject | src/server/models/project.js:131-134 | the taxonomies object zips the queried ids with their trees |
| UserModel.AccessesOf | src/server/models/user.js:100-112 | exactly the user's access rows |
| UserModel.RecentRows | src/server/models/user.js:100-112 | the user's 5 latest accesses, or all of them when there are 5 or fewer: a sub-multiset of the user's access rows, as many as the limit allows, latest first, and no access left out is later than one kept |
| UserModel.ProjectById | src/server/models/user.js:103-105 | the joined project, or none when no project has the id |
| UserModel.TeamById | src/server/models/user.js:114-118 | the joined team, or none when no team has the id |
| UserModel.RecentProjectOf | src/server/models/user.js:150-154 | the access row's id with the project's name and slug; none (a throw) when the project is missing |
| UserModel.MembershipsOf | src/server/models/user.js:113-124 | exactly the user's membership rows |
| UserModel.TeamRows | src/server/models/user.js:113-124 | a permutation of the user's memberships, sorted by team name under the case-insensitive collation |
| UserModel.RolePermissions | src/server/models/user.js:129-132 | exactly the permission ids granted to the membership's role; none for a null role |
| UserModel.TeamDataOf | src/server/models/user.js:136-140 | team id, name and the role's permissions; none (a throw) when the team is missing |
| UserModel.TeamDatas | src/server/models/user.js:134-141 | the team data of every membership, or none when any throws |
| UserModel.RecentProjects | src/server/models/user.js:150-154 | the recent project of every access row, or none when any throws |
| UserModel.BaseModel | src/server/models/user.js:142-155 | defined exactly when no join read throws; row's id, email, name and avatar; no current project yet |
| UserModel.CurrentProject | src/server/models/user.js:156-178 | a down cache rejects with no write; a hit gives the decoded project with no write; on a miss the project is built and, when resolved, written back with the default expiry |
| UserModel.CurrentProjectTwice | src/server/models/user.js:156-178 | when encoding round-trips, a second read after a resolved one is a hit on the same project |
| UserModel.UserOf | src/server/models/user.js:96-185 | a throwing join never settles; without a current project the cache is untouched; a resolved user is the base model plus a current project exactly when the row has one; it rejects only when the cache is down |
| UserModel.WithProject | src/server/models/user.js:163-176 | the user with the project once resolved; rejection and pending passed on |
| UserModel.UserWithoutProject | src/server/models/user.js:149-181 | with no current project the user resolves from the store alone, even when the cache is down |
| UserModel.UserOfTwice | src/server/models/user.js:96-185 | when encoding round-trips, materializing again gives the same user and changes nothing |
| UserModel.RecentProjectsOfModel | src/server/models/user.js:100-112 | at most 5 recent projects, latest first, each named by its access row's id |
| UserModel.TeamsOfModel | src/server/models/user.js:134-141 | the teams object maps each team of the user to its name and the role's permissions |
| UserModel.LoadCurrentProject | src/server/models/user.js:156-178 | result and new cache are those of `CurrentProject` on the old cache |
| UserModel.BuildCurrentProject | src/server/models/user.js:167-177 | on a miss, result and new cache are those of `CurrentProject` |
| UserModel.RowToModel | src/server/models/user.js:96-185 | result and new cache are those of `UserOf` on the old cache |
| UserModel.FindByEmail | src/server/models/user.js:199-203 | a user whose e-mail equals the given one ignoring letter case, or none exactly when no user's does |
| UserModel.SignInRow | src/server/models/user.js:198-214 | the row `findOrCreate` settles on: its e-mail matches the first address under the collation; a found row is a stored user, otherwise it is the new user built from the raw identity |
| UserModel.NewUser | src/server/models/user.js:204-209 | the picture or "", the nickname or "No Name", no current project |
| UserModel.AdminRoleRow | src/server/models/user.js:233-235 | a role labelled Admin ignoring letter case, or none exactly when there is none |
| UserModel.Forward | src/server/models/user.js:217-220 | a resolved user passes through; a rejection is never forwarded, so the call stays pending |
| UserModel.Populate | src/server/models/user.js:187-264 | the terms are untouched; the only rejections are "no e-mail" and "first user", and they leave the cache unchanged; otherwise the sign-in row is stored and the call settles as the user model of that row, with the cache that materializing leaves |
| UserModel.PopulateResolved | src/server/models/user.js:187-264 | a resolved sign-in is the signed-in row's user: its id, and its e-mail matching the first address; a new user carries the fresh id, that exact address, the nickname or "No Name", and no current project |
| UserModel.PopulateNoEmail | src/server/models/user.js:194-197 | no e-mail rejects and changes nothing |
| UserModel.PopulateFirstUser | src/server/models/user.js:226-256 | the first user is stored; without a team or Admin role the call rejects and no membership is made; otherwise one Admin membership of the first team |
| UserModel.PopulateLaterUser | src/server/models/user.js:215-260 | a later new user is stored and joins no team; a known e-mail stores nothing |
| UserModel.PopulateTwice | src/server/models/user.js:198-214 | signing in twice stores the user once |
| UserModel.Accounts.constructor | src/server/models/user.js:187-193 | the tables as given |
| UserModel.Accounts.PopulateUser | src/server/models/user.js:187-264 | result, new tables and new cache are those of `Populate` on the old ones |
| JsObject.ZipObject | src/server/models/project.js:131-134 | distinct keys, exactly the given keys; in order when the keys are distinct |
| JsObject.ZipObjectLast | src/server/models/taxonomy.js:131-134 | a key keeps the value of its last occurrence |
| JsObject.Assign | src/server/models/taxonomy.js:239-242 | the spread has the keys of both objects |
| JsObject.AssignLookup | src/server/models/taxonomy.js:239-242 | the right-hand object wins on shared keys |
| Strings.Trim | src/middleware/actions/document.js:34 | a slice of the input with only white space cut off either side; no white space at either end; empty exactly for blank input |
| Strings.CollationKey | src/server/init/initDatabase.js:24-25 | the comparison weights: same length, each ASCII letter folded to upper case |
| Strings.CollationIgnoresCase | src/server/init/initDatabase.js:24-25 | a string and its lower-cased form compare equal under the collation |
| Strings.CollationOrderIsNotCodeUnitOrder | src/server/init/initDatabase.js:24-25 | "apple" sorts before "Banana" under the collation, the other way round by code unit |
| Strings.CollationLessTransitive | src/server/init/initDatabase.js:24-25 | the collation order is transitive |
| Strings.Lower | src/server/models/taxonomy.js:132 | the same length, each character lower-cased |

## Left out

- Transport is not modelled: Redis, socket.io and HTTP. The relay keeps only room
  membership, subscriptions and per-socket delivery. Start-up configuration (host, port,
  the initialization-failure check) and listening are out.
- The publish side of actions is not modelled: the server handlers that publish to
  `action`, and `sendAction` on the client. A server's answer is a parameter (`respond`).
- `Promise.all` fan-out is modelled as sequential recursion in input order. Concurrent
  cache misses for the same key (a stampede) and other races are out of scope.
- Cache expiry is not modelled. The expiry passed on each write is recorded, but entries
  never lapse. Its value comes from constants/models, which is not part of this model.
- These foreign calls are parameters:
  - `cuid` is a `freshId`, and the store's generated ids are `freshIds`.
  - `moment` formatting is `formattedNow`.
  - The clock is `nowSeconds`.
  - `naturalSort` is `natLess`.
  - `fromImportDocument` is passed as itself.
  - `JSON.stringify`/`parse` are an `encode`/`decode` pair.
  - Temp-file creation and `fs.writeFile` are the outcome `FileStep`.
- JavaScript moves integer-like object keys to the front. This is not modelled: objects
  are ordered entry lists.
- Store failures are not modelled. The store is a snapshot that every query reads
  successfully. In the source a failed query is never caught, so the promise never
  settles. The tree and export builders never reject, so `handleExport`'s `.catch`
  fires only when the step after the export throws.
- Schema declarations (`define`, associations, `sync`) and SQL text are replaced by
  query functions over the table snapshot.
- Express routing, authentication, server start-up and UI hydration are not part of
  this model.
- Strings.Lower: lower-cases ASCII letters only. JavaScript's `toLowerCase` also folds
  other scripts.
- TaxonomyModel.ExportKeys: the key order is proved only for a comparator that is a
  strict order. `naturalSort` is not part of this model.
- Strings.CollationKey: folds ASCII letters only. `utf8_general_ci` also folds accented
  letters to their base letter and ignores trailing spaces; those weights are not
  modelled.
- Rows that tie under an `ORDER BY` keep their store order in the model. The store
  leaves the order of ties unspecified, so the contracts say nothing about it.
- Equality on generated ids in `where` clauses, and the permission and role-permission
  unique keys, are compared exactly. Their values are generated ids or upper-case
  constants, so case folding does not change the outcome.
- ProjectRoles.InitProjectRoleModel: takes the store to drop attributes the table does
  not define and to write the implicit default for a key column left unset, as MySQL's
  `INSERT IGNORE` does. A store that refused the insert instead would leave the table
  unchanged and the start-up promise unsettled. That case is not modelled.
- Numeric columns are unbounded integers. The database's integer widths are not
  modelled.
- The sequence order of `Promise.all` outcomes is kept. The logging calls are left out.

## Findings

| source | as written | input that shows it | evidently intended | confidence | as-written member | corrected member |
|---|---|---|---|---|---|---|
| src/server/models/projectRole.js:92-95 | the reduce builds `{teamRoleId, teamPermissionId}` records for the `projectRolePermission` table, whose key columns are `projectRoleId` and `projectPermissionId` (lines 63-72) | seeding an empty store: the three roles yield 17 records, and the table ends up with the single blank pair | `{projectRoleId: row.id, projectPermissionId: p}`, one stored pair per role and permission | not executed; rests on the store dropping unknown attributes and `INSERT IGNORE` writing the implicit default | ProjectRoles.InitProjectRoleModel, ProjectRoles.SeedLosesGrants | ProjectRoles.InitProjectRoleModelCorrected, ProjectRoles.CorrectedSeedStoresGrants |
