# ogma translation server — verified model of the exporters and handlers

ogma stores translation projects. A project has a name, a member list
(user id and role `editor` or `owner`), a list of project keys (dotted names
such as `home.title`), and a list of locales. Each locale has a code and a
translation for some of the keys. Editors change keys, locales and members
through HTTP handlers. API clients follow projects and export them in one
of five formats: `apple`, `android`, `flatjson`, `csv`, `json`.

This Dafny project models, as proved Dafny:

- the five exporters and the exporter table;
- the export handlers (one project, a batch of projects, the projects a
  client follows);
- the project query filter `projectsListQuery`;
- the handlers that add, rename and delete keys;
- the handlers that add, fill and delete locales;
- the handlers that add, change and remove project members, and
  `roleProject`;
- the handlers that link and unlink clients and projects;
- the create, update and delete handlers for projects, user accounts and
  clients.

## How the model is built

- **Objects are ordered lists.** A JavaScript object is a list of
  `(name, value)` pairs in insertion order (`Objects.Fields`).
  - `Objects.Assign` is a property write: an existing name keeps its
    place, a new name is appended.
  - `Objects.AssignAll` is lodash `merge` of a flat object.
  - `Objects.Omit` is lodash `omit`.
  - Insertion order is the order JavaScript enumerates names that are not
    array indices, so `reduce` over an object and the flat/csv/android
    outputs follow it for such names. Index-like names (`"1"`, `"404"`)
    are enumerated first, in ascending numeric order; the model does not
    capture that (see "Left out").
- **lodash list helpers.** `Seqs.Dedup` is `uniq`/`union` (the first
  occurrence wins). `Seqs.Without` is the `filter`/`indexOf` idiom.
  `Seqs.FirstIndex` and `Documents.LocaleIndex` are `findIndex`, with -1
  when nothing matches.
- **Pure code is functions and lemmas.** The exporters and the request
  filter are pure functions with lemmas about them.
- **Handlers change documents in place.** The `Project`, `Client` and
  `User` documents are Dafny classes, and the handlers are methods with
  `modifies` clauses.
  - Each handler's `ensures` ties the result and the new state to a
    specification function of the old state (for example
    `LocaleHandlers.UpdatedLocale`).
  - Lemmas state what the source promises about those functions.
  - Loops that the source runs (`reduce`, `map`, `forEach`) are `while`
    loops proved against those functions.
- **Document lookups are parameters.** A handler receives the document
  (`null` when there is none) and applies the caller filter
  (`Access.Finds`) itself.
  - A store of documents is a `map` or `seq` field of a store class.
  - The database-assigned id is a parameter too.
- **Failures are outcomes.** Rejections become `Result` failures named
  after the reply:
  - `NotFound` for 404;
  - `Conflict` for 409;
  - `Forbidden` for 403;
  - `Internal` for the `badImplementation` catch-all.
  A save that the schema rejects ends in the handler's `catch`.

Save-time rules come from the schemas:

- **Required fields and enums.** The member role must be `editor` or
  `owner`. The account role must be `user` or `admin`. A project name and
  a locale code must be present and non-empty. These are checked
  wherever a handler saves.
- **Uniqueness hooks.** Project names and account emails are checked for
  uniqueness only when a document is created, never on update.
- **Route payload schemas.** Where a route declares one, it is a
  precondition: its fields are always present and of the right type.
  Where no route declares one, a missing field is an `Option`.

## Model

| member | source | states |
|---|---|---|
| Access.ProjectsListQuery | src/helpers/index.js:5-16 | the membership condition is present exactly for a caller whose account role is `user` and names that caller; the role condition `editor`/`owner` is present exactly when, in addition, the editor flag is set |
| Access.OthersSeeAll | src/helpers/index.js:5-16 | a caller whose role is not `user` passes the filter for every project, with or without the editor flag |
| Access.UserSeesOwn | src/helpers/index.js:7-12 | for a `user` caller the plain filter holds exactly for projects listing the caller, and the editor filter exactly when, in addition, some entry (not necessarily the caller's) is an editor or owner |
| Access.EditorFilterRedundant | src/helpers/index.js:10-12 | when every member role is one the project schema allows, the editor filter and the plain filter agree |
| Access.SplitMatch | src/helpers/index.js:8-11 | a `user` caller who is listed with a role outside the editor roles still passes the editor filter because another entry is an owner |
| Exporters.ListExporters | src/exporter/index.js:7-13 | the exporter names, in table order: apple, android, flatjson, csv, json |
| Exporters.Resolve | src/exporter/index.js:7-13 | a name selects an exporter exactly when it is one of the listed names |
| Exporters.ResolveNameOf | src/exporter/index.js:7-13 | each exporter is selected by its own name and by no other name |
| Exporters.YamlNotRegistered | src/exporter/index.js:1-13 | `yaml` selects no exporter |
| Exporters.ListedOnce | src/exporter/index.js:7-13 | no name is listed twice |
| FlatJson.Lookup | src/exporter/flatjson.js:16 | the locale's translation for a key when it has one, `""` otherwise |
| FlatJson.Export | src/exporter/flatjson.js:13-18 | the property names are the project keys, each once, in order of first occurrence; every value is its key's translation or `""`; no keys gives `{}` |
| FlatJson.ExportGet | src/exporter/flatjson.js:13-18 | reading a name from the export gives the translation (or `""`) exactly for project keys and nothing for any other name, so translations of non-project keys are dropped |
| FlatJson.ExportMember | src/exporter/flatjson.js:13-18 | a pair is in the export if and only if its name is a project key and its value is that key's translation |
| FlatJson.ExportOrder | src/exporter/flatjson.js:14-17 | entries come in the order of their keys' first occurrences in the key list |
| FlatJson.ExportSingleLine | src/exporter/flatjson.js:13-18 | without line feeds in keys or translations, no exported name or value holds one |
| JsonExport.SetPath | src/exporter/json.js:15 | lodash `set` along a dotted path always yields an object |
| JsonExport.WalkSet | src/exporter/json.js:15 | walking the path just set reaches the value written |
| JsonExport.WalkSetApart | src/exporter/json.js:15 | every path that branches off the path written reads as before |
| JsonExport.WalkSetLeaf | src/exporter/json.js:15 | every string reachable after a write is the value written, at its path, or was reachable before |
| JsonExport.ExportWalk | src/exporter/json.js:13-15 | when no key's path is a proper prefix of another key's path, each project key's path reaches its translation or `""` |
| JsonExport.ExportLeaf | src/exporter/json.js:13-15 | every string in the nested export sits at some project key's path and is that key's translation or `""` |
| JsonExport.ExportAgreesWithFlat | src/exporter/json.js:13-15 | for prefix-free keys, a key's path reaches a value if and only if the flat export holds that key with that value |
| JsonExport.ExportTopLevel | src/exporter/json.js:13-15 | the top-level properties are the keys' first segments, each once, in order of first appearance |
| JsonExport.NestedKeyReplacesString | src/exporter/json.js:13-15 | with keys `a` then `a.b`, the string written for `a` is replaced by an object holding only `b` |
| CsvExport.Rows | src/exporter/csv.js:19 | one row per entry, in order, each key and value wrapped in double quotes |
| CsvExport.Lines | src/exporter/csv.js:15-21 | no entries give no lines at all (not even the header); otherwise the header comes first, then one row per entry |
| CsvExport.PushLines | src/exporter/csv.js:15-21 | the accumulating loop that pushes the header onto an empty buffer produces exactly `Lines` |
| CsvExport.Render | src/exporter/csv.js:14-21 | the exporter returns the lines of the flat export joined by line feeds |
| CsvExport.TextEmpty | src/exporter/csv.js:14-21 | no project keys give the empty string |
| CsvExport.TextLines | src/exporter/csv.js:14-21 | when keys and translations are single-line, splitting the output at line feeds gives back the header and the rows: one line more than there are distinct keys |
| CsvExport.RowsCollide | src/exporter/csv.js:19 | quotes are not escaped, so two different entries can give the same row |
| AndroidExport.Elements | src/exporter/android.js:18-19 | definition: one `<string>` element per flat entry, in order |
| AndroidExport.ExportLines | src/exporter/android.js:14-22 | on single-line input the output's lines are the XML declaration, `<resources>`, the elements (one empty line when there are none) and `</resources>` |
| AppleExport.Lines | src/exporter/apple.js:13-17 | definition: one line per project key, in the key list's order and repeats included, each `"key" = "translation"` |
| AppleExport.ExportEmpty | src/exporter/apple.js:12-17 | no keys give the empty string |
| AppleExport.ExportLines | src/exporter/apple.js:12-17 | on single-line input, splitting the output at line feeds gives back exactly one line per key |
| AppleExport.ExportIgnoresLocaleOrder | src/exporter/apple.js:12-17 | two locales that translate every key alike export alike |
| AppleExport.RepeatedKey | src/exporter/apple.js:13-17 | a key listed twice gives two lines here, but only one entry in the flat export |
| ExportController.ExportLocale | src/controllers/export.controller.js:26-27 | a listed name runs that exporter on the locale's translations and the given key list; any other name returns the translations unchanged |
| ExportController.ExportIgnoresCode | src/controllers/export.controller.js:26-27 | the locale code never changes an export |
| ExportController.ExportProject | src/controllers/export.controller.js:45-66 | succeeds if and only if the project passes the editor filter and has the locale, exporting that locale over the project's own keys; otherwise `NotFound` |
| ExportController.UnionAll | src/controllers/export.controller.js:104-105 | the fold of `uniq(union(...))` over the key lists is every key once, in order of first appearance |
| ExportController.Merged | src/controllers/export.controller.js:98-101 | the merged translations never repeat a name |
| ExportController.MergedLaterWins | src/controllers/export.controller.js:98-101 | a later project's translation replaces an earlier one for the same key; other keys keep theirs |
| ExportController.MergedAbsent | src/controllers/export.controller.js:98-101 | a key that no project translates is absent from the merge |
| ExportController.MergedLast | src/controllers/export.controller.js:98-101 | each key reads as in the last project that translates it |
| ExportController.Batch | src/controllers/export.controller.js:81-106 | succeeds if and only if the batch is non-empty, every lookup found a project and every project has the locale; otherwise `NotFound` |
| ExportController.MergeTranslations | src/controllers/export.controller.js:98-101 | the merging loop computes `Merged` |
| ExportController.FirstMissing | src/controllers/export.controller.js:85-88 | -1 exactly when every lookup found a project, otherwise the first failed lookup |
| ExportController.FirstLacking | src/controllers/export.controller.js:90-96 | -1 exactly when every project has the locale, otherwise the index of a project lacking it |
| ExportController.ExportProjects | src/controllers/export.controller.js:75-108 | returns exactly the batch outcome |
| ExportController.ExportClientProjects | src/controllers/export.controller.js:118-162 | `NotFound` for no client or a client following nothing; otherwise the batch outcome over the followed projects |
| ExportController.BatchAllOrNothing | src/controllers/export.controller.js:85-96 | one missing project, or one project without the locale, fails the whole batch |
| ExportController.BatchInputs | src/controllers/export.controller.js:98-105 | the batch export uses each key once in order of first appearance, and each translation from the last project translating it |
| KeyHandlers.AddedKeys | src/controllers/key.controller.js:50-51 | the new key list repeats no key and holds exactly the old and the added keys; the old keys keep their order and the new ones follow in request order |
| KeyHandlers.AddedKeysIdempotent | src/controllers/key.controller.js:50-51 | adding the same keys again changes nothing |
| KeyHandlers.AddKeys | src/controllers/key.controller.js:40-56 | `NotFound` unless the project passes the editor filter; otherwise the keys become `AddedKeys` and are returned, nothing else changes |
| KeyHandlers.RenamedKeys | src/controllers/key.controller.js:75-77 | after a rename the list repeats no key and holds the keys that are not rename sources and every rename target, even a target whose source was not a key |
| KeyHandlers.Dest | src/controllers/key.controller.js:81-85 | a translation of a rename source goes to its target; any other stays at its own key |
| KeyHandlers.Rekeyed | src/controllers/key.controller.js:80-87 | the re-keyed translations never repeat a key |
| KeyHandlers.RekeyedMoves | src/controllers/key.controller.js:80-87 | when no two translations land on the same key, re-keying moves each translation to its destination with its value and order kept |
| KeyHandlers.RekeyOrderMatters | src/controllers/key.controller.js:80-87 | when two translations land on one key, the one enumerated last wins |
| KeyHandlers.RekeyLocale | src/controllers/key.controller.js:80-87 | the loop over a locale's translations computes `Rekeyed` |
| KeyHandlers.RekeyedLocales | src/controllers/key.controller.js:79-89 | every locale is re-keyed, its code and position kept |
| KeyHandlers.RekeyAll | src/controllers/key.controller.js:79-89 | the loop over the locales computes `RekeyedLocales` |
| KeyHandlers.UpdateKeys | src/controllers/key.controller.js:64-96 | `NotFound` unless the project passes the editor filter; otherwise the keys become `RenamedKeys`, the locales `RekeyedLocales`, and name and members are kept |
| KeyHandlers.PrunedLocales | src/controllers/key.controller.js:117-120 | every locale loses the deleted keys' translations, its code and position kept |
| KeyHandlers.PrunedLocalesGet | src/controllers/key.controller.js:117-120 | after a delete no locale translates a deleted key, and every other key reads as before |
| KeyHandlers.PruneAll | src/controllers/key.controller.js:117-120 | the loop over the locales computes `PrunedLocales` |
| KeyHandlers.DeleteKeys | src/controllers/key.controller.js:104-127 | `NotFound` unless the project passes the editor filter; otherwise the deleted keys leave the key list (the others keep their order) and every locale is pruned |
| LocaleHandlers.AddedLocale | src/controllers/locale.controller.js:51-61 | `Conflict` exactly when a locale already has the requested code (a missing code is looked up as `""`); success exactly for a present, non-empty, new code, which appends one locale and keeps the others; otherwise `Internal` |
| LocaleHandlers.AddedLocaleFound | src/controllers/locale.controller.js:57 | the new locale is the last one, answers to its code and has no translations |
| LocaleHandlers.AddedLocaleTwice | src/controllers/locale.controller.js:51-56 | adding the same locale twice is refused with `Conflict` |
| LocaleHandlers.RemovedLocale | src/controllers/locale.controller.js:120-127 | `NotFound` exactly when no locale has the code; otherwise the first such locale is spliced out |
| LocaleHandlers.RemoveAfterAdd | src/controllers/locale.controller.js:57 | deleting a locale just added gives back the locales as they were |
| LocaleHandlers.UpdatedLocale | src/controllers/locale.controller.js:81-94 | `NotFound` exactly when the locale is missing; `Forbidden` exactly when it exists and some written key is not a project key; success exactly when the locale exists and every written key is a project key, and then that locale's translations are the old ones merged with the payload, its code is kept and no other locale changes |
| LocaleHandlers.UpdatedLocaleGet | src/controllers/locale.controller.js:93-94 | after a write each written key reads as written and every other key reads as before |
| LocaleHandlers.UpdatedLocaleKeysKnown | src/controllers/locale.controller.js:88-94 | a key whose translation changes is a project key |
| LocaleHandlers.WriteTranslations | src/controllers/locale.controller.js:93-94 | the `forEach` of writes computes `AssignAll` |
| LocaleHandlers.AddLocale | src/controllers/locale.controller.js:41-63 | `NotFound` unless the project passes the editor filter; otherwise the reply is `AddedLocale` of the old locales, which the project keeps on success; other fields unchanged |
| LocaleHandlers.UpdateLocale | src/controllers/locale.controller.js:71-101 | as above with `UpdatedLocale` |
| LocaleHandlers.DeleteLocale | src/controllers/locale.controller.js:110-133 | as above with `RemovedLocale` |
| MemberHandlers.AddedMember | src/controllers/projectUser.controller.js:53-62 | `Conflict` exactly when the user is already listed (a missing user is looked up as `""`); success exactly for a present, unlisted user with a valid role (default `editor`), appended at the end; otherwise `Internal` |
| MemberHandlers.UpdatedMember | src/controllers/projectUser.controller.js:84-93 | `NotFound` exactly for an unlisted user; `Internal` exactly when the new role (`""` when missing) is not a member role; success exactly when the user is listed and the role is a member role, and then only that entry changes, to the new role |
| MemberHandlers.RemovedMember | src/controllers/projectUser.controller.js:115-125 | `NotFound` exactly for an unlisted user; otherwise the first entry for the user is spliced out |
| MemberHandlers.ChangesKeepRolesValid | src/database/models/project.model.js:22-26 | every successful add, update or removal keeps all member roles valid |
| MemberHandlers.RemoveAfterAdd | src/controllers/projectUser.controller.js:53-62 | removing a member just added gives back the member list |
| MemberHandlers.AddUser | src/controllers/projectUser.controller.js:43-66 | `NotFound` unless the project passes the editor filter; otherwise the reply is `AddedMember` of the old list, which the project keeps on success; other fields unchanged |
| MemberHandlers.UpdateUser | src/controllers/projectUser.controller.js:74-97 | as above with `UpdatedMember` |
| MemberHandlers.DeleteUser | src/controllers/projectUser.controller.js:105-129 | as above with `RemovedMember` |
| MemberHandlers.RoleProjectAsWritten | src/controllers/projectUser.controller.js:137-158 | a listed caller gets their entry's role; an unlisted caller gets `admin` when their account role is not `admin`, and `NotFound` when it is |
| MemberHandlers.RoleProject | src/controllers/projectUser.controller.js:147-156 | corrected: an unlisted caller gets `admin` when their account role is `admin`, and `NotFound` otherwise |
| MemberHandlers.RoleProjectSound | src/controllers/projectUser.controller.js:147-156 | with the correction only an administrator is told `admin` without being listed, and every listed caller is told a member role |
| MemberHandlers.RoleProjectInverted | src/controllers/projectUser.controller.js:150-154 | on a project with no members, the code as written tells an API client it is `admin` and an administrator `NotFound`; the corrected reply is the opposite |
| ClientLinks.Views | src/controllers/projectClient.controller.js:36-43 | definition: one id-and-token view per client, in order |
| ClientLinks.GetClients | src/controllers/projectClient.controller.js:21-46 | `NotFound` exactly when the project fails the editor filter or no client is listed; otherwise one view per listed client |
| ClientLinks.Followed | src/controllers/projectClient.controller.js:72-81 | `Conflict` exactly when the client already follows the project; otherwise the project is appended and no id is repeated |
| ClientLinks.Unfollowed | src/controllers/projectClient.controller.js:114-123 | `NotFound` exactly when the client does not follow the project; otherwise its first occurrence is spliced out |
| ClientLinks.UnfollowAfterFollow | src/controllers/projectClient.controller.js:72-81 | unfollowing a project just followed gives back the list |
| ClientLinks.AddClient | src/controllers/projectClient.controller.js:54-88 | `NotFound` without a visible project or a found client; otherwise the client's list becomes `Followed` of the old one (unchanged on `Conflict`), its other fields kept |
| ClientLinks.DeleteClient | src/controllers/projectClient.controller.js:96-127 | as above with `Unfollowed` |
| ProjectHandlers.CreatedName | src/controllers/project.controller.js:37-46 | a creation succeeds exactly for a non-empty name no stored project has; every refusal is `Conflict` |
| ProjectHandlers.UpdatedName | src/controllers/project.controller.js:82-88 | a rename succeeds exactly for a present non-empty name, whether or not it is taken; a refusal is `Internal` |
| ProjectHandlers.RenameOntoTakenName | src/database/models/project.model.js:47 | a rename goes through onto a name that a creation would refuse |
| ProjectHandlers.CreateProject | src/controllers/project.controller.js:37-46 | `Conflict` with the store unchanged for an empty or taken name; otherwise one fresh project is added under the new id, with the creator as owner, no keys and no locales, and every other project is kept |
| ProjectHandlers.CreatorIsEditor | src/controllers/project.controller.js:39-43 | the creator passes the editor filter for the project they created |
| ProjectHandlers.UpdateProject | src/controllers/project.controller.js:75-90 | `NotFound` unless the project passes the editor filter; otherwise only the name changes, as `UpdatedName` says |
| ProjectHandlers.ProjectLists | src/controllers/project.controller.js:111-118 | definition: the clients' followed-project lists, in store order |
| ProjectHandlers.CascadeAsWritten | src/controllers/project.controller.js:111-120 | as written the cascade fails with `Internal` exactly when some client follows the deleted project, and otherwise changes nothing |
| ProjectHandlers.Cascade | src/controllers/project.controller.js:111-120 | corrected: the deleted id leaves every list, and the other ids keep their order |
| ProjectHandlers.CascadeDropsReferences | src/controllers/project.controller.js:111-120 | after the corrected cascade no client follows the deleted project, each still follows every other project, and a non-follower is untouched |
| ProjectHandlers.CascadeDangling | src/controllers/project.controller.js:115-116 | one client following the deleted project: as written the handler fails and the reference stays; corrected, the client follows nothing |
| ProjectHandlers.Lookup | src/controllers/project.controller.js:100-103 | definition: the project with the id, or `null` when none |
| ProjectHandlers.DeleteProjectAsWritten | src/controllers/project.controller.js:98-122 | `NotFound` unless the project passes the editor filter; otherwise the project is removed, and the reply is `Internal` when some client follows it, with every client unchanged |
| ProjectHandlers.DropReferences | src/controllers/project.controller.js:113-118 | every client drops the id from its list and keeps its other fields |
| ProjectHandlers.DeleteProject | src/controllers/project.controller.js:98-122 | corrected: `NotFound` with nothing changed unless the project passes the editor filter; otherwise the project is removed and the clients' lists become `Cascade` of the old ones |
| UserHandlers.Emails | src/database/models/user.model.js:49-57 | definition: the emails of the stored accounts |
| UserHandlers.NewAccountRole | src/controllers/user.controller.js:32-36 | a creation succeeds exactly for a non-empty email and username, an email no account has, and a valid role (default `user`); every refusal is `Conflict` |
| UserHandlers.UpdatedProfile | src/controllers/user.controller.js:85-91 | the request's email and role replace the stored ones; success exactly when the email is non-empty and the role valid, whether or not the email is used elsewhere; a refusal is `Internal` |
| UserHandlers.UpdateOntoTakenEmail | src/database/models/user.model.js:55 | an update goes through onto an email that a creation would refuse |
| UserHandlers.EmptyUpdateKeeps | src/controllers/user.controller.js:88-90 | an update carrying nothing keeps a valid profile |
| UserHandlers.CreateUser | src/controllers/user.controller.js:32-36 | `Conflict` with the store unchanged when `NewAccountRole` refuses; otherwise one fresh account is added with no plaintext password kept; unique emails stay unique |
| UserHandlers.UpdateUser | src/controllers/user.controller.js:80-93 | `NotFound` for no account; otherwise email and role follow `UpdatedProfile` (unchanged on refusal), the plaintext password is cleared and the username is kept |
| UserHandlers.DeleteUser | src/controllers/user.controller.js:101-118 | `NotFound` for an unknown id, `Forbidden` for the caller's own account, otherwise that account alone is removed |
| ClientHandlers.ClientIds | src/controllers/client.controller.js:113-115 | definition: the ids of the stored clients |
| ClientHandlers.WithoutClient | src/controllers/client.controller.js:113-115 | every survivor is a stored client with another id, every stored client with another id survives, and no survivor has the deleted id |
| ClientHandlers.WithoutClientSingle | src/controllers/client.controller.js:113-115 | a single client is kept exactly when its id differs from the deleted one |
| ClientHandlers.WithoutClientAppend | src/controllers/client.controller.js:113-115 | removal from a concatenation is the concatenation of the removals, so survivors keep their store order and their number of occurrences |
| ClientHandlers.WithoutAbsentClient | src/controllers/client.controller.js:113-115 | removing an id no client has keeps the store as it is |
| ClientHandlers.CreateClient | src/controllers/client.controller.js:35-41 | `Conflict` with the store unchanged when no token could be generated; otherwise one fresh client is appended whose owner is the caller (whatever the request says), with the token and no projects |
| ClientHandlers.UpdateClient | src/controllers/client.controller.js:72-95 | `NotFound` for no client; otherwise a set token flag clears the token without generating a new one, a present name replaces the name, and the reply carries id and token |
| ClientHandlers.DeleteClient | src/controllers/client.controller.js:103-117 | `NotFound` with nothing changed for no client; otherwise the store loses every client with that id |
| Seqs.Dedup | src/controllers/key.controller.js:50-51 | `uniq` repeats no value and keeps exactly the input's values |
| Seqs.DedupAppend | src/controllers/key.controller.js:50-51 | de-duplicating a concatenation keeps the left part's result and appends the right part's new values in order |
| Seqs.DedupOrder | src/exporter/flatjson.js:14-17 | de-duplicated values keep the order of their first occurrences |
| Seqs.DedupLeft | src/controllers/export.controller.js:104-105 | `uniq(union(uniq(a), b))` equals `uniq(a ++ b)` |
| Seqs.FirstIndex | src/controllers/locale.controller.js:51-52 | `findIndex` is -1 exactly for an absent value, and otherwise the position of its first occurrence |
| Seqs.Without | src/controllers/key.controller.js:114-115 | the filter keeps exactly the values not listed |
| Seqs.WithoutAppend | src/controllers/key.controller.js:114-115 | filtering distributes over concatenation, so survivors keep their order |
| Objects.Assign | src/exporter/flatjson.js:15-17 | a property write keeps an existing name's place, appends a new name, and changes no other property |
| Objects.AssignAllGet | src/controllers/locale.controller.js:93-94 | after writing a list of properties, each written name reads as written and every other name as before |
| Objects.AssignAllNames | src/controllers/export.controller.js:98-101 | after a merge the names are the old ones followed by the new ones in order of first write |
| Objects.Omit | src/controllers/key.controller.js:118 | `omit` keeps, in order, exactly the properties whose names are not listed |
| Objects.OmitGet | src/controllers/key.controller.js:118 | after `omit` a listed name reads as absent and every other name as before |
| Strings.SplitJoin | src/exporter/csv.js:15-21 | joining single-line parts with line feeds and splitting again gives back the parts |
| Strings.JoinSplit | src/exporter/json.js:15 | joining a path's segments with dots gives back the path |
| Documents.LocaleIndex | src/controllers/locale.controller.js:81-82 | -1 exactly when no locale has the code; otherwise the first locale with it |
| Documents.MemberIndex | src/controllers/projectUser.controller.js:84-86 | -1 exactly when no entry is for the user; otherwise the first entry for them |
| Documents.RemoveAt | src/controllers/locale.controller.js:127 | `splice(i, 1)` drops position `i` and shifts the rest down by one |

## Left out

- **Nested storage of translations.** A locale's translations are stored
  flat, under the literal dotted key. The source writes them with lodash
  `set`, which would nest dotted keys into objects. Bracket and array
  path syntax in keys is not modelled either. The `json` exporter does
  model `set`'s nesting.
- **Content type.** The reply's content type is not modelled: the
  exporter index file defines no `getContentType`, though the export
  handlers import it.
- **Lookup filters the helpers do not define.** `projectsListQueryWithClient`,
  `clientsListQuery` and `clientQuery` are imported but not defined in the
  helpers file. The documents they would select are handler parameters.
  Also not modelled: the ObjectId casts of ids, and the Joi id regexes.
  This covers route ids and the ids in payloads: `MemberHandlers.AddedMember`
  accepts any user id, `Some("")` included, which the cast would reject.
- **Persistence and side effects.** Not modelled:
  - the database itself, promises, and concurrent requests;
  - password hashing (the `hash` field), and the comparison of passwords
    and tokens;
  - randomness: the generated client token is a parameter.
- **HTTP.** Status codes are not modelled beyond the outcome names
  (`NotFound`, `Conflict`, `Forbidden`, `Internal`). Route wiring,
  authentication and the Joi validation of fields not named above are not
  modelled either. The handlers are modelled on the ids they read, which
  the routes do not always supply: `deleteUser` reads `params.user`, but
  its route declares only `{userid}` (src/routes/project.routes.js:241),
  so as wired every removal is `NotFound`; `updateUser` reads
  `payload.user` and `payload.role`, but its route passes them as
  `{userid}` and `{role}` (src/routes/project.routes.js:237).
- KeyHandlers.UpdateKeys: the route validates the rename map only as an
  object (src/routes/project.routes.js:167), so a target may be a number
  or an object, which saving casts to a string or rejects. The model types
  every target as a string.
- ClientHandlers.CreateClient: the client schema declares only `token` and
  `projects`, so strict schema mode would drop `name` and `owner` on save.
  The model keeps them on the document.
- ClientHandlers.UpdateClient: for the same reason, the `name` it writes
  would not be saved. The model keeps it on the document.
- UserHandlers.CreateUser: the pre-save hook's quirks are not modelled. It
  calls `next` twice on some paths, and it hashes even when the password
  is empty. The model only states that the plaintext is not kept.
- **Read-only handlers.** These carry no rule beyond the filter:
  - `getKeys`, `getUsers` and `getLocales`;
  - the project, user and client list and detail handlers;
  - `listExporters`, whose result is `Exporters.ListExporters`.
- **Source that is not part of this model:**
  - `yaml.js`: not in the exporter table;
  - the compiled `dist/` copies;
  - the auth and misc controllers;
  - the seed and admin scripts.
- **Key-rename collisions.** When two translations are renamed onto the
  same key, the result depends on object enumeration order. The model
  enumerates in insertion order, which is JavaScript's order only for
  names that are not array indices (next item).
- **Enumeration order of index-like names.** JavaScript enumerates an
  object's array-index names (`"0"`, `"1"`, `"404"`: canonical numbers
  below 2^32 - 1) first, in ascending numeric order, and only then the
  other names in insertion order. `Objects.Fields` keeps one insertion
  order for all names, so every order stated below holds only when no
  name involved is index-like. With key list `["b","1"]` the source's
  flat, csv and android outputs put `"1"` first; the model puts `"b"`
  first.
- Objects.Assign: a new index-like name is appended, not placed among the
  index-like names in numeric order.
- Objects.AssignAllNames: the order of first write is the merged object's
  enumeration order only for names that are not index-like.
- FlatJson.Export: the names come in order of first occurrence only when
  no key is index-like.
- FlatJson.ExportOrder: holds only when no key is index-like; the csv and
  android outputs inherit the same limit.
- JsonExport.ExportTopLevel: the top-level order is the order of first
  appearance only when no first segment is index-like.
- JsonExport.SetPath: lodash `set` creates an array, not an object, when
  the next path segment is index-like (`errors.404`), and the exported
  JSON then holds `null` for the missing slots. The model always creates
  an object.
- KeyHandlers.RenamedKeys: the rename targets are taken from the payload
  in its enumeration order, which puts index-like names first; the model
  keeps the payload's insertion order.
- KeyHandlers.RekeyedMoves: the order stated holds only when no
  translation key or rename target is index-like. It also assumes the
  flat storage above: a translation written under `home.title` is stored
  nested by the source, the rename loop visits only top-level names, so
  renaming `home.title` moves nothing and later exports read `""` for the
  new key.
- KeyHandlers.RekeyOrderMatters: which translation is enumerated last
  depends on the index-like ordering as well.
- KeyHandlers.UpdateKeys: inherits the two limits of `RekeyedMoves`
  (index-like order, dotted keys stored nested).
- KeyHandlers.PrunedLocalesGet: states flat storage. The source stores a
  dotted key nested, so deleting key `home` makes lodash `omit` remove the
  whole `home` object, taking a stored `home.title` translation with it;
  "every other key reads as before" then fails for `home.title`.
- LocaleHandlers.UpdatedLocaleGet: states flat storage. The source writes
  with lodash `set`, so a payload holding both `"home"` and `"home.title"`
  replaces the string under `home` with an object, and `home` no longer
  reads as written.
- FlatJson.Lookup: lodash `get` also reads names a plain object inherits,
  so a key such as `toString` reads a function instead of `""`. The apple
  output prints that function's text. In the flat exporters the property
  does not survive as an own property, and `item['__proto__'] = ...`
  creates none either, so the flatjson, csv and android outputs drop such
  keys. The model reads every key as an own property, with `""` when it
  is absent.

## Findings

| source | as written | input that shows it | evidently intended | confidence | as-written member | corrected member |
|---|---|---|---|---|---|---|
| src/controllers/projectUser.controller.js:150-154 | a caller without a member entry is told `admin` when their account role is NOT `admin`; an administrator is told the user is not in the project | a project with no members; a caller with account role `client` is told `admin`, and a caller with role `admin` gets `NotFound` (MemberHandlers.RoleProjectInverted) | administrators without an entry are told `admin`; everyone else gets `NotFound` | high (not executed) | MemberHandlers.RoleProjectAsWritten | MemberHandlers.RoleProject |
| src/controllers/project.controller.js:111-120 | the removal predicate calls the project id as a function, so the cascade throws on the first client that follows the deleted project. The project is already removed, so the client keeps a dangling reference and the reply is `Internal`. lodash `remove` also returns the removed ids rather than the kept ones | one client following project `p`; deleting `p` (ProjectHandlers.CascadeDangling) | every client stops following the deleted project and keeps its other projects | high (not executed) | ProjectHandlers.CascadeAsWritten | ProjectHandlers.Cascade |
