# Asset selection and Snowflake metadata helpers, modelled in Dafny

This project models two pieces of OpenMetadata.

**The asset-selection modal** (`AssetSelectionModal`, file `asset_selection.dfy`).
A user attaches data assets to a parent: a domain, a data product or a glossary term.
The modal keeps a buffer of search hits that grows one page at a time as the list is scrolled.
It keeps a selection map from asset id to the selected record, toggled by card clicks and by the select-all checkbox.
On save it sends one of three kinds of request, depending on the parent:
- a data product gets one patch holding its old assets plus the new ones;
- a glossary term gets one bulk "add assets" call;
- for any other parent, each selected asset is fetched and then patched to point at the parent.

The component state is the class `Modal`.
A JavaScript `Map` remembers insertion order, so the selection is two fields: the map `selected` and the sequence `order` of its keys.
The invariant `Modal.Valid` says that:
- the keys and the order agree, and the order has no duplicates;
- no key is empty;
- each defined record is stored under its own id.

Every state-changing method keeps this invariant.

Search responses, entity lookups, detail fetches and whether writes succeed are parameters.
A save returns the sequence of calls it makes (`Call`), ending with the close callback.
Selecting an id that no loaded item carries stores `undefined`, as the source does (`Option.None`).
After that, the next click on a card with a non-empty id throws while copying the records.
So does every save that reads the records: the general save, and a data-product or glossary save once the parent is loaded.
A data-product or glossary save without a loaded parent returns before reading them.
The model states these outcomes explicitly.
In a click the throw happens inside a React state updater, which React re-throws while rendering; the model reports it as `ok == false` with the selection unchanged.

**The Snowflake ingestion source's helpers** (`SnowflakeMetadata`, file `snowflake_metadata.dfy`).
The class `SnowflakeSource` holds:
- the cluster-key map;
- the schema and database description maps;
- the cached account and organisation names.

Around the class the module models:
- the parsing of cluster-key expressions into column names, over an abstract token tree;
- the case repair of partition columns against the table's real column names;
- the Snowflake web URLs of databases, schemas, tables, views and stored procedures;
- the typed table list of a schema.

Query rows, the SQL parser's output and the inspector's answers are parameters.

`wrappers.dfy` holds the `Option` type shared by both modules.

Source paths below are relative to the repository root.

## Model

| member | source | states |
|---|---|---|
| AssetSelectionModal.Lookup | openmetadata-ui/src/main/resources/ui/src/components/Assets/AssetsSelectionModal/AssetSelectionModal.tsx:158-161 | a hit is a loaded item carrying the clicked id; a miss means no loaded item carries it |
| AssetSelectionModal.LookupFindsFirst | openmetadata-ui/src/main/resources/ui/src/components/Assets/AssetsSelectionModal/AssetSelectionModal.tsx:158-161 | the lookup returns the first loaded item with the id |
| AssetSelectionModal.Toggled | openmetadata-ui/src/main/resources/ui/src/components/Assets/AssetsSelectionModal/AssetSelectionModal.tsx:143-165 | a selected id is removed and an unselected one added with the lookup's result; every other entry is unchanged |
| AssetSelectionModal.Without | openmetadata-ui/src/main/resources/ui/src/components/Assets/AssetsSelectionModal/AssetSelectionModal.tsx:144-152 | removing a key from the order keeps exactly the other keys, in their order, and keeps them distinct |
| AssetSelectionModal.ToggledOrder | openmetadata-ui/src/main/resources/ui/src/components/Assets/AssetsSelectionModal/AssetSelectionModal.tsx:143-165 | a click removes a selected id from the order, the others staying in their relative order, and appends an unselected one at the end after the unchanged old order; membership is toggled for the id only, and the order stays free of duplicates |
| AssetSelectionModal.ToggleTwiceRestoresKeys | openmetadata-ui/src/main/resources/ui/src/components/Assets/AssetsSelectionModal/AssetSelectionModal.tsx:136-166 | when the first click completes without storing `undefined` (nothing `undefined` before, and the id selected or loaded), the second click can complete too, and the two restore the set of selected ids; from an unselected id, or a selected one holding the record the lookup finds, they restore the whole map |
| AssetSelectionModal.MissStoresUndefined | openmetadata-ui/src/main/resources/ui/src/components/Assets/AssetsSelectionModal/AssetSelectionModal.tsx:154-163 | selecting an id no loaded item carries leaves an `undefined` record in the selection |
| AssetSelectionModal.SelectedAll | openmetadata-ui/src/main/resources/ui/src/components/Assets/AssetsSelectionModal/AssetSelectionModal.tsx:364-381 | select-all keeps every previous key and adds exactly the non-empty ids of the loaded items |
| AssetSelectionModal.OrderAfterSelectAll | openmetadata-ui/src/main/resources/ui/src/components/Assets/AssetsSelectionModal/AssetSelectionModal.tsx:364-381 | select-all keeps the previous order as a prefix and adds exactly the loaded non-empty ids |
| AssetSelectionModal.SelectAllStoresLoadedItems | openmetadata-ui/src/main/resources/ui/src/components/Assets/AssetsSelectionModal/AssetSelectionModal.tsx:364-381 | after select-all each loaded id holds a loaded item with that id; keys no loaded item carries keep their record |
| AssetSelectionModal.SelectAllLastItemWins | openmetadata-ui/src/main/resources/ui/src/components/Assets/AssetsSelectionModal/AssetSelectionModal.tsx:369-374 | when several loaded items share an id, the last one is stored |
| AssetSelectionModal.SelectAllAppendsInLoadOrder | openmetadata-ui/src/main/resources/ui/src/components/Assets/AssetsSelectionModal/AssetSelectionModal.tsx:369-374 | new, distinct loaded ids are appended after the old order in the order they were loaded |
| AssetSelectionModal.OrderAfterSelectAllMatches | openmetadata-ui/src/main/resources/ui/src/components/Assets/AssetsSelectionModal/AssetSelectionModal.tsx:364-381 | after select-all the insertion order lists exactly the selected ids, each once |
| AssetSelectionModal.OrderedValues | openmetadata-ui/src/main/resources/ui/src/components/Assets/AssetsSelectionModal/AssetSelectionModal.tsx:208 | the selected records are read in insertion order, one per key |
| AssetSelectionModal.NextItems | openmetadata-ui/src/main/resources/ui/src/components/Assets/AssetsSelectionModal/AssetSelectionModal.tsx:95-97 | page 1 replaces the buffer with its hits; a page after the first keeps the earlier items in front and appends its hits |
| AssetSelectionModal.PagesAccumulate | openmetadata-ui/src/main/resources/ui/src/components/Assets/AssetsSelectionModal/AssetSelectionModal.tsx:84-105 | after the responses to pages 1..n, the buffer is the concatenation of their hits, whatever it held before |
| AssetSelectionModal.Refs | openmetadata-ui/src/main/resources/ui/src/components/Assets/AssetsSelectionModal/AssetSelectionModal.tsx:208-210 | the references exist exactly when no selected record is `undefined`, one per record and in order |
| AssetSelectionModal.NewRefs | openmetadata-ui/src/main/resources/ui/src/components/Assets/AssetsSelectionModal/AssetSelectionModal.tsx:212-218 | a reference is kept if and only if its id is not among the product's assets; kept references stay in selection order |
| AssetSelectionModal.DataProductSaveTrace | openmetadata-ui/src/main/resources/ui/src/components/Assets/AssetsSelectionModal/AssetSelectionModal.tsx:201-250 | with no parent, only close; an `undefined` record gives an error toast; nothing new gives save and then close twice; otherwise exactly one patch, holding the old assets followed by the new ones, then save if it succeeded and an error toast if not; close comes last |
| AssetSelectionModal.NewRefsUnique | openmetadata-ui/src/main/resources/ui/src/components/Assets/AssetsSelectionModal/AssetSelectionModal.tsx:212-218 | deduplication keeps the selection's ids distinct |
| AssetSelectionModal.DataProductTargetUniqueIds | openmetadata-ui/src/main/resources/ui/src/components/Assets/AssetsSelectionModal/AssetSelectionModal.tsx:212-234 | when the product's assets and the selection each have distinct ids, the patched asset list does too |
| AssetSelectionModal.DataProductSaveIdempotent | openmetadata-ui/src/main/resources/ui/src/components/Assets/AssetsSelectionModal/AssetSelectionModal.tsx:212-226 | saving the same selection again to the patched product sends no patch |
| AssetSelectionModal.NothingNew | openmetadata-ui/src/main/resources/ui/src/components/Assets/AssetsSelectionModal/AssetSelectionModal.tsx:212-218 | references whose ids are all present already leave nothing new |
| AssetSelectionModal.GlossarySaveTrace | openmetadata-ui/src/main/resources/ui/src/components/Assets/AssetsSelectionModal/AssetSelectionModal.tsx:252-276 | with no term, only close; an `undefined` record gives an error toast; otherwise exactly one bulk call carrying one reference per selected record, then save if it succeeded and an error toast if not; close comes last |
| AssetSelectionModal.JsonPatchTarget | openmetadata-ui/src/main/resources/ui/src/components/Assets/AssetsSelectionModal/AssetSelectionModal.tsx:169-199 | the patch is empty exactly without a parent; a data product is appended to `dataProducts` and the domain is untouched; any other parent becomes `domain` and `dataProducts` is untouched |
| AssetSelectionModal.FetchedByFqn | openmetadata-ui/src/main/resources/ui/src/components/Assets/AssetsSelectionModal/AssetSelectionModal.tsx:292-300 | every fulfilled fetch is indexed under its own name; every entry is one of the responses |
| AssetSelectionModal.FetchedByFqnLastWins | openmetadata-ui/src/main/resources/ui/src/components/Assets/AssetsSelectionModal/AssetSelectionModal.tsx:292-300 | the entry for a name is the last fulfilled fetch of that name |
| AssetSelectionModal.AssetSaveTrace | openmetadata-ui/src/main/resources/ui/src/components/Assets/AssetsSelectionModal/AssetSelectionModal.tsx:283-327 | an `undefined` record gives an error toast then close; otherwise the patches come first, then save when there were none or all writes succeeded and an error toast otherwise, then close |
| AssetSelectionModal.PatchCalls | openmetadata-ui/src/main/resources/ui/src/components/Assets/AssetsSelectionModal/AssetSelectionModal.tsx:301-313 | at most one call per selected record, each a patch of one asset; `PatchCallsCover`, `PatchCallsOnlyFetched` and `PatchCallsWithoutParent` say which |
| AssetSelectionModal.PatchCallsWithoutParent | openmetadata-ui/src/main/resources/ui/src/components/Assets/AssetsSelectionModal/AssetSelectionModal.tsx:301-313 | without a parent no patch is built |
| AssetSelectionModal.PatchCallsCover | openmetadata-ui/src/main/resources/ui/src/components/Assets/AssetsSelectionModal/AssetSelectionModal.tsx:301-313 | each selected asset whose name was fetched gets its patch when a parent is loaded |
| AssetSelectionModal.PatchCallsOnlyFetched | openmetadata-ui/src/main/resources/ui/src/components/Assets/AssetsSelectionModal/AssetSelectionModal.tsx:301-313 | every patch targets a selected asset whose name was fetched, towards that fetched entity |
| AssetSelectionModal.AssetSaveBestEffort | openmetadata-ui/src/main/resources/ui/src/components/Assets/AssetsSelectionModal/AssetSelectionModal.tsx:286-313 | an asset whose own detail fetch succeeded is patched whatever happened to the other fetches |
| AssetSelectionModal.AssetSavePatchesOnlyFetched | openmetadata-ui/src/main/resources/ui/src/components/Assets/AssetsSelectionModal/AssetSelectionModal.tsx:301-313 | a patch is sent only with a parent loaded, and only to a selected asset with a fulfilled fetch of the same name |
| AssetSelectionModal.AssetSaveWithoutParent | openmetadata-ui/src/main/resources/ui/src/components/Assets/AssetsSelectionModal/AssetSelectionModal.tsx:301-322 | without a parent the general save sends no patch, then saves and closes |
| AssetSelectionModal.SaveTrace | openmetadata-ui/src/main/resources/ui/src/components/Assets/AssetsSelectionModal/AssetSelectionModal.tsx:278-329 | a data product runs the data-product save, a glossary term the glossary save, and every other parent the general save; every path ends by closing the modal |
| AssetSelectionModal.RebuildSelection | openmetadata-ui/src/main/resources/ui/src/components/Assets/AssetsSelectionModal/AssetSelectionModal.tsx:143-165 | the rebuild throws exactly when an `undefined` record is selected; otherwise it yields the toggled map and order |
| AssetSelectionModal.CopyRecord | openmetadata-ui/src/main/resources/ui/src/components/Assets/AssetsSelectionModal/AssetSelectionModal.tsx:147-148 | one copy step sets the record under its own id unless it is the skipped one; a key set again keeps its place, and map and order stay in step |
| AssetSelectionModal.CopyRecords | openmetadata-ui/src/main/resources/ui/src/components/Assets/AssetsSelectionModal/AssetSelectionModal.tsx:144-162 | copying the previous records under their ids keeps the map and its insertion order in step, each record unchanged |
| AssetSelectionModal.Kept | openmetadata-ui/src/main/resources/ui/src/components/Assets/AssetsSelectionModal/AssetSelectionModal.tsx:144-160 | the rebuilt order holds only previous keys |
| AssetSelectionModal.KeptOfDistinct | openmetadata-ui/src/main/resources/ui/src/components/Assets/AssetsSelectionModal/AssetSelectionModal.tsx:144-160 | on a duplicate-free order the rebuild keeps all keys, or all but the clicked one, in order |
| AssetSelectionModal.AllDefined | openmetadata-ui/src/main/resources/ui/src/components/Assets/AssetsSelectionModal/AssetSelectionModal.tsx:146-147 | if every key in the order holds a record, nothing is `undefined` |
| AssetSelectionModal.ToggleKeepsSelectionValid | openmetadata-ui/src/main/resources/ui/src/components/Assets/AssetsSelectionModal/AssetSelectionModal.tsx:136-166 | a click keeps keys and order in step, without duplicates or empty ids, each record under its own id |
| AssetSelectionModal.IndexFetched | openmetadata-ui/src/main/resources/ui/src/components/Assets/AssetsSelectionModal/AssetSelectionModal.tsx:293-300 | the indexing loop computes the name-to-entity index of the fulfilled fetches |
| AssetSelectionModal.SaveAssets | openmetadata-ui/src/main/resources/ui/src/components/Assets/AssetsSelectionModal/AssetSelectionModal.tsx:283-327 | the general save path produces the calls of the general save specification |
| AssetSelectionModal.BuildPatches | openmetadata-ui/src/main/resources/ui/src/components/Assets/AssetsSelectionModal/AssetSelectionModal.tsx:301-313 | the loop over the selected records builds exactly the patch calls of the patch specification |
| AssetSelectionModal.SelectedRefsUnique | openmetadata-ui/src/main/resources/ui/src/components/Assets/AssetsSelectionModal/AssetSelectionModal.tsx:208-210 | the references of a valid selection have distinct ids |
| AssetSelectionModal.Modal.constructor | openmetadata-ui/src/main/resources/ui/src/components/Assets/AssetsSelectionModal/AssetSelectionModal.tsx:70-80 | starts empty on page 1 with nothing loading; a glossary term searches data assets, any other parent all indexes |
| AssetSelectionModal.Modal.LoadActiveEntity | openmetadata-ui/src/main/resources/ui/src/components/Assets/AssetsSelectionModal/AssetSelectionModal.tsx:108-122 | a domain, data product or glossary term is stored when its lookup succeeds; other parents load nothing |
| AssetSelectionModal.Modal.OnSearch | openmetadata-ui/src/main/resources/ui/src/components/Assets/AssetsSelectionModal/AssetSelectionModal.tsx:124-128 | a changed search text requests page 1 of the active index; setting the same text again requests nothing |
| AssetSelectionModal.Modal.BeginFetch | openmetadata-ui/src/main/resources/ui/src/components/Assets/AssetsSelectionModal/AssetSelectionModal.tsx:86-87 | a fetch marks the list as loading |
| AssetSelectionModal.Modal.EndFetch | openmetadata-ui/src/main/resources/ui/src/components/Assets/AssetsSelectionModal/AssetSelectionModal.tsx:95-103 | a failed fetch leaves items, page and total unchanged; a successful one sets the total (0 when absent), replaces or extends the items and records the page; loading always ends |
| AssetSelectionModal.Modal.OnScroll | openmetadata-ui/src/main/resources/ui/src/components/Assets/AssetsSelectionModal/AssetSelectionModal.tsx:335-362 | the next page is requested if and only if the distance is strictly between 499 and 501, fewer items than the total are loaded and nothing is loading |
| AssetSelectionModal.Modal.HandleCardClick | openmetadata-ui/src/main/resources/ui/src/components/Assets/AssetsSelectionModal/AssetSelectionModal.tsx:136-166 | an empty id does nothing; otherwise the click succeeds exactly when no selected record is `undefined`, and then toggles the id; the invariant is kept |
| AssetSelectionModal.Modal.OnSelectAll | openmetadata-ui/src/main/resources/ui/src/components/Assets/AssetsSelectionModal/AssetSelectionModal.tsx:364-381 | `false` clears the selection; `true` adds every loaded id on top of it; the invariant is kept |
| AssetSelectionModal.Modal.HandleSave | openmetadata-ui/src/main/resources/ui/src/components/Assets/AssetsSelectionModal/AssetSelectionModal.tsx:278-329 | dispatches on the parent type and makes the calls of the matching save specification |
| SnowflakeMetadata.Lower | ingestion/src/metadata/ingestion/source/database/snowflake/metadata.py:443-444 | lower-casing keeps the length and lowers each character |
| SnowflakeMetadata.PartitionMap | ingestion/src/metadata/ingestion/source/database/snowflake/metadata.py:190-197 | a table has an entry if and only if some row records a non-empty cluster key for it |
| SnowflakeMetadata.PartitionMapLastRowWins | ingestion/src/metadata/ingestion/source/database/snowflake/metadata.py:193-197 | the stored key is that of the last row naming the table |
| SnowflakeMetadata.AssignAll | ingestion/src/metadata/ingestion/source/database/snowflake/metadata.py:199-208 | assigning rows one by one leaves the old keys plus every assigned key |
| SnowflakeMetadata.AssignAllLastWins | ingestion/src/metadata/ingestion/source/database/snowflake/metadata.py:199-202 | the last row for a key decides its description |
| SnowflakeMetadata.AssignAllKeepsOthers | ingestion/src/metadata/ingestion/source/database/snowflake/metadata.py:199-202 | a key that no row names keeps its old description, because the map is never cleared |
| SnowflakeMetadata.SchemaEntries | ingestion/src/metadata/ingestion/source/database/snowflake/metadata.py:200-202 | one (database, schema) entry per row, in row order |
| SnowflakeMetadata.DatabaseEntries | ingestion/src/metadata/ingestion/source/database/snowflake/metadata.py:206-208 | one database entry per row, in row order |
| SnowflakeMetadata.LoadDatabaseDescriptions | ingestion/src/metadata/ingestion/source/database/snowflake/metadata.py:204-208 | a non-empty map is left as it is; an empty one gets exactly the rows' database names as keys |
| SnowflakeMetadata.LoadDatabaseDescriptionsLastRowWins | ingestion/src/metadata/ingestion/source/database/snowflake/metadata.py:206-208 | on a first load the last row for a database decides its comment |
| SnowflakeMetadata.LoadDatabaseDescriptionsIsFinal | ingestion/src/metadata/ingestion/source/database/snowflake/metadata.py:204-208 | once the database map is non-empty, further loads change nothing |
| SnowflakeMetadata.IdentifiersAppend | ingestion/src/metadata/ingestion/source/database/snowflake/metadata.py:271-279 | the names of two token lists, concatenated, are the concatenation of their names |
| SnowflakeMetadata.Identifiers | ingestion/src/metadata/ingestion/source/database/snowflake/metadata.py:271-293 | a name is collected from the top-level tokens exactly when one of them is that identifier or a function holding it at any depth; with `TokenIdentifiers` and `IdentifiersAppend`, names come out left to right at every depth, once per occurrence |
| SnowflakeMetadata.TokenIdentifiers | ingestion/src/metadata/ingestion/source/database/snowflake/metadata.py:271-279 | a token yields exactly the identifiers it mentions: an identifier its own name, a function the names of its parameters in order (recursing), any other token nothing |
| SnowflakeMetadata.ColumnNamesOf | ingestion/src/metadata/ingestion/source/database/snowflake/metadata.py:281-297 | a parser exception gives no list; otherwise a name is listed exactly when the first statement mentions it, and no statement gives none |
| SnowflakeMetadata.ParseColumnNameFromExpr | ingestion/src/metadata/ingestion/source/database/snowflake/metadata.py:281-297 | a parser exception gives `None`, no statement gives the empty list, otherwise the first statement's identifiers left to right, inside function parameters too |
| SnowflakeMetadata.IdentifiersOfNames | ingestion/src/metadata/ingestion/source/database/snowflake/metadata.py:271-279 | a list of plain identifiers yields exactly its names, in order |
| SnowflakeMetadata.ClusterKeyIdentifiers | ingestion/src/metadata/ingestion/source/database/snowflake/metadata.py:271-293 | a cluster key `LINEAR(c1, ..., cn)` yields exactly `c1, ..., cn`, in order |
| SnowflakeMetadata.FirstMatch | ingestion/src/metadata/ingestion/source/database/snowflake/metadata.py:313-316 | finds the first table column equal up to case, or reports that none is |
| SnowflakeMetadata.FixedColumns | ingestion/src/metadata/ingestion/source/database/snowflake/metadata.py:309-316 | the repaired list is no longer than the partition list and holds only real table columns, each equal up to case to some partition column |
| SnowflakeMetadata.FixedColumnsAllMatched | ingestion/src/metadata/ingestion/source/database/snowflake/metadata.py:309-316 | when every partition column matches, position i holds the first table column matching column i |
| SnowflakeMetadata.FixedColumnsDropsUnmatched | ingestion/src/metadata/ingestion/source/database/snowflake/metadata.py:309-316 | a partition column with no match contributes nothing |
| SnowflakeMetadata.FixPartitionColumnCase | ingestion/src/metadata/ingestion/source/database/snowflake/metadata.py:299-318 | a missing or empty list gives the empty list; otherwise the nested loops compute the repaired list |
| SnowflakeMetadata.PartitionColumns | ingestion/src/metadata/ingestion/source/database/snowflake/metadata.py:319-332 | a parser exception gives no columns; every reported column is a real table column equal up to case to a name the cluster key mentions |
| SnowflakeMetadata.UrlRoot | ingestion/src/metadata/ingestion/source/database/snowflake/metadata.py:441-451 | the URL starts with the lower-cased organisation and account and the database path, and the `/schemas/` segment follows exactly when a schema name is given |
| SnowflakeMetadata.SchemaUrlExtendsDatabaseUrl | ingestion/src/metadata/ingestion/source/database/snowflake/metadata.py:448-449 | a schema URL is the database URL followed by `/schemas/` and the schema name |
| SnowflakeMetadata.SourceUrl | ingestion/src/metadata/ingestion/source/database/snowflake/metadata.py:453-475 | a URL exists if and only if both account and organisation names are non-empty; without a non-empty table name it is the root URL of the organisation, account, database and schema |
| SnowflakeMetadata.ProcedureUrl | ingestion/src/metadata/ingestion/source/database/snowflake/metadata.py:583-590 | a procedure URL exists if and only if both names are present, an empty name not stopping it; it starts with the schema URL of that organisation and account followed by `/procedure/` and the name |
| SnowflakeMetadata.LowerIdempotent | ingestion/src/metadata/ingestion/source/database/snowflake/metadata.py:443-444 | lower-casing twice is lower-casing once |
| SnowflakeMetadata.UrlRootIgnoresCase | ingestion/src/metadata/ingestion/source/database/snowflake/metadata.py:441-451 | the URL does not depend on the case of the account and organisation names |
| SnowflakeMetadata.TableUrlExtendsSchemaUrl | ingestion/src/metadata/ingestion/source/database/snowflake/metadata.py:465-470 | a table URL is the schema URL followed by `/table/` or `/view/` and the table name |
| SnowflakeMetadata.TableUrlDeterminesTable | ingestion/src/metadata/ingestion/source/database/snowflake/metadata.py:465-470 | two table URLs in one schema coincide only for the same name and the same view-or-table kind |
| SnowflakeMetadata.ProcedureUrlExtendsSchemaUrl | ingestion/src/metadata/ingestion/source/database/snowflake/metadata.py:583-590 | a procedure URL is the schema URL followed by `/procedure/`, the name and the signature |
| SnowflakeMetadata.Tagged | ingestion/src/metadata/ingestion/source/database/snowflake/metadata.py:392-397 | each name is paired with the given table type, in order |
| SnowflakeMetadata.NamesOfTypeAppend | ingestion/src/metadata/ingestion/source/database/snowflake/metadata.py:399-417 | selecting one type from an extended list selects from each part |
| SnowflakeMetadata.NamesOfTagged | ingestion/src/metadata/ingestion/source/database/snowflake/metadata.py:392-397 | a tagged list yields all its names for its own type and nothing for any other |
| SnowflakeMetadata.NamesOfThreeLists | ingestion/src/metadata/ingestion/source/database/snowflake/metadata.py:392-419 | the combined list yields each input list back under its own type |
| SnowflakeMetadata.QueryTableNamesAndTypes | ingestion/src/metadata/ingestion/source/database/snowflake/metadata.py:381-419 | regular names first, then external, then transient ones only when enabled; each type's names come back intact and no views appear |
| SnowflakeMetadata.SnowflakeSource.constructor | ingestion/src/metadata/ingestion/source/database/snowflake/metadata.py:138-145 | all maps start empty and nothing is cached |
| SnowflakeMetadata.SnowflakeSource.SetPartitionDetails | ingestion/src/metadata/ingestion/source/database/snowflake/metadata.py:190-197 | the map is cleared and rebuilt from the rows |
| SnowflakeMetadata.SnowflakeSource.SetSchemaDescriptionMap | ingestion/src/metadata/ingestion/source/database/snowflake/metadata.py:199-202 | each row is assigned over the old map, with no clearing |
| SnowflakeMetadata.SnowflakeSource.SetDatabaseDescriptionMap | ingestion/src/metadata/ingestion/source/database/snowflake/metadata.py:204-208 | the rows are loaded only into an empty map |
| SnowflakeMetadata.SnowflakeSource.SchemaDescription | ingestion/src/metadata/ingestion/source/database/snowflake/metadata.py:210-214 | the stored comment of (database, schema), or none when absent |
| SnowflakeMetadata.SnowflakeSource.DatabaseDescription | ingestion/src/metadata/ingestion/source/database/snowflake/metadata.py:216-220 | the stored comment of the database, or none when absent |
| SnowflakeMetadata.SnowflakeSource.GetTablePartitionDetails | ingestion/src/metadata/ingestion/source/database/snowflake/metadata.py:319-332 | a partition is reported if and only if a non-empty cluster key is stored for `schema.table`; its columns are the parsed names repaired against the table's columns; its interval type is column value |
| SnowflakeMetadata.SnowflakeSource.Account | ingestion/src/metadata/ingestion/source/database/snowflake/metadata.py:157-166 | the first answer is cached; a missing one is asked for again next time |
| SnowflakeMetadata.SnowflakeSource.OrgName | ingestion/src/metadata/ingestion/source/database/snowflake/metadata.py:168-177 | cached like the account |
| SnowflakeMetadata.SnowflakeSource.GetSourceUrl | ingestion/src/metadata/ingestion/source/database/snowflake/metadata.py:453-475 | the account is looked up first; the organisation only when the account is non-empty; the URL is the one the cached names give |
| SnowflakeMetadata.SnowflakeSource.StoredProcedureUrl | ingestion/src/metadata/ingestion/source/database/snowflake/metadata.py:583-590 | the organisation is looked up first; the account only when the organisation exists; the URL is the one the cached names give |
| SnowflakeMetadata.PartitionReportedForClusteredTables | ingestion/src/metadata/ingestion/source/database/snowflake/metadata.py:190-197 | after the cluster keys are loaded, a table has a non-empty key exactly when some row recorded one for it |

## Left out

- Rendering, translations, the checkbox and card components, and the `isSaveLoading` spinner flag: they change no modelled state.
- The 500 ms settle delay before `onSave`: the model keeps only its order, save callback before close.
- The optional `onSave` prop: the source calls it as `onSave?.()`, and the model assumes it is supplied, so every successful save records `SaveCallback`.
- Promise concurrency: detail fetches and patches run concurrently in the source. The model takes their outcomes as inputs, in selection order. A single `writeOk` says whether all writes succeeded.
- The JSON Patch diff (`compare`) and the REST calls: the model records each call's target state or its asset list, not the diff operations.
- Reading the search text from the input box: a new text is passed to `OnSearch`.
- `getEntityReferenceFromEntity` is abstracted as `RefOf`, which copies id, type, name, fully qualified name, description and display name.
- `getEntityAPIfromSource`, `getAPIfromSource` and `getAssetsFields` only pick an endpoint, so they are not modelled. A patch call records the asset's id and entity type.
- The detail fetches of the general save are not recorded in the `Call` trace. Their outcomes are the `details` parameter, and only the patches, callbacks and toasts built from them are recorded.
- The `open` prop: the source searches only while the modal is open, and also when it opens. `OnSearch` assumes the modal is open; the search on opening is a page-1 `FetchRequest` the caller issues.
- The data-product branch of `getJsonPatchObject` cannot be reached from `handleSave`, whose general branch excludes data products. `JsonPatchTarget` still models it.
- The selection map starts as `undefined` in the source, and every use treats it as empty. The model starts with an empty map.
- Identity of requests: `OnSearch` and `OnScroll` return the request; issuing it and matching its response to `EndFetch` is up to the caller. Overlapping responses are not modelled.
- The buffer can hold more items than the reported total. The code never enforces that bound, so the model does not either.
- Snowflake connection, engine and inspector calls, dialect patching, session tags, the database iteration, tags, life-cycle data, stored-procedure listing and query dictionaries: these are I/O or third-party code. Their rows and answers are parameters where a modelled helper consumes them.
- `sqlparse` itself is not part of this model. A parse is an abstract tree of function, identifier and other tokens, and `get_real_name()` is the identifier's stored name.
- `SnowflakeMetadata.Lower`: lowers ASCII letters only. Python's `str.lower()` also lowers other Unicode letters.
- `fqn.build` and the rest of the stored-procedure request are not modelled. `ProcedureUrl` returning `None` stands for the exception that makes the whole request an error.
- Logging and the `Either` wrapping of errors are not modelled.
- The dashboard service module is not part of this model.
