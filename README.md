# fgo-data: a verified model of the loader core

fgo-data reads a JSON document of Fate/Grand Order game data. The document decodes into seven integer-keyed maps: servants, classes, materials, skill levels, ascension levels, skill costs and ascension costs. The program then loads them into seven PostgreSQL tables.

Before loading, a cleaner deletes every skill level and ascension level whose servant id is not a key of the servant map. The library package (`pkg/fgodata`) drops and recreates the schema table by table from two fixed lists, `Tables` and `TablesToDrop`. The command-line loader (`bin/main.go`) does everything in one transaction:

1. clean the document;
2. run a fixed DROP/CREATE script;
3. bulk-load the seven maps with one COPY each, in an order that puts every table after its foreign-key parents;
4. commit.

Any failure before the commit rolls the transaction back and aborts the program.

The model holds these parts:

- `Entities` defines the decoded records and the document value `Collections`.
- `Schema` gives each CREATE TABLE's foreign keys (`References`), the tuple each `BatchInsert` extracts per map entry (`RowsOf`), and the constraints those rows must meet. These are the 32-bit INTEGER range, TEXT values free of the NUL character, PRIMARY KEY, UNIQUE and REFERENCES.
- `Descriptors` restates each table's constraints over the document's own maps. It proves the two statements equivalent, and proves that rows read back from the tables give the same maps.
- `Engine` is an abstract database. A store maps table names to sets of rows. DROP, CREATE and COPY actions run in order and stop at the first error. It also defines the order predicates: a create order is topological, a drop order is reverse topological.
- `BulkLoad` is the per-table COPY loop. Rows are fed in an unspecified order and feeding stops at the first row the table refuses. The module also covers loading several tables one after another.
- `Fgodata` is the library's `FgoData` object. It is a class whose maps the cleaner updates in place, and it holds the two table lists and `DropSchema`, `CreateSchema` and `ResetSchema`.
- `Loader` is the command-line loader's script, its load order and its single-transaction run.

Failures that the model cannot derive from the data are a parameter. Examples are a lost connection, missing permissions, or a refused Begin, DROP, CREATE, COPY or Commit. The parameter is `faults`, the set of actions the database refuses for such reasons.

The library's two lists are not mirror images. `TablesToDrop` is not `Tables` reversed: materials and classes trade places. It is still a valid drop order, because neither table references the other. The model follows the code. The command-line script's create order is exactly its drop order reversed.

## Model

| member | source | states |
|---|---|---|
| Schema.References | bin/main.go:89-144 | the tables named in each CREATE TABLE's REFERENCES clauses; no table references itself |
| Schema.RowsOf | pkg/fgodata/servant.go:18-28 | one tuple per map entry, keyed by the map key, whose id is that key and whose table is the table being loaded |
| Schema.ClassTuples | pkg/fgodata/class.go:15-25 | one classes tuple `(key, Name, Icon)` per entry, no entry lost or added |
| Schema.MaterialTuples | pkg/fgodata/material.go:16-26 | one materials tuple per entry, with `Order` in the `position` column |
| Schema.ServantTuples | pkg/fgodata/servant.go:18-28 | one servants tuple `(key, Name, Icon, Rarity, ClassID)` per entry |
| Schema.SkillLevelTuples | pkg/fgodata/skill_level.go:15-25 | one skill_levels tuple `(key, ServantID, LevelTo)` per entry |
| Schema.AscensionLevelTuples | pkg/fgodata/ascension_level.go:15-25 | one ascension_levels tuple `(key, ServantID, AscendTo)` per entry |
| Schema.SkillCostTuples | pkg/fgodata/skill_cost.go:16-26 | one skill_costs tuple `(key, SkillLevelID, MaterialID, Amount)` per entry |
| Schema.AscensionCostTuples | pkg/fgodata/ascension_cost.go:16-26 | one ascension_costs tuple `(key, AscensionLevelID, MaterialID, Amount)` per entry |
| Schema.ForeignKeys | pkg/fgodata/servant.go:42 | a row's foreign-key values point only into tables its CREATE references, and every referenced table gets one |
| Descriptors.ResolvesInDumped | pkg/fgodata/skill_cost.go:37-38 | in a fully loaded store, a row's references resolve exactly when the referenced keys are keys of the referenced maps |
| Descriptors.ClassesTableValid | pkg/fgodata/class.go:34-38 | the classes rows meet their constraints exactly when ids are 32-bit, name and icon hold no NUL character, and name and icon are each unique |
| Descriptors.MaterialsTableValid | pkg/fgodata/material.go:35-40 | the materials rows meet their constraints exactly when ids and positions are 32-bit, name and icon hold no NUL character, and name, icon and position are each unique |
| Descriptors.ServantsTableValid | pkg/fgodata/servant.go:37-45 | the servants rows meet their constraints exactly when each class id is a class, icon is unique, `(class_id, rarity, name)` is unique, name and icon hold no NUL character and the integers are 32-bit; name alone may repeat |
| Descriptors.SkillLevelsTableValid | pkg/fgodata/skill_level.go:34-40 | the skill_levels rows meet their constraints exactly when each servant id is a servant and `(servant_id, level_to)` is unique |
| Descriptors.AscensionLevelsTableValid | pkg/fgodata/ascension_level.go:34-40 | the ascension_levels rows meet their constraints exactly when each servant id is a servant and `(servant_id, ascend_to)` is unique |
| Descriptors.SkillCostsTableValid | pkg/fgodata/skill_cost.go:35-42 | the skill_costs rows meet their constraints exactly when each level and material exists and `(skill_level_id, material_id)` is unique; amount may repeat |
| Descriptors.SkillCostResolves | pkg/fgodata/skill_cost.go:37-38 | one skill cost resolves exactly when its skill level and its material are keys of their maps |
| Descriptors.AscensionCostsTableValid | pkg/fgodata/ascension_cost.go:35-42 | the ascension_costs rows meet their constraints exactly when each level and material exists and `(ascension_level_id, material_id)` is unique |
| Descriptors.AscensionCostResolves | pkg/fgodata/ascension_cost.go:37-38 | one ascension cost resolves exactly when its ascension level and its material are keys of their maps |
| Descriptors.ConsistentIffValid | bin/main.go:89-144 | the rows of all seven tables meet every declared constraint exactly when the document satisfies the seven entity-level rules |
| Descriptors.ServantsRoundTrip | pkg/fgodata/servant.go:19-21 | the servants rows have distinct ids and read back to the servant map |
| Descriptors.ClassesRoundTrip | pkg/fgodata/class.go:16-18 | the classes rows have distinct ids and read back to the class map |
| Descriptors.MaterialsRoundTrip | pkg/fgodata/material.go:17-19 | the materials rows have distinct ids and read back to the material map |
| Descriptors.SkillLevelsRoundTrip | pkg/fgodata/skill_level.go:16-18 | the skill_levels rows have distinct ids and read back to the skill level map, with the columns in their reordered places |
| Descriptors.AscensionLevelsRoundTrip | pkg/fgodata/ascension_level.go:16-18 | the ascension_levels rows have distinct ids and read back to the ascension level map |
| Descriptors.SkillCostsRoundTrip | pkg/fgodata/skill_cost.go:17-19 | the skill_costs rows have distinct ids and read back to the skill cost map |
| Descriptors.AscensionCostsRoundTrip | pkg/fgodata/ascension_cost.go:17-19 | the ascension_costs rows have distinct ids and read back to the ascension cost map |
| Descriptors.RestoreDumped | bin/main.go:180-304 | a complete load of the document, read back table by table, gives the same document |
| Descriptors.OneRowPerEntry | pkg/fgodata/servant.go:20-21 | each loaded table holds exactly as many rows as its map has entries |
| Engine.Exec | pkg/fgodata/servant.go:30-48 | a refused action fails with `Refused`; DROP IF EXISTS of an absent table succeeds and changes nothing, a DROP fails exactly when the table exists and another table still references it, and success removes just that table; a CREATE succeeds exactly when the table is new and its referenced tables exist, adding it empty and keeping the rest; a COPY is prepared exactly when the table exists; Open, Begin and Commit change nothing; an error always names the action that raised it |
| Engine.Run | pkg/fgodata/fgo_data.go:50-58 | statements run in order inside one transaction; the error reported is one of the script's actions |
| Engine.RunAppend | pkg/fgodata/fgo_data.go:76-84 | running two scripts back to back: once the first fails, nothing of the second runs |
| Engine.RunStopsAtFailure | pkg/fgodata/fgo_data.go:51-55 | a failed run stopped at one action: every earlier action succeeded, the store is what they left, and nothing later ran |
| Engine.DepthDecreases | pkg/fgodata/skill_cost.go:37-38 | every referenced table lies strictly lower in the reference graph, so the graph has no cycle |
| Engine.ShallowFirstIsCreateSafe | pkg/fgodata/fgo_data.go:26-36 | listing tables by non-decreasing depth puts every table after the tables it references |
| Engine.DeepFirstIsDropSafe | pkg/fgodata/fgo_data.go:38-48 | listing tables by non-increasing depth puts every table before the tables it references |
| Engine.DropsSucceed | pkg/fgodata/fgo_data.go:50-58 | dropping in a drop-safe order, with every referencing table also dropped, never fails and removes exactly the listed tables |
| Engine.CreatesSucceed | pkg/fgodata/fgo_data.go:60-68 | creating absent tables in a create-safe order, with every parent present or listed, never fails and adds exactly the listed tables, empty |
| Engine.ReversedCreateOrderIsDropOrder | bin/main.go:81-144 | a list read backwards is a safe drop order exactly when the list is a safe create order |
| BulkLoad.Loaded | pkg/fgodata/db.go:20-23 | a successful COPY adds the map's rows to table `t` and changes no other table |
| BulkLoad.AcceptStep | pkg/fgodata/skill_cost.go:20-22 | feeding the next row succeeds exactly when the rows fed so far plus that row are still acceptable to the table |
| BulkLoad.Feed | pkg/fgodata/skill_cost.go:18-25 | feeds one tuple per entry in some order and stops at the first refused row; with no refusal every entry was fed once and the whole batch fits; with a refusal every earlier row fit and the refused row is the last fed |
| BulkLoad.FeedAll | pkg/fgodata/skill_cost.go:16-26 | a table accepts a map's tuples exactly when the whole batch meets its constraints, and the table then holds them all |
| BulkLoad.BatchInsert | pkg/fgodata/db.go:9-31 | a COPY fails exactly when it is refused, the table is missing or some row breaks a constraint; a rejected row is a key of the map; failure leaves the transaction unchanged, success adds the map's rows |
| BulkLoad.LoadAll | bin/main.go:356-396 | the loads run table by table in the given order; a failure names the COPY of one of the listed tables |
| BulkLoad.LoadAllStopsAtFailure | bin/main.go:356-396 | a failed load stopped at one table: every table before it was loaded, the reported store is what those loads left, and that table's COPY was refused or its batch did not fit |
| BulkLoad.LoadAllAppend | bin/main.go:356-396 | after a failed load no later table in the order is loaded |
| BulkLoad.FirstInvalid | bin/main.go:356-396 | names the first table in the order whose complete contents break a constraint, and none only when every table is valid |
| BulkLoad.BatchValidOnPartial | bin/main.go:374-378 | a table loaded after all its parents accepts its batch exactly when its complete contents are valid |
| BulkLoad.AcceptedIntoEmpty | pkg/fgodata/db.go:15-23 | into an empty table, a batch fits exactly when its rows meet the table's constraints among themselves |
| BulkLoad.LoadFromPartial | bin/main.go:356-396 | loading in a create order from partly loaded tables fails exactly at the first invalid table, and otherwise completes every listed table |
| Fgodata.Cleaned | pkg/fgodata/fgo_data.go:120-132 | after cleaning every level belongs to a known servant; only level entries are deleted; survivors keep key and value; a level whose servant exists is kept; the other five maps are unchanged |
| Fgodata.CleanedIdempotent | pkg/fgodata/fgo_data.go:120-132 | cleaning twice is cleaning once |
| Fgodata.CleanedChangesOnlyOrphans | pkg/fgodata/fgo_data.go:120-132 | the cleaner leaves a document unchanged exactly when every level already belongs to a known servant |
| Fgodata.CleanerDoesNotCascade | pkg/fgodata/fgo_data.go:121-125 | a skill cost whose level is deleted survives unchanged, pointing at a missing level |
| Fgodata.CleanerDoesNotCascadeAscension | pkg/fgodata/fgo_data.go:127-131 | an ascension cost whose level is deleted survives unchanged, pointing at a missing level |
| Fgodata.TablesIsCreateOrder | pkg/fgodata/fgo_data.go:26-36 | `Tables` lists each table once, every table after the tables it references |
| Fgodata.TablesListsEveryTable | pkg/fgodata/fgo_data.go:26-36 | `Tables` lists each of the seven tables exactly once |
| Fgodata.TablesToDropIsDropOrder | pkg/fgodata/fgo_data.go:38-48 | `TablesToDrop` lists each table once, every table before the tables it references |
| Fgodata.TablesToDropListsEveryTable | pkg/fgodata/fgo_data.go:38-48 | `TablesToDrop` lists each of the seven tables exactly once |
| Fgodata.DropListIsNotReversedCreateList | pkg/fgodata/fgo_data.go:26-48 | `TablesToDrop` is not `Tables` reversed, and `Tables` reversed would also be a safe drop order |
| Fgodata.MembersOfCompleteList | pkg/fgodata/fgo_data.go:26-48 | a list naming each table once names all seven |
| Fgodata.FgoData.constructor | pkg/fgodata/fgo_data.go:140-145 | the object holds exactly the decoded document |
| Fgodata.FgoData.Clean | pkg/fgodata/fgo_data.go:120-132 | deleting orphaned levels in place, in any visit order, leaves exactly the cleaned document |
| Fgodata.FgoData.DropSchema | pkg/fgodata/fgo_data.go:50-58 | drops in `TablesToDrop` order and returns the first error, with nothing after it run |
| Fgodata.FgoData.CreateSchema | pkg/fgodata/fgo_data.go:60-68 | creates in `Tables` order and returns the first error, with nothing after it run |
| Fgodata.FgoData.ResetSchema | pkg/fgodata/fgo_data.go:70-89 | begins, drops, creates; a failed step rolls back and returns its error; the commit's result is ignored |
| Fgodata.ResetOutcome | pkg/fgodata/fgo_data.go:70-89 | an error leaves the database as it was and names Begin or one of the drop and create actions |
| Fgodata.DropSchemaClears | pkg/fgodata/fgo_data.go:50-58 | with no DROP refused, dropping in `TablesToDrop` order succeeds on any database and leaves no table |
| Fgodata.CreateSchemaBuilds | pkg/fgodata/fgo_data.go:60-68 | with no CREATE refused, creating in `Tables` order on an empty database yields the seven empty tables |
| Fgodata.ResetGivesFreshSchema | pkg/fgodata/fgo_data.go:70-89 | with nothing refused, a reset leaves exactly the seven empty tables, whatever was there before |
| Fgodata.ResetIgnoresFailedCommit | pkg/fgodata/fgo_data.go:86-88 | a refused commit goes unnoticed: the reset reports success while the database keeps its old tables |
| Fgodata.ImportData | pkg/fgodata/fgo_data.go:134-150 | a decode failure returns no object; otherwise a fresh object holds the cleaned document |
| Loader.ScriptDropOrderIsDropOrder | bin/main.go:81-87 | the script drops each table once, every table before the tables it references |
| Loader.ScriptDropOrderListsEveryTable | bin/main.go:81-87 | the script drops each of the seven tables exactly once |
| Loader.ScriptCreateOrderIsCreateOrder | bin/main.go:89-144 | the script creates each table once, every table after the tables it references |
| Loader.ScriptCreateOrderListsEveryTable | bin/main.go:89-144 | the script creates each of the seven tables exactly once |
| Loader.LoadOrderIsCreateOrder | bin/main.go:356-392 | the seven inserts fill each table once, every table after the tables it references |
| Loader.LoadOrderListsEveryTable | bin/main.go:356-392 | the seven inserts cover each table exactly once |
| Loader.ScriptOrdersAreMirrorImages | bin/main.go:81-144 | the script's create order is its drop order reversed |
| Loader.SchemaScriptBuildsFreshSchema | bin/main.go:79-152 | with no DROP or CREATE refused, the script leaves exactly the seven empty tables, whatever the database held |
| Loader.CleanFgoData | bin/main.go:306-318 | the loader's cleaner leaves exactly the cleaned document, the same result as the library's |
| Loader.ImportOutcome | bin/main.go:320-399 | any failure leaves the database as it was and names Open, Begin, a script action or a COPY in load order |
| Loader.Settle | bin/main.go:392-398 | a failed load rolls back; otherwise a refused commit keeps the old database and an accepted one makes the loaded tables durable; the failure report is unaffected |
| Loader.InsertTable | bin/main.go:180-196 | one insert does exactly what the load order's next step does, and a failure is the one the loads report |
| Loader.Import | bin/main.go:320-399 | cleans the document in place, then opens, begins, runs the script, loads and commits, with the outcome `ImportOutcome` describes |
| Loader.LoadParents | bin/main.go:356-372 | the classes, materials and servants inserts perform the first three steps of the load order |
| Loader.LoadDependants | bin/main.go:374-396 | the four level and cost inserts perform the remaining steps of the load order |
| Loader.LoadAndCommit | bin/main.go:356-398 | the seven inserts, each aborting on failure, then the unchecked commit |
| Loader.LoadsFromFreshSchema | bin/main.go:350-396 | with no COPY refused, loading in any create order from the fresh schema fails exactly at the first invalid table, and otherwise the tables hold the whole document |
| Loader.FirstInvalidIffInvalid | bin/main.go:356-396 | no table in load order is invalid exactly when the document satisfies every entity-level rule |
| Loader.ImportSucceedsIffValid | bin/main.go:338-398 | with nothing refused, the loader fails exactly when the cleaned document breaks a constraint, naming the first such table in load order; success stores exactly the cleaned document, failure leaves the database as it was |
| Loader.ImportRoundTrip | bin/main.go:338-398 | after a successful import, reading the tables back gives the cleaned document |
| Loader.ImportSeesOnlyCleanedData | bin/main.go:338-340 | cleaning happens before any database action: importing a cleaned document changes nothing |
| Loader.CommitFailureIsSilent | bin/main.go:398 | a refused commit reports the same outcome as a successful run, while the database stays as it was |
| Loader.LoadsIgnoreOtherFaults | bin/main.go:356-396 | the loads depend only on which COPY actions are refused |
| Loader.OrphanedCostBlocksImport | bin/main.go:306-318 | a skill cost whose level's servant is missing survives the cleaner, so the import fails and the database is left as it was |
| Loader.OrphanedAscensionCostBlocksImport | bin/main.go:306-318 | an ascension cost whose level's servant is missing survives the cleaner, so the import fails and the database is left as it was |

## Left out

- JSON decoding, including the `,string` option on integer fields, is not modelled. The model starts from decoded maps, and a decode failure is an absent value passed to `ImportData`.
- File reading, the command-line flags and `init` (bin/main.go:70-77, 321-336) are not modelled, and cmd/fgodata is not part of this model.
- `InsertData` (pkg/fgodata/fgo_data.go:91-118) is left out. It runs one goroutine per table with no ordering between dependent tables, and it always returns nil, discarding every per-table error.
- The prepare, feed, exec and close steps of `batchInsert` (pkg/fgodata/db.go:9-31, bin/main.go:156-178) are one COPY action. That action may be refused, or may reject the first row that breaks a constraint. The model does not say which of the four library calls reports a row error, and does not cover the point at which PostgreSQL checks foreign keys during a COPY.
- SQL text, SERIAL defaults and NOT NULL are not modelled. Every column the loader writes is non-null by construction.
- Refusals that the data does not explain are the `faults` parameter. These include connection loss, permissions, and server errors other than constraint violations.
- Go's `int` is 64-bit, and the columns are 32-bit INTEGER. The model keeps integers unbounded and makes the INTEGER range a constraint that a row must meet.
- A `panic` after a rollback is an error the method returns.
- The command-line schema script runs as one multi-statement `Exec`. The model runs it as a sequence of actions that stops at the first error.
- Go's randomised map iteration order is a nondeterministic choice of the next key. Every contract is stated over key sets.
- Fgodata.ImportData: reading the file and its read error are not modelled; decode failure is the only error path.
