# Prompt manager data layer, modelled in Dafny

Coalesce is a prompt manager. Its data layer (`src/lib/server/db.ts`) keeps
prompts in a SQLite database of four tables:

- `prompts`: one row per prompt, with title, description, cluster label and
  keywords, and timestamps;
- `prompt_blocks`: the ordered text or code fragments of a prompt;
- `tags`: manual tags, with an AUTOINCREMENT id and a UNIQUE name;
- `prompt_tags`: which prompt carries which tag.

Foreign keys cascade on delete. On top of the tables sit these operations:

- create, update and delete of prompts;
- create and delete of tags;
- a full export and a destructive import;
- flattening prompts to text for an external clustering service, and
  writing its cluster labels back;
- two groupings for the UI: prompts by cluster and prompts by tag.

The model has these modules:

- `Types`: the rows and the argument records.
- `Sql`: the SQL behaviour the code relies on. WHERE is `Filter`. ORDER BY
  is a stable sort, `SortBy`. PRIMARY KEY and UNIQUE are `DistinctBy`. Text
  compares under the BINARY collation, `StrLess`.
- `Schema`: the four tables as one value, `Tables`. `Valid` holds the keys,
  the foreign keys and the AUTOINCREMENT counter `tagSeq`.
- `Queries`: the read-only queries.
- `Transactions`: each mutating operation as a definition on whole tables.
  One predicate says when the transaction commits (every INSERT passes its
  checks); one function gives the tables afterwards.
- `Store`: the class `PromptStore`, whose fields are the four tables. Its
  methods run the statements one at a time, with the INSERT loops of the
  source, and roll back to the saved state when a statement fails. Each
  method is proved to do what the `Transactions` definition says, and to
  keep `Valid`.
- `Integrity`: every committed transaction keeps the schema's rules.
- `Guarantees`: what the mutations promise, read back through
  `getPromptById` and `getAllTags`. This covers create round-trips,
  all-or-nothing commits, partial updates, wholesale replacement, frames,
  cascades and AUTOINCREMENT.
- `RoundTrip`: importing an export gives back the same tables.
- `Clustering`: the text sent to the clustering service, and the effect of
  the labels written back.
- `Grouping`: the two `Map`-building loops. A JavaScript `Map` is modelled
  as its keys in insertion order plus a Dafny `map`.

## Model

| member | source | states |
|---|---|---|
| Store.PromptStore.constructor | src/lib/server/db.ts:22-66 | a new database has four empty tables and satisfies every schema rule |
| Store.PromptStore.Rollback | src/lib/server/db.ts:128-160 | a failed transaction puts every table back exactly as it was saved |
| Store.PromptStore.InsertBlocks | src/lib/server/db.ts:136-151 | the block INSERT loop succeeds iff the ids stay unique and every block's prompt exists; then the rows are appended in list order |
| Store.PromptStore.InsertLinks | src/lib/server/db.ts:154-157 | the link INSERT loop succeeds iff no (prompt, tag) pair repeats and every link names a live prompt and a live tag; then the links are appended in order |
| Store.PromptStore.CreatePrompt | src/lib/server/db.ts:120-162 | createPrompt returns the new id iff its inserts pass their checks, and the store is then `AfterCreate`; on failure the store is unchanged; validity is kept |
| Store.PromptStore.UpdatePrompt | src/lib/server/db.ts:164-226 | an unknown id gives `false` and changes nothing. Otherwise the result is `true` iff the replacement inserts pass, the store is then `AfterUpdate`, and on failure it is unchanged. Validity is kept |
| Store.PromptStore.TouchPrompt | src/lib/server/db.ts:178-194 | the row UPDATE rewrites only the named prompt and keeps the set of ids and its uniqueness |
| Store.PromptStore.ReplaceChildren | src/lib/server/db.ts:196-221 | the block and tag replacements succeed iff `UpdateCommits`; the blocks and links are then the prompt's old rows removed and the new ones appended, each only when its list is given |
| Store.PromptStore.ReplaceBlocks | src/lib/server/db.ts:197-214 | DELETE of the prompt's blocks, then INSERT of the given list; succeeds iff the block ids stay unique |
| Store.PromptStore.ReplaceLinks | src/lib/server/db.ts:217-221 | DELETE of the prompt's links, then INSERT of one per tag id; succeeds iff the pairs stay unique and every tag exists |
| Store.PromptStore.DeletePrompt | src/lib/server/db.ts:228-231 | returns true iff the prompt existed; the store becomes `AfterDeletePrompt` (cascade to blocks and links); validity is kept |
| Store.PromptStore.CreateTag | src/lib/server/db.ts:238-241 | the result is `CreateTagOutcome`: the next AUTOINCREMENT id, `UniqueViolation` for a taken name, or `Full` when no id is left; the store changes only on success |
| Store.PromptStore.DeleteTag | src/lib/server/db.ts:243-246 | returns true iff the tag existed; the store becomes `AfterDeleteTag` (cascade to links); validity is kept |
| Store.PromptStore.InsertTag | src/lib/server/db.ts:270-271 | one tag INSERT with an explicit id succeeds iff the id and the name stay unique; the counter moves up to the id |
| Store.PromptStore.InsertTags | src/lib/server/db.ts:269-271 | the tag INSERT loop succeeds iff ids and names stay unique; the counter is then `MaxTagSeq` of the rows |
| Store.PromptStore.InsertDetails | src/lib/server/db.ts:284-309 | the inserts for one exported prompt succeed iff `ImportStep`, and append its prompt, blocks and links |
| Store.PromptStore.InsertPrompts | src/lib/server/db.ts:273-309 | the prompt loop of importAll succeeds iff every exported prompt in turn is importable, and leaves exactly the imported rows |
| Store.PromptStore.ImportAll | src/lib/server/db.ts:258-313 | importAll commits iff `ImportCommits`; the store is then the snapshot's rows only; on failure the prior state is kept; validity is kept |
| Store.PromptStore.UpdateClusters | src/lib/server/db.ts:339-353 | the UPDATE loop leaves the prompts as `AfterClusterUpdates` and keeps validity |
| Queries.FindPrompt | src/lib/server/db.ts:104-105 | a row with the id is found iff the id is in use, and the row found has that id |
| Queries.FindTag | src/lib/server/db.ts:111-115 | the tag row a link refers to is found iff its id is in use |
| Queries.GetAllPromptsOrder | src/lib/server/db.ts:99-101 | the listing is a permutation of the prompts table, ordered by updated_at descending |
| Queries.NameBeforeIsStrictWeakOrder | src/lib/server/db.ts:235 | ORDER BY name is a strict weak order, so the sort is well defined |
| Queries.GetAllTagsOrder | src/lib/server/db.ts:234-236 | the tag list is a permutation of the tags table in strictly ascending name order |
| Queries.BlocksOfOrder | src/lib/server/db.ts:107-109 | a prompt's blocks are exactly its block rows, in ascending sort_order |
| Queries.FindPromptUnique | src/lib/server/db.ts:104 | with unique ids, looking a stored prompt up by its id returns that row |
| Queries.FindTagUnique | src/lib/server/db.ts:111-115 | with unique ids, a stored tag is found by its id |
| Queries.JoinTagsAll | src/lib/server/db.ts:111-115 | when every link names a live tag, the join gives one tag per link, in link order |
| Queries.TagsOfMembers | src/lib/server/db.ts:111-115 | a tag is in a prompt's tag list iff it is stored and linked to that prompt |
| Transactions.ClusterUpdateStep | src/lib/server/db.ts:347-349 | one more UPDATE, applied to the state after the earlier ones, gives the state where each row carries its last assignment |
| Integrity.CreateKeepsValid | src/lib/server/db.ts:128-160 | a committed createPrompt keeps every key, foreign key and the counter |
| Integrity.UpdateKeepsValid | src/lib/server/db.ts:176-222 | a committed updatePrompt keeps every schema rule |
| Integrity.DeletePromptKeepsValid | src/lib/server/db.ts:228-231 | deleting a prompt with its cascades keeps every schema rule |
| Integrity.CreateTagKeepsValid | src/lib/server/db.ts:238-241 | inserting a tag under the next id keeps every schema rule |
| Integrity.DeleteTagKeepsValid | src/lib/server/db.ts:243-246 | deleting a tag with its cascade keeps every schema rule |
| Integrity.ImportablePrefix | src/lib/server/db.ts:284-309 | a prefix of an importable prompt list is importable |
| Integrity.ImportedValid | src/lib/server/db.ts:284-309 | the rows an importable list inserts have unique keys, and their foreign keys hold |
| Integrity.MaxTagSeqBounds | src/lib/server/db.ts:270-271 | after explicit-id inserts the counter is at least its old value and every inserted id |
| Integrity.ImportKeepsValid | src/lib/server/db.ts:262-310 | a committed importAll leaves a valid store |
| Integrity.ClusterUpdatesKeepValid | src/lib/server/db.ts:339-353 | writing cluster labels keeps every schema rule |
| Guarantees.NothingOwnedByFreshId | src/lib/server/db.ts:43 | in a valid store no block or link refers to an unused prompt id |
| Guarantees.OwnedRowsAreNew | src/lib/server/db.ts:196-214 | once the prompt's old blocks are deleted and new ones appended, its blocks are the new ones |
| Guarantees.OwnedLinksAreNew | src/lib/server/db.ts:216-221 | the same for links |
| Guarantees.BlockRowsInOrder | src/lib/server/db.ts:141-150 | inserted blocks come back from ORDER BY sort_order in list order, since sort_order is the index |
| Guarantees.LinkRowsJoin | src/lib/server/db.ts:155-156 | the links inserted for existing tag ids join back to those tags, in list order |
| Guarantees.CreateRoundTrip | src/lib/server/db.ts:120-162 | getPromptById after createPrompt gives the title, and the description with empty or missing as NULL. Both timestamps are the creation time and there is no cluster. The blocks come in input order with sort_order 0..n-1 and type defaulting to text; the tags are exactly the requested ids, in order |
| Guarantees.CreatedRow | src/lib/server/db.ts:130-133 | the created row is found under the new id |
| Guarantees.CreatedBlocks | src/lib/server/db.ts:136-151 | the created prompt's blocks are the rows built from the input list |
| Guarantees.CreatedTags | src/lib/server/db.ts:154-157 | the created prompt's tags are the requested tags, in order |
| Guarantees.CreateCommitsIff | src/lib/server/db.ts:128-160 | createPrompt commits iff the new id is unused, the block ids are distinct and unused, and the tag ids are distinct and exist; an unknown or repeated tag id makes it fail |
| Guarantees.UpdatePromptRow | src/lib/server/db.ts:178-194 | only given fields are written, and an empty description is stored as given. updated_at moves only when a title or description is given. Created time and cluster fields are kept |
| Guarantees.UpdateBlocks | src/lib/server/db.ts:196-214 | a given block list, even empty, replaces the blocks in list order. sort_order is the index, a non-empty given id is kept and a fresh one is used otherwise. Without a list the blocks are unchanged |
| Guarantees.ReplacementFields | src/lib/server/db.ts:204-213 | the field values of each replacement block row |
| Guarantees.UpdatedPromptFound | src/lib/server/db.ts:173-174 | an existing prompt is still found after the update |
| Guarantees.UpdatedBlocks | src/lib/server/db.ts:197-214 | after a replacement the prompt's blocks are exactly the replacement rows |
| Guarantees.UpdateTags | src/lib/server/db.ts:216-221 | a given tag id list replaces the prompt's tags, in list order; without one they are unchanged |
| Guarantees.UpdateFrame | src/lib/server/db.ts:196-221 | updating one prompt leaves every other prompt, with its blocks and tags, as it was |
| Guarantees.DeletePromptCascade | src/lib/server/db.ts:228-231 | after deletePrompt the prompt is gone, no block or link refers to it, and the tags are unchanged |
| Guarantees.DeletePromptFrame | src/lib/server/db.ts:228-231 | deleting one prompt leaves every other prompt, with its blocks and tags, as it was |
| Guarantees.CreateTagFresh | src/lib/server/db.ts:238-241 | a new tag's id is above every id in use and every id handed out before, and the tag is listed |
| Guarantees.CreateTagFails | src/lib/server/db.ts:238-241 | createTag fails iff the name is taken or the counter is exhausted; a taken name gives a UNIQUE violation |
| Guarantees.DeletedTagIdNotReused | src/lib/server/db.ts:47-50 | AUTOINCREMENT never hands out a deleted tag's id again |
| Guarantees.DeleteTagCascade | src/lib/server/db.ts:243-246 | deleteTag removes the tag and its links and takes it off every prompt's tag list, which is otherwise kept; prompts and blocks are unchanged |
| RoundTrip.DetailsById | src/lib/server/db.ts:253 | getPromptById on a stored prompt's id gives that prompt with its details |
| RoundTrip.ExportShape | src/lib/server/db.ts:249-256 | the export lists every prompt in listing order, each with its blocks and tags |
| RoundTrip.BlocksOfMembers | src/lib/server/db.ts:107-109 | the blocks exported with a prompt are exactly its block rows |
| RoundTrip.DetailLinksOf | src/lib/server/db.ts:306-308 | the links import recreates from an exported prompt are exactly its links |
| RoundTrip.ImportStepOfDetails | src/lib/server/db.ts:284-309 | the inserts for one more exported prompt pass their checks |
| RoundTrip.DetailsOfSnoc | src/lib/server/db.ts:253 | exporting one more prompt appends its details |
| RoundTrip.PromptIdsSnoc | src/lib/server/db.ts:285-293 | inserting one more prompt adds its id |
| RoundTrip.ImportedBlocksOfDetails | src/lib/server/db.ts:295-304 | the imported blocks of a prefix are the exported prompts' blocks |
| RoundTrip.ImportedLinksOfDetails | src/lib/server/db.ts:306-308 | the imported links of a prefix are the exported prompts' links |
| RoundTrip.ImportedPromptsOfDetails | src/lib/server/db.ts:284-309 | one more exported prompt keeps the list importable and is inserted |
| RoundTrip.ImportOfDetails | src/lib/server/db.ts:284-309 | importing the details of distinct stored prompts commits and recreates exactly their prompts, blocks and links |
| RoundTrip.ExportImportRoundTrip | src/lib/server/db.ts:249-313 | importAll(exportAll()) commits, whatever store it runs on. Prompts and tags come back as the same multisets, and blocks and links as the same sets, every field included |
| Clustering.Join | src/lib/server/db.ts:334 | `join` yields the total length plus the separators, starting with the first string and ending with the last |
| Clustering.GetPromptsForClustering | src/lib/server/db.ts:324-337 | one item per prompt in listing order, with its id and title; the content is its blocks' contents in getPromptById order, joined by a blank line |
| Clustering.ClusteringAfterCreate | src/lib/server/db.ts:324-337 | a created prompt is sent with its title and its submitted block contents in submission order |
| Clustering.LastUpdateWins | src/lib/server/db.ts:347-349 | a prompt gets an assignment iff some assignment names it, and it is the last one naming it |
| Clustering.UnknownIdsChangeNothing | src/lib/server/db.ts:340-349 | assignments naming no stored prompt change nothing |
| Clustering.ClusterUpdatesEffect | src/lib/server/db.ts:339-353 | a named prompt gets the group and keywords of its last assignment (empty or missing keywords as NULL) and the update time. Its other fields, blocks and tags are unchanged; unnamed prompts are unchanged |
| Grouping.FirstSeen | src/lib/server/db.ts:360-366 | the keys of the `Map` are exactly the keys met |
| Grouping.FirstSeenDistinct | src/lib/server/db.ts:362-364 | a key enters the `Map` once |
| Grouping.FirstSeenSnoc | src/lib/server/db.ts:362-364 | one more key is appended iff it is new |
| Grouping.ClusterFilterSnoc | src/lib/server/db.ts:365 | one more prompt joins only its own key's prompts |
| Grouping.ClusterUnseen | src/lib/server/db.ts:362-364 | a key not met has no prompts |
| Grouping.ClusterGroupAfter | src/lib/server/db.ts:362-365 | after one more prompt, its key's group has it pushed at the end and every other group is unchanged |
| Grouping.ClusterKeysSnoc | src/lib/server/db.ts:362-364 | key order after one more prompt |
| Grouping.ClusterGroupsKeys | src/lib/server/db.ts:362-364 | one more prompt adds its key to the map's domain |
| Grouping.ClusterGroupsSnoc | src/lib/server/db.ts:360-366 | one step of the `forEach`: open the group if new, push the prompt |
| Grouping.GroupByCluster | src/lib/server/db.ts:360-366 | the loop builds keys in first-seen order and the map `ClusterGroups` |
| Grouping.GetPromptsByCluster | src/lib/server/db.ts:356-369 | the listing grouped by cluster key, keys in first-seen order |
| Grouping.ClusterGroupsPartition | src/lib/server/db.ts:356-369 | the groups partition the listing. The keys are those of the prompts and no group is empty. Each prompt is in its own key's group, and a group holds only its key's prompts |
| Grouping.DedupKeeps | src/lib/server/db.ts:388-392 | the duplicate check keeps only listed prompts and keeps every listed id |
| Grouping.DedupDistinct | src/lib/server/db.ts:388-392 | after the duplicate check no id repeats |
| Grouping.TagKeysSnoc | src/lib/server/db.ts:385-387 | key order after one more row |
| Grouping.TagFilterSnoc | src/lib/server/db.ts:389 | one more row joins only its own key's rows |
| Grouping.TagUnseen | src/lib/server/db.ts:385-387 | a key not met has no rows |
| Grouping.DedupSnoc | src/lib/server/db.ts:388-392 | one more prompt is pushed unless its id is present |
| Grouping.TagGroupOfNewRow | src/lib/server/db.ts:385-392 | the new row's group is its old group, or empty, with the row's prompt pushed unless present |
| Grouping.TagGroupAfter | src/lib/server/db.ts:385-392 | after one more row only its key's group changes |
| Grouping.TagGroupsKeys | src/lib/server/db.ts:385-387 | one more row adds its key to the map's domain |
| Grouping.TagGroupsSnoc | src/lib/server/db.ts:383-393 | one step of the `forEach`: open the group if new, push the prompt unless its id is there |
| Grouping.GroupByTag | src/lib/server/db.ts:383-393 | the loop builds keys in first-seen order and the map `TagGroups` |
| Grouping.GetPromptsByTag | src/lib/server/db.ts:372-396 | the LEFT JOIN rows, ordered by tag name (NULL first) then updated_at descending, grouped by tag key |
| Grouping.TagGroupsUnique | src/lib/server/db.ts:383-393 | no group lists a prompt id twice; the keys are exactly those of the rows |
| Grouping.RowBeforeIsStrictWeakOrder | src/lib/server/db.ts:378 | ORDER BY t.name, p.updated_at DESC, with NULL names first, is a strict weak order |
| Grouping.TagRowsOrder | src/lib/server/db.ts:373-379 | the query returns every joined row; names ascend with NULL first, and updated_at descends among rows with the same name |
| Grouping.JoinRowsMembers | src/lib/server/db.ts:374-377 | a joined row comes from a listed prompt and its own links |
| Grouping.RowsOfNamed | src/lib/server/db.ts:374-377 | a prompt has a row named n iff it is linked to a tag named n |
| Grouping.RowOfNameIsLinked | src/lib/server/db.ts:374-377 | a named row comes from a link to a tag of that name |
| Grouping.LinkedTagHasRow | src/lib/server/db.ts:374-377 | each link of a prompt to a stored tag gives a row with the tag's name |
| Grouping.DedupMembers | src/lib/server/db.ts:388-392 | with unique ids the duplicate check drops no prompt |
| Grouping.GroupRowsMembers | src/lib/server/db.ts:373-385 | the prompts under a key are those of the joined rows with that key |
| Grouping.TagGroupOf | src/lib/server/db.ts:383-393 | a prompt is in a key's group iff it is among the deduplicated prompts of that key's rows |
| Grouping.GroupPromptsStored | src/lib/server/db.ts:373-379 | every grouped prompt is a stored prompt |
| Grouping.NamedGroupRows | src/lib/server/db.ts:373-385 | for a real tag name, the rows under it are exactly those carrying that name |
| Grouping.TagGroupMembers | src/lib/server/db.ts:372-396 | under a tag name (not empty, not 未标记) are exactly the stored prompts linked to a tag of that name |
| Grouping.NullRowUnlinked | src/lib/server/db.ts:375-377 | with the foreign keys in place, the LEFT JOIN gives a prompt a NULL-named row exactly when it has no link |
| Grouping.UntaggedRowsOf | src/lib/server/db.ts:375-383 | a prompt has a row keyed 未标记 exactly when it has no link or a link to a tag named "" or 未标记 |
| Grouping.UntaggedGroupMembers | src/lib/server/db.ts:372-396 | under 未标记 are exactly the stored prompts that have no link, or a link to a tag named "" or 未标记 |
| Sql.Filter | src/lib/server/db.ts:108 | WHERE keeps exactly the rows that pass, and no more rows than the table has |
| Sql.SortBy | src/lib/server/db.ts:100 | ORDER BY returns a permutation of the rows |
| Sql.SortBySorted | src/lib/server/db.ts:100 | under a strict weak order the result of ORDER BY is sorted |
| Sql.SortByDistinctBy | src/lib/server/db.ts:100 | sorting keeps a key unique |
| Sql.StrLessTotal | src/lib/server/db.ts:235 | the BINARY collation orders any two different names one way, never both |
| Sql.StrLessTransitive | src/lib/server/db.ts:235 | the BINARY collation is transitive |

## Left out

- Module set-up is not modelled: the database path lookup, `mkdirSync`, the
  WAL and foreign-key pragmas, and running the schema script
  (`src/lib/server/db.ts:6-20`, `66`). Only the rules the schema declares
  are modelled, with foreign keys always enforced.
- `backupDatabase` is not modelled. It copies a file and reads the wall
  clock.
- The SQLite engine, WAL and concurrent access are not modelled. The model
  is a single sequential connection.
- `uuidv4()` and `unixepoch()` are parameters: the caller passes the new
  prompt id, the block ids and `now`. Ids are not assumed fresh. A colliding
  id is a primary-key failure, and the transaction rolls back.
- Errors are the constraint kinds (`PrimaryKeyViolation`, `UniqueViolation`,
  `ForeignKeyViolation`, `Full`). The source throws instead; the model
  returns them. Except for `createTag`, which constraint a failed transaction
  reports is left unspecified, and the contracts state only whether it
  commits. For `createTag`, `Guarantees.CreateTagFails` states the kind: a
  full counter gives `Full`, and otherwise a taken name gives
  `UniqueViolation`.
- Block `type` is the enum `Text | Code` from `src/lib/types.ts:16`. Any
  other string the column could hold is not represented.
- Ties in ORDER BY are broken by insertion order. SQL leaves that order
  open. The tag list of `getPromptById` comes from a JOIN with no ORDER BY,
  and the model uses link-row order.
- Queries.TagsOfMembers: the source gives the tag list of `getPromptById` no
  order, so the general statement is about membership only.
  `Guarantees.CreateRoundTrip` and `Guarantees.UpdateTags` state order only
  under the link-row order above.
- Tag ids are unbounded integers up to SQLite's 64-bit rowid limit.
  `createTag` returns `lastInsertRowid` as a JavaScript number. Its loss of
  precision above 2^53 is not modelled.
- `updateClusters` trusts the route handler to send a non-empty id and
  group. The model accepts any assignment.
  `cluster_group` is stored as given, even when empty.
- Grouping.GetPromptsByTag: the source pushes the joined row, which also
  carries `tag_name`. The model pushes the prompt alone.
- Grouping.TagGroupMembers: a tag named `""` or `未标记` falls under the
  untagged key, as `row.tag_name || '未标记'` does. Such names are excluded
  from this lemma's statement. `Grouping.UntaggedGroupMembers` states where
  they go.
- The POST handler rejects a missing, empty or non-string title
  (`src/routes/api/prompts/+server.ts:41`, not part of this model).
  `createPrompt` itself accepts an empty title, and so does the model.
- `updatePrompt` sets `updated_at` only when a title or description is given
  (`src/lib/server/db.ts:178-194`). Replacing only blocks or tags leaves it
  unchanged. `Guarantees.UpdatePromptRow` states this.
- Store.PromptStore.UpdateClusters: every row of one batch gets the same
  `now`. The source runs one `UPDATE ... updated_at = unixepoch()` per
  assignment (`src/lib/server/db.ts:340-350`), and SQLite reads the clock
  once per statement. Rows of one batch may therefore get different
  `updated_at` values when the batch spans a second boundary, which can
  change the order of `getAllPrompts`. The model does not capture that.
- `importAll` leaves the AUTOINCREMENT counter where it was, unless an
  imported id is higher. A tag created after an import may therefore get an
  id above the imported ones, rather than the next one after them.
