# Synapse activity report: a Dafny model

This project models the two pieces of logic in the HTAN Synapse monitoring
jobs that make real decisions:

- `format_simple_slack_message` (`jobs/synapse_monitor/main.py`) takes the
  rows of the file-change query. It groups them per (user, project, folder,
  change type) and remembers the user, project and folder ids for links.
  Then it builds the Slack report:
  - a header carrying the totals;
  - a divider;
  - either the standard layout, with one block per group, or, above 20
    groups, the condensed layout. The condensed layout regroups the groups
    per (user, project) pair and shows up to the 15 most active pairs, each
    with at most 5 folders, plus an overflow line when there are more than
    15 pairs.

  With no rows, it returns a one-line "nothing modified" text instead.
- `transform_annotations` (`jobs/synapse_annotations/main.py`) turns an
  annotations object, possibly still JSON text, into `{key, type, value}`
  records. It keeps only the entries whose `value` is a list. A missing
  `type` defaults to `"STRING"`. It returns `[]` for any input that is not
  an object, and on any exception.

Modules, in dependency order:

| module | file | contents |
|---|---|---|
| `Maybe` | wrappers.dfy | `Option`, standing for Python's `None`, and `ValueOr`. |
| `Assoc` | assoc.dfy | Python dicts as association lists in first-insertion order: `Get`, `Put`, `AddTo`, sums, `FirstSeen`. |
| `Ordering` | ordering.dfy | Python's `<` on `str`. `sorted(..., key, reverse=True)` as a stable descending insertion sort, and top-K truncation. |
| `Activity` | activity.dfy | Query rows, group keys, and the aggregation loop as a left fold. |
| `Blocks` | blocks.dfy | The report's blocks and links. Markdown and emoji are abstracted away. |
| `Links` | links.dfy | User, project and folder links built from the remembered ids. |
| `Standard` | standard.dfy | The standard layout: the full-tuple sort and one block per group. |
| `Condensed` | condensed.dfy | The condensed layout: per-pair re-aggregation, top 15 pairs, top 5 folders, change-type summary, overflow line. |
| `SlackMessage` | message.dfy | The whole function: empty input, header, layout choice, and end-to-end properties stated on the input rows. |
| `Annotations` | annotations.dfy | `transform_annotations` over a JSON value datatype. |

What the code does, which the model follows (all in
`jobs/synapse_monitor/main.py`):

- Line 129 compares `total_entries > CONDENSED_FORMAT_THRESHOLD`. The
  condensed layout needs strictly more than 20 groups; exactly 20 gives
  the standard layout.
- Lines 114-122 add 1 to a group counter per row and sum the counters. So
  `total_files` is the number of rows, and a file changed twice counts
  twice.
- Lines 123-124 take `len(user_ids)` and `len(project_ids)`. Those dicts
  are keyed by name (lines 104-105), so users and projects are counted by
  distinct name, not by id.
- Line 108 files a row under its parent's name when the parent is a
  folder, and under "root" otherwise. A folder that is itself named "root"
  is therefore counted and shown as the project root.
- Lines 218 and 266 give "created" for `CREATE` and "modified" in the
  else branch. Every other change type, including an unexpected one, is
  shown as "modified".
- Lines 178-180 sort the pairs on `x[1]["total"]` alone. Python's sort is
  stable, so pairs with equal totals keep the order in which their first
  group appeared. There is no tie-break on names.
- Lines 228-229 compute `len(sorted_summary) - MAX_USER_PROJECT_COMBINATIONS`.
  The overflow line counts the (user, project) pairs left out, not their
  items.
- Lines 208-210 compute `len(data['folders']) - MAX_FOLDER_DISPLAY`. The
  suffix counts the folders left out, not their items.

## Model

| member | source | states |
|---|---|---|
| `Assoc.Put` | jobs/synapse_monitor/main.py:104-105 | `d[k] = v` keeps an existing key where it is and appends a new key at the end. Afterwards `k` maps to `v` and every other key maps to what it did before. |
| `Assoc.AddTo` | jobs/synapse_monitor/main.py:116-119 | The "insert 0 if absent, then `+= n`" counter update raises `k`'s counter by `n` and leaves every other key alone. The sum of the counters grows by exactly `n`. |
| `Assoc.SumByPermutation` | jobs/synapse_monitor/main.py:213-221 | Reordering a dict's entries, as the change-type sort does, does not change the sum of their values. |
| `Activity.FolderOf` | jobs/synapse_monitor/main.py:108 | A folder row is filed under its parent's name. The folder is "root" iff the parent is not a folder or is a folder named "root". |
| `Activity.KeyOf` | jobs/synapse_monitor/main.py:114 | The group key is the row's user name, project name, folder and change type. A key with a folder other than "root" comes from a folder row with that parent name. |
| `Activity.Step` | jobs/synapse_monitor/main.py:87-119 | One row records its user id and project id. A folder row also records its folder id; no other row touches the folder ids. The row's group counter goes up by one, every other group keeps its count, and the total goes up by one. |
| `Activity.StepKeepsOtherIds` | jobs/synapse_monitor/main.py:104-112 | A row leaves the ids stored for every other user name, project name and (project, folder) pair unchanged. |
| `Activity.AggregateUserIdLast` | jobs/synapse_monitor/main.py:104 | The id linked for a user name is the `modified_by_id` of the last row with that name: later rows overwrite earlier ones. A name with no row has no id. |
| `Activity.AggregateProjectIdLast` | jobs/synapse_monitor/main.py:105 | The id linked for a project name is the `project_id` of the last row with that name. |
| `Activity.AggregateFolderIdLast` | jobs/synapse_monitor/main.py:108-112 | The id linked for a (project, folder) pair is the `parent_id` of the last folder row with that pair. Rows whose parent is not a folder never contribute. |
| `Activity.Aggregate` | jobs/synapse_monitor/main.py:87-119 | No rows leave all four dicts empty. Otherwise the last row's user id and project id are the stored ones, and its group has a positive count. |
| `Activity.AggregateSum` | jobs/synapse_monitor/main.py:116-122 | Each row increments exactly one counter, so the counters add up to the number of rows. |
| `Activity.AggregateKeys` | jobs/synapse_monitor/main.py:114-119 | The groups are the distinct row keys, in the order they first appear. |
| `Activity.AggregateCounts` | jobs/synapse_monitor/main.py:116-119 | A group's counter is the number of rows with that key. |
| `Activity.AggregateUserIds` | jobs/synapse_monitor/main.py:104 | The user-id dict is keyed by the distinct user names, in first-seen order. |
| `Activity.AggregateProjectIds` | jobs/synapse_monitor/main.py:105 | The project-id dict is keyed by the distinct project names, in first-seen order. |
| `Activity.AggregateFolderIds` | jobs/synapse_monitor/main.py:108-112 | The folder-id dict is keyed by the distinct (project, parent name) pairs of the rows whose parent is a folder, and by nothing else. |
| `Activity.AggregateLinkable` | jobs/synapse_monitor/main.py:185-188 | Every group's user and project have ids, so the `user_ids[...]` and `project_ids[...]` lookups never raise. Every group in a non-root folder has a folder id. |
| `Ordering.StrLess` | jobs/synapse_monitor/main.py:242-246 | Python's `<` on `str`: a proper prefix is always less, and no string is less than itself. |
| `Ordering.StrLessTotal` | jobs/synapse_monitor/main.py:242-246 | Python's string `<` orders any two different strings one way or the other. |
| `Ordering.SortDesc` | jobs/synapse_monitor/main.py:178-180 | The result is in non-increasing key order and has the input's length. |
| `Ordering.SortDescPerm` | jobs/synapse_monitor/main.py:178-180 | The result is a permutation of the input. |
| `Ordering.SortDescStable` | jobs/synapse_monitor/main.py:178-180 | `reverse=True` keeps the sort stable: elements with equal keys come out in their input order. |
| `Ordering.TopK` | jobs/synapse_monitor/main.py:182-184 | The shown and hidden parts are the sorted list cut after `min(n, k)` elements. Together they are a permutation of the input, and no hidden element outranks a shown one. |
| `Ordering.TopKStable` | jobs/synapse_monitor/main.py:178-184 | The cut keeps the sort stable. Among the elements with a given key, the shown ones are the first in input order, and the hidden ones are the rest, in input order. |
| `Standard.KeyLess` | jobs/synapse_monitor/main.py:244 | Python's `<` on the (user, project, folder, change type) tuples: decided by the user names when they differ, and never true of equal keys. |
| `Standard.KeyLessTotal` | jobs/synapse_monitor/main.py:244 | Any two different keys are ordered one way or the other. |
| `Standard.KeyLessTransitive` | jobs/synapse_monitor/main.py:244 | The tuple order is transitive. |
| `Standard.EntryLess` | jobs/synapse_monitor/main.py:242-246 | Python's `<` on the sort key `(count, user, project, folder, change_type)`: a lower count is always less, a higher count never is, and no entry is less than itself. |
| `Standard.EntryLessAsymmetric` | jobs/synapse_monitor/main.py:242-246 | The sort-key order is asymmetric. |
| `Standard.SortStandard` | jobs/synapse_monitor/main.py:242-246 | The sort on `(count, user, project, folder, change_type)` with `reverse=True` permutes the groups into descending tuple order. |
| `Standard.RenderActivity` | jobs/synapse_monitor/main.py:248-267 | A standard block links the group's user and project by their ids and shows the count. "item" is used iff the count is 1, and "created" iff the change type is `CREATE`. The location is the project root iff the folder is "root". A folder is linked iff its id is known: the link carries the stored folder id and the folder name, and an unlinked folder shows its plain name. |
| `Standard.RenderStandard` | jobs/synapse_monitor/main.py:242-271 | One activity block per group, in non-increasing count order. |
| `Standard.RenderStandardBlocks` | jobs/synapse_monitor/main.py:242-271 | The i-th block renders the i-th group of the sort on `(count, user, project, folder, change_type)`. |
| `Standard.SortStandardStrict` | jobs/synapse_monitor/main.py:242-246 | With distinct keys there are no ties: a group precedes another iff it has the higher count, or an equal count and the greater (user, project, folder, change type) tuple. |
| `Assoc.DistinctKeysPermutation` | jobs/synapse_monitor/main.py:242-246 | Sorting a dict's items keeps their keys distinct. |
| `Blocks.Verb` | jobs/synapse_monitor/main.py:266 | "created" iff the change type is `CREATE`, and "modified" for every other change type (as also at line 218). |
| `Blocks.ItemWord` | jobs/synapse_monitor/main.py:267 | "item" iff the count is 1, and "items" otherwise, zero included. |
| `Links.UserLink` | jobs/synapse_monitor/main.py:185-187 | A user link is a profile link with the user's name and the id stored for that name. |
| `Links.ProjectLink` | jobs/synapse_monitor/main.py:188 | A project link is a Synapse link with the project's name and the id stored for that name. |
| `Links.FolderRefOf` | jobs/synapse_monitor/main.py:257-263 | A folder is linked iff its (project, folder) pair has a stored id. The link carries that id and the folder name; otherwise the plain name is shown. |
| `Standard.EveryGroupRendered` | jobs/synapse_monitor/main.py:248-271 | No group is lost: each group has a block rendering exactly that group and its count. |
| `Standard.StandardFoldersLinked` | jobs/synapse_monitor/main.py:257-263 | Every folder named in a standard block is linked. The unlinked branch is never taken. |
| `Condensed.Summarize` | jobs/synapse_monitor/main.py:146-175 | The summary has at most one pair per group, and it is empty iff there are no groups. |
| `Condensed.Grow` | jobs/synapse_monitor/main.py:162-175 | Adding a group to a pair adds its count to the pair's total and keeps the folder and change-type counts summing to that total. A new folder is appended after the known ones. |
| `Condensed.GrowCounts` | jobs/synapse_monitor/main.py:162-173 | The group's folder counter and change-type counter each go up by the group's count. A new change type is appended after the known ones. Every other folder and change type keeps its count. |
| `Condensed.SummarizeFolders` | jobs/synapse_monitor/main.py:162-165 | A pair's count for a folder is the sum of the counts of the pair's groups in that folder. |
| `Condensed.SummarizeChangeTypes` | jobs/synapse_monitor/main.py:167-173 | A pair's count for a change type is the sum of the counts of the pair's groups of that change type. |
| `Condensed.AddGroup` | jobs/synapse_monitor/main.py:148-175 | One iteration updates only the group's (user, project) pair, starting from an empty entry if the pair is new. |
| `Condensed.FoldersDistinct` | jobs/synapse_monitor/main.py:162-165 | A pair keeps one counter per folder: its folder keys are distinct. |
| `Condensed.ChangeTypesDistinct` | jobs/synapse_monitor/main.py:167-173 | A pair keeps one counter per change type: its change-type keys are distinct. |
| `Condensed.SummarizeKeys` | jobs/synapse_monitor/main.py:146-160 | The pairs are the distinct (user, project) parts of the groups, in first-seen order. |
| `Condensed.SummarizeTotals` | jobs/synapse_monitor/main.py:146-175 | A pair's total is the sum of its groups' counts. Its folder counts and its change-type counts each add up to that total. |
| `Condensed.SummarizeSum` | jobs/synapse_monitor/main.py:146-175 | The pair totals add up to the sum of all group counts. |
| `Condensed.AllBalanced` | jobs/synapse_monitor/main.py:162-175 | Every pair's folder and change-type counts add up to its total. |
| `Condensed.PairsHaveIds` | jobs/synapse_monitor/main.py:185-188 | Every pair comes from some group, so its user and project links can be built. |
| `Condensed.PlaceOf` | jobs/synapse_monitor/main.py:194-203 | A folder entry reads "in root" iff the folder is "root". Otherwise it names the folder, linked iff its id is known. |
| `Condensed.FolderSummary` | jobs/synapse_monitor/main.py:190-211 | At most 5 folders are listed, most active first. The "(+N more folders)" suffix appears iff the pair has more than 5 folders, and then N is the number of folders minus 5. |
| `Condensed.FolderSummaryShown` | jobs/synapse_monitor/main.py:190-207 | The i-th listed entry is the i-th folder of the stable count sort, shown with its own count and place. That folder is one of the pair's folders, and no folder left out has a higher count. |
| `Condensed.FolderSummaryTies` | jobs/synapse_monitor/main.py:191-193 | Among folders with equal counts, the listed ones are the first the pair met, in that order. |
| `Condensed.ChangeSummary` | jobs/synapse_monitor/main.py:213-221 | One entry per change type, most frequent first. Each is labelled "created" or "modified". |
| `Condensed.ChangeSummaryCovers` | jobs/synapse_monitor/main.py:213-219 | Every change type of the pair is listed with its own count. It reads "created" if it is `CREATE` and "modified" otherwise. |
| `Condensed.ChangeSummaryFrom` | jobs/synapse_monitor/main.py:213-219 | Conversely, the i-th entry is the i-th change type of the stable count sort, with its own count. It reads "created" iff that change type is `CREATE`. |
| `Condensed.ChangeSummaryTotal` | jobs/synapse_monitor/main.py:213-221 | Relabelling and sorting keep the change counts: they add up to the same number. |
| `Condensed.ListedFolderCount` | jobs/synapse_monitor/main.py:190-207 | The i-th folder a pair's line lists shows that folder's place and the sum of the counts of the pair's groups in that folder. |
| `Condensed.ListedChangeCount` | jobs/synapse_monitor/main.py:213-219 | The i-th change entry of a pair's line shows the sum of the counts of the pair's groups of that change type. It reads "created" iff the change type is `CREATE`. |
| `Condensed.RenderPair` | jobs/synapse_monitor/main.py:182-226 | A pair block links the pair's user and project and carries the folder facts above. Its change counts add up to the pair's change-type counts. |
| `Condensed.RenderPairParts` | jobs/synapse_monitor/main.py:205-222 | A pair block lists exactly the pair's change summary and folder summary, so the facts proved about those hold for the block. |
| `Condensed.TopPairs` | jobs/synapse_monitor/main.py:178-184 | `min(n, 15)` pairs are shown. They are the first ones of the stable sort on the total, and a sub-multiset of the summary's pairs. |
| `Condensed.TopPairsTies` | jobs/synapse_monitor/main.py:178-184 | Among pairs with equal totals, the shown ones are the first seen, in first-seen order. |
| `Condensed.TopPairsOrdered` | jobs/synapse_monitor/main.py:178-180 | The shown pairs are in non-increasing order of total. |
| `Condensed.TopPairsMostActive` | jobs/synapse_monitor/main.py:178-184 | No pair left out has a larger total than any shown pair. |
| `Condensed.RenderPairsAt` | jobs/synapse_monitor/main.py:182-226 | The i-th pair block renders the i-th shown pair. |
| `Condensed.RenderCondensed` | jobs/synapse_monitor/main.py:182-238 | `min(n, 15)` pair blocks, plus one overflow block iff there are more than 15 pairs. The overflow block counts `n - 15` pairs. |
| `Condensed.RenderCondensedPairs` | jobs/synapse_monitor/main.py:182-226 | The i-th pair block renders the i-th pair that `TopPairs` picks. |
| `Condensed.CondensedOrder` | jobs/synapse_monitor/main.py:178-226 | Pair blocks come in non-increasing order of the change counts they list. |
| `SlackMessage.DayWord` | jobs/synapse_monitor/main.py:75 | "day" iff the window is one day, "days" otherwise. |
| `SlackMessage.UseCondensed` | jobs/synapse_monitor/main.py:128-130 | The condensed layout is chosen iff there are at least 21 groups; exactly 20 keeps the standard layout. |
| `SlackMessage.HeaderOf` | jobs/synapse_monitor/main.py:121-140 | The header shows the sum of the group counters and the numbers of stored user and project names. It carries the high-activity note iff the condensed layout is chosen, and the note shows the number of groups. |
| `SlackMessage.Body` | jobs/synapse_monitor/main.py:144-271 | The standard body has one block per group. The condensed body has between 1 and 16 blocks, however many groups there are. |
| `SlackMessage.FormatMessage` | jobs/synapse_monitor/main.py:70-142 | The result is a text-only message iff there are no rows, naming the window with the right day word. Otherwise it is a report that starts with a header and a divider. The window defaults to one day, as `days_back=1` does. |
| `SlackMessage.HeaderCounts` | jobs/synapse_monitor/main.py:121-140 | The header shows the number of rows, distinct user names and distinct project names. It carries the high-activity note iff there are more than 20 distinct group keys, and the note shows that number. |
| `SlackMessage.ReportBody` | jobs/synapse_monitor/main.py:127-144 | The condensed layout is chosen iff there are more than 20 distinct group keys. The report is the header, the divider and that layout's blocks. |
| `SlackMessage.StandardLayout` | jobs/synapse_monitor/main.py:240-271 | With at most 20 distinct keys, there is exactly one activity block per distinct key after the divider, in non-increasing count order. |
| `SlackMessage.StandardBlockOrder` | jobs/synapse_monitor/main.py:240-271 | With at most 20 distinct keys, the i-th block after the divider renders the i-th group of the standard sort. A group comes first iff it has the higher count, or an equal count and the greater (user, project, folder, change type) tuple. |
| `SlackMessage.StandardBlockOfKey` | jobs/synapse_monitor/main.py:240-271 | Every distinct key of the rows has a block, and that block shows the number of rows with the key. |
| `SlackMessage.StandardFolderLinks` | jobs/synapse_monitor/main.py:254-263 | Every folder a standard-layout report names is linked. |
| `SlackMessage.PairCount` | jobs/synapse_monitor/main.py:146-160 | The condensed layout has one pair per distinct (user name, project name) of the rows. |
| `SlackMessage.CondensedBody` | jobs/synapse_monitor/main.py:144-238 | Above 20 distinct keys, the blocks after the divider are the condensed rendering of the rows' pairs. |
| `SlackMessage.CondensedBlockCount` | jobs/synapse_monitor/main.py:144-238 | Above 20 distinct keys, the report has `2 + min(P, 15)` blocks, plus one if `P > 15`, where P is the number of distinct (user, project) pairs of the rows. |
| `SlackMessage.CondensedBlockKinds` | jobs/synapse_monitor/main.py:182-238 | Every block after the divider is a pair block, except the overflow line in position 16. |
| `SlackMessage.CondensedOverflow` | jobs/synapse_monitor/main.py:228-238 | With more than 15 pairs, the block after the 15th pair block is the overflow line. It counts `P - 15` pairs. |
| `SlackMessage.CondensedPairBlocks` | jobs/synapse_monitor/main.py:177-226 | Above 20 distinct keys, the i-th block after the divider renders the i-th of the most active pairs, picked by the stable sort on the total. |
| `SlackMessage.CondensedPairOrder` | jobs/synapse_monitor/main.py:177-226 | The pair blocks of a report come most active first. |
| `SlackMessage.CondensedTotals` | jobs/synapse_monitor/main.py:146-175 | The pair totals add up to the number of rows. |
| `Annotations.Member` | jobs/synapse_annotations/main.py:15-23 | `obj.get(name)` finds a value iff the object has a member of that name, and the value found is that member's. |
| `Annotations.HasListValue` | jobs/synapse_annotations/main.py:18-22 | An entry is kept only if it is an object. For an object, it is kept iff its `value` member exists and is a list. |
| `Annotations.RecordOf` | jobs/synapse_annotations/main.py:23 | A record carries the entry's key and its list value unchanged. Its type is the entry's `type`, or "STRING" when the entry has none. |
| `Annotations.Collect` | jobs/synapse_annotations/main.py:16-24 | The loop writes at most one record per entry. |
| `Annotations.ListIndicesSpec` | jobs/synapse_annotations/main.py:17-23 | The kept positions are increasing, and a position is kept iff its entry's `value` is a list. |
| `Annotations.CollectFails` | jobs/synapse_annotations/main.py:17-27 | The loop fails iff some entry is not an object, since `.get` raises on it. |
| `Annotations.CollectKeepsListEntries` | jobs/synapse_annotations/main.py:17-24 | When every entry is an object, the records are exactly those of the entries whose value is a list, in the entries' order. |
| `Annotations.AnnotationsOf` | jobs/synapse_annotations/main.py:8-15 | Text input is parsed first. The entries are found iff the parse succeeds, the value is an object, and its `annotations` member is absent or an object. They are that member's members, or none when it is absent. |
| `Annotations.Transform` | jobs/synapse_annotations/main.py:6-27 | The result is `[]` whenever the entries cannot be found: the text does not parse, the input is not an object after parsing, or the `annotations` member is not an object. It is also `[]` when the member is missing. |
| `Annotations.TransformAllOrNothing` | jobs/synapse_annotations/main.py:17-27 | One entry that is not an object empties the whole result: no partial list is returned. |
| `Annotations.TransformRecords` | jobs/synapse_annotations/main.py:15-24 | Otherwise the records come from the list-valued entries in their original order, so the keys are a subsequence of the entry keys. There are no more records than entries, and each record is that entry's record. |

## Left out

- Snowflake login and query execution, the Slack webhook POST, reading the
  SQL file, the `main` functions, argument parsing, `.env` loading and
  logging. These are I/O and orchestration. The model starts from the
  query's rows and ends at the message value.
- The BigQuery writers and the whole public-status job. They are foreign
  client calls around a trivial mapping.
- `create_secrets.py`: YAML loading and `gcloud` subprocess calls.
- The text of the messages: emoji, markdown, the "TESTING ONLY" line, the
  bot's username and icon. Blocks keep the structure instead: which link
  is used, the numbers shown, and the words chosen ("item"/"items",
  "created"/"modified", "day"/"days").
- Link URLs: a link is `Profile(id, name)` or `Synapse(id, name)`. The
  `syn` prefix and the host name are implied by the constructor.
- Rows of the wrong arity, which make the tuple unpacking raise. Rows are
  typed records with twelve fields.
- Python's unbounded integers need no wrap-around. JSON numbers are
  modelled as integers; floating-point values are left out.
- `json.loads` is a parameter `parse: string -> Option<Json>`, where `None`
  means it raised. JSON objects are taken to have distinct member names,
  as the dicts it returns do. `Member` finds the first match, whereas
  `json.loads` keeps the last value of a repeated name.
- NULL columns. A query row with `None` in a name column would make the
  tuple comparison of the standard sort (main.py:242-246) raise
  `TypeError` once two groups tie on count and reach that column. The
  model types every column as a non-null value, so this error path is
  not modelled.
- Annotation objects that are Python dicts with non-string keys. Keys are
  modelled as strings.
- Condensed layout folder links: the model does not prove that every folder
  shown in a condensed block is linked. The same fact is proved for the
  standard layout (`SlackMessage.StandardFolderLinks`). For the condensed
  layout it is only implied by `Activity.AggregateLinkable`.
- `SlackMessage.CondensedPairOrder` states the order through the sum of each
  block's change counts. That sum equals the pair's total
  (`Condensed.CondensedOrder`, `Condensed.AllBalanced`), but the lemma
  does not name the total itself.
