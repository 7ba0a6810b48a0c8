# VSPipeline utilities: a verified model

This project models the logic of `tasks/utils/vspipeline_utilities.py`, which
prepares VarSeq batch projects for groups of related samples:

- **Sample grouping.** The sample sheet is normalised into a table from sample
  name to metadata values. A breadth-first search then groups samples that
  reference each other into connected components, each stored sorted under its
  smallest member. In cohort mode every sample goes into one group instead.
- **Template resolution.** Two recursive walks run over a project template.
  - The first files every `AxisUuidOptions` declaration under its uuid.
  - The second collects every `VSTableDataOptions` node in pre-order.

  Table names are then bucketed by the axis type their axes are declared with,
  and one table is chosen per category (cnv, breakend, region). Import
  algorithms are detected by their names. Any exception while reading the
  template gives the "nothing found" answer.
- **Manifests.** Per-sample file manifests are merged as an order-keeping union
  without repeats. A single file is appended to one manifest only if it is
  absent.
- **Batch script generation.** The script for one group lists these commands in
  order:
  - project creation and source download
  - one import block per kind of file
  - task list, save and close
- **CNV states.** A rounded copy number is mapped to its state name.

Python values become Dafny values as follows:

- A template is a `Json` tree whose dict members keep their written order.
  A repeated key is read as `json.load` reads it: the key stays at its first
  position and holds its last value (`Keys`, `Find`). Lookups, `for` loops and
  the recursive walks see only that dict.
- Python's `dict.get`, iteration, truthiness and hashability are modelled on
  that tree. An operation Python would refuse is an `Err(TypeFault)`.
- Strings are `seq<char>`. Python's string order, `strip`, `lower`, `in`,
  `startswith`, `replace(pat, '')`, `isdigit`, `join` and `split` are defined
  in `Text`.

Where the source is imperative, the model is imperative. The search, the
grouping loop, the axis walk, the bucketing and selection loops, the merge
loops, the manifest update and the batch line builder are methods. Each is
proved equal to a specification function, or to hold a stated invariant, and
the properties are proved about those functions.

## Model

| member | source | states |
|---|---|---|
| Text.StripSpec | tasks/utils/vspipeline_utilities.py:398 | `strip()` gives "" exactly for an all-white-space string; otherwise the result starts and ends with a non-space character |
| Text.TrimStartSpec | tasks/utils/vspipeline_utilities.py:398 | leading white space is removed: the result is a suffix, everything dropped is white space, and the result does not start with white space |
| Text.TrimEndSpec | tasks/utils/vspipeline_utilities.py:398 | trailing white space is removed: the result is a prefix, everything dropped is white space, and the result does not end with white space |
| Text.BelowIrreflexive | tasks/utils/vspipeline_utilities.py:168 | Python's string `<` is irreflexive |
| Text.BelowTransitive | tasks/utils/vspipeline_utilities.py:168 | string `<` is transitive |
| Text.BelowTotal | tasks/utils/vspipeline_utilities.py:168 | of two distinct strings one is smaller |
| Text.AtMostAntisymmetric | tasks/utils/vspipeline_utilities.py:168 | `<=` on strings is antisymmetric |
| Text.AtMostTransitive | tasks/utils/vspipeline_utilities.py:168 | `<=` on strings is transitive |
| Text.Insert | tasks/utils/vspipeline_utilities.py:318 | inserting into a sorted list keeps it sorted and adds exactly one occurrence of the element |
| Text.InsertStrict | tasks/utils/vspipeline_utilities.py:495 | inserting a new element into a strictly increasing list keeps it strictly increasing |
| Text.Sort | tasks/utils/vspipeline_utilities.py:318 | `sorted(...)` returns a sorted permutation of its input |
| Text.SortedMembers | tasks/utils/vspipeline_utilities.py:483 | `sorted` of a set is strictly increasing and holds exactly the set's members |
| Text.StrictlySortedUnique | tasks/utils/vspipeline_utilities.py:495 | two strictly increasing lists with the same members are equal |
| Text.SortedUnique | tasks/utils/vspipeline_utilities.py:318 | two sorted lists that are permutations of each other are equal |
| Text.SortIgnoresOrder | tasks/utils/vspipeline_utilities.py:318 | `sorted` depends only on the multiset of its input |
| Text.SplitJoin | tasks/utils/vspipeline_utilities.py:382 | joining parts with a one-character separator none of them holds, then splitting on it, gives the parts back |
| Text.JoinAvoids | tasks/utils/vspipeline_utilities.py:350 | a character in neither the separator nor any part is not in the joined string |
| Dedup.AppendNew | tasks/utils/vspipeline_utilities.py:285-286 | append-if-absent keeps the list free of repeats, keeps the old list as a prefix, and adds exactly the new element |
| Dedup.AppendAllNoDuplicates | tasks/utils/vspipeline_utilities.py:284-286 | appending many paths one by one, each only if absent, leaves no repeats |
| Dedup.AppendAllMembers | tasks/utils/vspipeline_utilities.py:284-286 | the result holds exactly the old elements and the appended ones |
| Dedup.AppendAllKeepsPrefix | tasks/utils/vspipeline_utilities.py:284-286 | the old list stays a prefix of the result |
| Dedup.AppendAllConcat | tasks/utils/vspipeline_utilities.py:265-286 | appending one list and then another equals appending their concatenation |
| Dedup.FirstIndex | tasks/utils/vspipeline_utilities.py:150-156 | the first position holding an element |
| Dedup.DedupFirstSeenOrder | tasks/utils/vspipeline_utilities.py:150-156 | deduplication keeps elements in the order of their first occurrence |
| Dedup.DedupContents | tasks/utils/vspipeline_utilities.py:150-156 | deduplication leaves no repeats and keeps every element |
| SampleGroups.CleanValues | tasks/utils/vspipeline_utilities.py:403 | kept metadata values are non-empty; each one is a stripped input value; every value non-empty after stripping is kept |
| SampleGroups.TableOfSamples | tasks/utils/vspipeline_utilities.py:394-402 | a name is a sample exactly when it is the non-empty stripped name cell of some data row |
| SampleGroups.TableOfLastRow | tasks/utils/vspipeline_utilities.py:403 | a sample's metadata comes from the last row carrying its name |
| SampleGroups.ParseSampleRows | tasks/utils/vspipeline_utilities.py:385-405 | with no header row the parse fails; otherwise it builds the table of the rows after the header |
| SampleGroups.ExtendWalk | tasks/utils/vspipeline_utilities.py:419-433 | a walk followed by a related sample is a walk |
| SampleGroups.ReachStep | tasks/utils/vspipeline_utilities.py:423-426 | a sample related to a reachable sample, and not processed, is reachable |
| SampleGroups.ClosedSetHoldsWalk | tasks/utils/vspipeline_utilities.py:415-433 | a set that every reference leads back into holds every walk starting in it |
| SampleGroups.ReachedOutside | tasks/utils/vspipeline_utilities.py:420 | a search never reaches a sample processed before it started |
| SampleGroups.ConnectedViaCommonStart | tasks/utils/vspipeline_utilities.py:419-433 | the reference graph is undirected: two samples reached from one start are connected |
| SampleGroups.AddSamplesNaming | tasks/utils/vspipeline_utilities.py:419-426 | the first scan adds every unprocessed sample whose metadata names the current sample; it adds each to the group, the processed set and the queue, and keeps the search invariant |
| SampleGroups.AddNamedSamples | tasks/utils/vspipeline_utilities.py:428-433 | the second scan adds every known, unprocessed sample named by the current sample's metadata |
| SampleGroups.FindConnectedSamples | tasks/utils/vspipeline_utilities.py:408-435 | the group is exactly the samples reachable from the start without entering an already processed sample; the processed set grows by the group |
| SampleGroups.NewGroupIsComponent | tasks/utils/vspipeline_utilities.py:489-493 | a group found from an unprocessed sample is disjoint from the processed samples and closed under references |
| SampleGroups.FindSampleRelationships | tasks/utils/vspipeline_utilities.py:478-495 | cohort mode gives no group for no samples, else one group "cohort" listing every sample sorted; otherwise the groups are the connected components, each sorted and keyed by its smallest member, and they partition the samples |
| SampleGroups.StoreGroup | tasks/utils/vspipeline_utilities.py:489-495 | storing a newly found group under its smallest member keeps the loop invariant |
| SampleGroups.NewKeyIsFresh | tasks/utils/vspipeline_utilities.py:494-495 | a new group's key is not already a key |
| SampleGroups.GroupConnectedToKey | tasks/utils/vspipeline_utilities.py:493-494 | every member of a found group is connected to its key |
| SampleGroups.StoreGroupOwners | tasks/utils/vspipeline_utilities.py:489-495 | after storing, each processed sample lies in exactly its owner's group |
| SampleGroups.StoreGroupShape | tasks/utils/vspipeline_utilities.py:494-495 | after storing, groups are still sorted, keyed by their least member, closed and connected |
| SampleGroups.GroupingDone | tasks/utils/vspipeline_utilities.py:487-495 | once every sample is processed the groups are a component grouping |
| SampleGroups.GroupComponents | tasks/utils/vspipeline_utilities.py:487-495 | the grouping loop yields a partition into connected components, sorted and keyed by their least member |
| SampleGroups.WalkStaysInGroup | tasks/utils/vspipeline_utilities.py:419-433 | a walk from a group member stays inside the group |
| SampleGroups.GroupingIsUnique | tasks/utils/vspipeline_utilities.py:489 | any two component groupings are equal, so the result does not depend on the order the set is walked in |
| SampleGroups.SameComponent | tasks/utils/vspipeline_utilities.py:494-495 | two component groupings store the same group under the same key |
| JsonDoc.Find | tasks/utils/vspipeline_utilities.py:40-44 | a dict lookup finds nothing exactly when the key is absent; otherwise it finds the last value written for the key |
| JsonDoc.Get | tasks/utils/vspipeline_utilities.py:42-44 | `get` fails exactly on a non-dict; it gives the default when the key is absent and otherwise the last value written for the key |
| JsonDoc.Keys | tasks/utils/vspipeline_utilities.py:95 | the dict `json.load` builds has each distinct written key once, in first-occurrence order: no repeats, and exactly the keys present |
| JsonDoc.KeysAppend | tasks/utils/vspipeline_utilities.py:95 | reading one more member appends its key only when the key is new |
| JsonDoc.Iterate | tasks/utils/vspipeline_utilities.py:41 | a `for` loop visits list items, the dict's distinct keys in order, or characters, and fails on null, booleans and numbers |
| JsonDoc.Children | tasks/utils/vspipeline_utilities.py:48-53 | a walk descends into list items, or a dict's values, each smaller than the node |
| JsonDoc.ChildrenOfObj | tasks/utils/vspipeline_utilities.py:48 | a dict's `values()` are one per distinct key, in key order, each the value `Find` gives for it, so a value shadowed by a repeated key is not visited |
| JsonDoc.RepeatedKeyOnce | tasks/utils/vspipeline_utilities.py:95 | a key written twice is listed once |
| JsonDoc.RepeatedKeyChildren | tasks/utils/vspipeline_utilities.py:48 | a dict written with the same key twice is walked through its last value only |
| AxisLookup.EntryOf | tasks/utils/vspipeline_utilities.py:42-46 | a recorded entry is a well-formed `AxisUuidOptions` declaration with a truthy uuid |
| AxisLookup.EntryOfDeclaration | tasks/utils/vspipeline_utilities.py:42-46 | every well-formed declaration is recorded |
| AxisLookup.EntryOfFaults | tasks/utils/vspipeline_utilities.py:41-46 | an item raises exactly when it is not a dict, or it is an `AxisUuidOptions` item whose `fields` is not a dict or whose truthy uuid is unhashable |
| AxisLookup.FindAxisUuids | tasks/utils/vspipeline_utilities.py:31-53 | the walk leaves the lookup with the declarations it meets stored in walk order, or raises |
| AxisLookup.AddAxes | tasks/utils/vspipeline_utilities.py:41-46 | the loop over an `axisUuids` list stores its declarations in order |
| AxisLookup.FindInChildren | tasks/utils/vspipeline_utilities.py:48-53 | the loop over dict values or list items walks each child in turn |
| AxisLookup.StoreAllKeys | tasks/utils/vspipeline_utilities.py:46 | the lookup's keys are the old keys plus every stored uuid |
| AxisLookup.StoreAllLastWins | tasks/utils/vspipeline_utilities.py:46 | the last declaration of a uuid wins |
| AxisLookup.StoreAllUntouched | tasks/utils/vspipeline_utilities.py:46 | a uuid no declaration mentions keeps its value |
| AxisLookup.AxesFromMembers | tasks/utils/vspipeline_utilities.py:41-46 | the entries of an `axisUuids` list are exactly the declarations its items make |
| AxisLookup.AxisEntriesWithin | tasks/utils/vspipeline_utilities.py:39-53 | the walk meets exactly the declarations made by nodes of the tree |
| AxisLookup.EntriesFromWithin | tasks/utils/vspipeline_utilities.py:48-53 | the walks of the children meet exactly the declarations made below them |
| AxisLookup.AxisEntriesOk | tasks/utils/vspipeline_utilities.py:39-53 | the walk raises exactly when some node's own `axisUuids` list is malformed |
| AxisLookup.EntriesFromOk | tasks/utils/vspipeline_utilities.py:48-53 | the children's walks raise exactly when some node below them has a malformed list |
| AxisLookup.LookupKeys | tasks/utils/vspipeline_utilities.py:110-111 | a uuid is in the lookup exactly when some node of the template declares it |
| AxisLookup.LookupValueDeclared | tasks/utils/vspipeline_utilities.py:46 | every lookup value is the `fields` of a declaration of that uuid made in the template |
| TableDataOptions.TableOptions | tasks/utils/vspipeline_utilities.py:56-78 | only `VSTableDataOptions` dicts are collected |
| TableDataOptions.TableOptionsWithin | tasks/utils/vspipeline_utilities.py:67-78 | the walk collects exactly the table nodes of the tree |
| TableDataOptions.TablesFromWithin | tasks/utils/vspipeline_utilities.py:72-77 | the walks of children `i..` collect exactly the table nodes below them |
| TableDataOptions.TableNodeFirst | tasks/utils/vspipeline_utilities.py:69-73 | pre-order: a table node comes first among those collected from it |
| TableSelection.CategoryOf | tasks/utils/vspipeline_utilities.py:136-141 | only the exact axis types `CNV`, `Breakend` and `Region` select a category |
| TableSelection.HitOf | tasks/utils/vspipeline_utilities.py:130-141 | one axis uuid yields at most one candidate |
| TableSelection.AddHit | tasks/utils/vspipeline_utilities.py:136-141 | a candidate is appended to its own category's list and to no other |
| TableSelection.NamesForMembers | tasks/utils/vspipeline_utilities.py:136-141 | a category's candidate list holds exactly the names hit for it |
| TableSelection.CollectFromTable | tasks/utils/vspipeline_utilities.py:124-141 | one table node extends each category's list by its hits, or raises |
| TableSelection.CollectHits | tasks/utils/vspipeline_utilities.py:130-141 | the loop over an `axisUuidList` extends the lists by that table's hits in order, or raises |
| TableSelection.CollectCandidates | tasks/utils/vspipeline_utilities.py:124-141 | the bucketing loop gives each category the names hit for it, in table order, or raises |
| TableSelection.Customs | tasks/utils/vspipeline_utilities.py:163 | the custom names are exactly the candidates that are not generic |
| TableSelection.Generics | tasks/utils/vspipeline_utilities.py:164 | the generic names are exactly the candidates that are generic |
| TableSelection.SortedFirstIsLeast | tasks/utils/vspipeline_utilities.py:168 | the first of a sorted non-empty list is its least member |
| TableSelection.PickTable | tasks/utils/vspipeline_utilities.py:144-179 | nothing is chosen exactly when there is no candidate; the choice is a candidate; it is the least custom name when one exists, else the least candidate |
| TableSelection.FallbackUnreachable | tasks/utils/vspipeline_utilities.py:176-179 | every distinct candidate is custom or generic, so the "first encountered" branch never runs |
| TableSelection.GenericNames | tasks/utils/vspipeline_utilities.py:163-164 | `Table1` and `Table2` are generic; `Table`, `MyCustomTable` and `Table1a` are not |
| TableSelection.PickCustomExample | tasks/utils/vspipeline_utilities.py:166-169 | a custom name beats generic ones |
| TableSelection.PickGenericExample | tasks/utils/vspipeline_utilities.py:171-174 | among generic names the alphabetically first wins |
| TableSelection.BelowStep | tasks/utils/vspipeline_utilities.py:168 | strings sharing a prefix compare like their remainders |
| TableSelection.SelectTable | tasks/utils/vspipeline_utilities.py:144-179 | deduplication with the `seen` set followed by the priority rule chooses what `PickTable` chooses |
| TableSelection.SetId | tasks/utils/vspipeline_utilities.py:160 | setting one category's id leaves the others unchanged |
| TableSelection.SelectTables | tasks/utils/vspipeline_utilities.py:144-179 | after the loop each category's id is the choice among its candidates |
| TableSelection.CandidateSource | tasks/utils/vspipeline_utilities.py:124-141 | a name is a candidate for a category exactly when a table node of that `userId` lists a uuid whose lookup entry has the category's axis type |
| TableSelection.TableCandidate | tasks/utils/vspipeline_utilities.py:125-141 | one table node yields a name for a category exactly under that condition |
| TableSelection.TableHitsSource | tasks/utils/vspipeline_utilities.py:130-141 | one table's hits for a category are exactly its uuids typed for the category |
| TableSelection.HitOfSource | tasks/utils/vspipeline_utilities.py:131-141 | one uuid yields a hit exactly when it is in the lookup with the category's axis type |
| TemplateResolver.ImportKind | tasks/utils/vspipeline_utilities.py:198-204 | a lowercase name containing `import` selects cnv if it contains `cnv`, else breakend for `breakend` or `bnd`, else region for `region`; other names select nothing |
| TemplateResolver.Raise | tasks/utils/vspipeline_utilities.py:200-204 | raising a flag sets it and leaves the others |
| TemplateResolver.FlagsOf | tasks/utils/vspipeline_utilities.py:189-204 | a flag is up exactly when some algorithm name announces its import |
| TemplateResolver.FlagsOnlyRise | tasks/utils/vspipeline_utilities.py:189-204 | more names never lower a flag: the flags of a concatenation are the union |
| TemplateResolver.ImportFlags | tasks/utils/vspipeline_utilities.py:189-204 | the loop over the algorithm names sets exactly those flags |
| TemplateResolver.MissingStepNoFlags | tasks/utils/vspipeline_utilities.py:181-186 | when any dict on the path `project.fields.dal.fields.dataTrees` lacks its next key, the data trees read as `[]`, there are no algorithm names and every flag stays down |
| TemplateResolver.ParseTemplate | tasks/utils/vspipeline_utilities.py:93-216 | the resolution after reading the document equals `Resolve`, and falls back to the empty answer on any exception |
| TemplateResolver.MalformedAxesUnresolve | tasks/utils/vspipeline_utilities.py:211-216 | a malformed `axisUuids` list anywhere makes the answer fall back |
| TemplateResolver.ChosenTableIsDeclared | tasks/utils/vspipeline_utilities.py:111-179 | a chosen table id names a table node of the template that lists a uuid declared in the template with the category's axis type |
| Manifest.TypeOf | tasks/utils/vspipeline_utilities.py:775-776 | exactly the four names `multiverse`, `cnv`, `bnd` and `region` are valid file types |
| Manifest.WithFiles | tasks/utils/vspipeline_utilities.py:282-286 | replacing one type's list leaves the other lists |
| Manifest.MergeList | tasks/utils/vspipeline_utilities.py:284-286 | the loop over one input list appends each path only if absent |
| Manifest.MergeSample | tasks/utils/vspipeline_utilities.py:282-286 | the loop over the four types merges each type's list |
| Manifest.MergeInput | tasks/utils/vspipeline_utilities.py:272-286 | the loop over an input's samples creates missing samples and merges every list |
| Manifest.MergeManifests | tasks/utils/vspipeline_utilities.py:252-292 | the merged samples are those some readable input lists; each list is the deduplicated concatenation of the inputs' lists in input order |
| Manifest.SamplesOfStep | tasks/utils/vspipeline_utilities.py:272-279 | one more input adds its samples |
| Manifest.NotListedNoPaths | tasks/utils/vspipeline_utilities.py:272-279 | a sample no input lists has no paths |
| Manifest.MergedListContents | tasks/utils/vspipeline_utilities.py:272-286 | each merged list has no repeats, holds every input path for its sample and type, and keeps the order of first occurrence across inputs |
| Manifest.AllPathsMembers | tasks/utils/vspipeline_utilities.py:265-286 | a path is listed for a sample and type exactly when some readable input lists it there |
| Manifest.AppendFile | tasks/utils/vspipeline_utilities.py:775-822 | an invalid type is rejected before anything changes; a present sample lacking the list is an error; otherwise the path is appended to that list exactly when absent, creating the sample if needed |
| Manifest.AppendIdempotent | tasks/utils/vspipeline_utilities.py:819-822 | appending the same file twice changes nothing the second time |
| Manifest.AppendTouchesOneList | tasks/utils/vspipeline_utilities.py:806-822 | other samples are untouched; an existing sample keeps exactly its set of lists, and every list but the one appended to keeps its paths |
| Manifest.NewSampleHasAllLists | tasks/utils/vspipeline_utilities.py:811-817 | a new sample gets all four lists, three of them empty and one holding just the path |
| Manifest.ManifestDocument.constructor | tasks/utils/vspipeline_utilities.py:804 | the document read holds the given samples and other entries |
| Manifest.ManifestDocument.Append | tasks/utils/vspipeline_utilities.py:806-822 | the in-place update leaves the samples `AppendFile` gives and the other top-level entries unchanged |
| Batch.Basename | tasks/utils/vspipeline_utilities.py:326 | the template name is the part of the path after its last `/` |
| Batch.ProjectNameOrderFree | tasks/utils/vspipeline_utilities.py:316-318 | a small group's project name does not depend on the order of its members |
| Batch.Quoted | tasks/utils/vspipeline_utilities.py:350 | each file is wrapped in double quotes |
| Batch.TableIdOr | tasks/utils/vspipeline_utilities.py:357 | a missing or empty table id becomes `Table1`; a present one is used as is |
| Batch.CollectFilesMembers | tasks/utils/vspipeline_utilities.py:339-345 | a file is collected exactly when some member of the group lists it under that type |
| Batch.GroupFiles | tasks/utils/vspipeline_utilities.py:334-345 | the four lists are the per-type collections |
| Batch.CollectGroupFiles | tasks/utils/vspipeline_utilities.py:339-345 | the loop over the group collects the four lists |
| Batch.RenderAllAppend | tasks/utils/vspipeline_utilities.py:376-380 | the lines of two command lists are the lines of each in turn |
| Batch.CreateCommand | tasks/utils/vspipeline_utilities.py:327-329 | the line built step by step is `CreateLine`; it opens `project_create "AppData/Projects/<name>" template="<template>"` and ends in ` overwrite=true` exactly when asked |
| Batch.CreateLineShape | tasks/utils/vspipeline_utilities.py:327-329 | the creation line starts with the project folder named after the group and the template name, and ends in ` overwrite=true` exactly when overwriting is asked for |
| Batch.AppendMultiverse | tasks/utils/vspipeline_utilities.py:348-352 | the multiverse block's lines are appended |
| Batch.AppendUpdate | tasks/utils/vspipeline_utilities.py:355-373 | an update block's lines are appended |
| Batch.BuildLines | tasks/utils/vspipeline_utilities.py:323-380 | the lines built are the rendering of the script for the group's name, template name and files |
| Batch.GenerateBatch | tasks/utils/vspipeline_utilities.py:295-382 | the batch text is those lines joined by newlines |
| Batch.ScriptFrame | tasks/utils/vspipeline_utilities.py:324-380 | a script starts with project creation and source download and ends with task list, save and close; neither opening command appears later |
| Batch.MultiverseImportPresent | tasks/utils/vspipeline_utilities.py:348-352 | the multiverse import appears exactly when there are multiverse files |
| Batch.UpdateImportPresent | tasks/utils/vspipeline_utilities.py:355-373 | an update import appears exactly when its flag is up and there are files of its type |
| Batch.ImportsWellFormed | tasks/utils/vspipeline_utilities.py:348-373 | every import is followed by `task_wait`; it carries the files of its type and the category's table id or `Table1` |
| Batch.RenderOneLine | tasks/utils/vspipeline_utilities.py:327-380 | a command whose texts hold no newline is written on one line |
| Batch.BatchTextLines | tasks/utils/vspipeline_utilities.py:382 | splitting the batch text at newlines gives back exactly the script's lines when names, paths and ids hold no newline |
| CnvStates.CnvState | tasks/utils/vspipeline_utilities.py:590-599 | 2 is Normal, 0 Deletion, 1 Het Deletion, 3 or more Duplicate, a negative number `?`, each in both directions |

## Left out

- File and console I/O are not modelled: `open`, `json.load`, CSV/TSV reading, `print`, `sys.exit`, `main`/argparse and the output writers `_output_sample_groups` and `generate_vsbatch_file`. The model takes already-parsed rows, trees and manifests.
- `_parse_sample_data_json` is not part of this model; the batch generator takes the merged sample data directly.
- File locking, retry with backoff, `fsync`, the scratch-directory copies and `_safe_read_json_file`/`_safe_write_json_file` are not modelled. They concern concurrent processes, not sequential logic.
- `update_cnv_file` is modelled only for the integer-to-state table. Float parsing, Python's `round`, header detection and the file rewriting are left out, so `CnvStates.CnvState` takes the rounded integer.
- The warning messages of table selection, the dotted debugging path of the table walk and the log lines are left out.
- `Text.Lower` and `Text.IsDigits` cover only the ASCII letters and digits. Python's full Unicode case mapping and digit classes are not modelled.
- Template lookups are keyed by the JSON value. Python's `1 == True` key conflation is not modelled.
- Template numbers are integers only (`Json.Num(int)`). JSON floats, and Python's `1.0 == 1` as a dictionary key, are not modelled; no result of the template code depends on them.
- A `userId` that is not a string is treated as an exception. In the source it would only fail later, for example in `startswith`, and a single such candidate would be chosen as is.
- Python set and dict iteration order is left open. The search's scan over the other samples, the grouping loop over `all_samples` and the merge loop over an input's samples all pick elements in an unspecified order. `SampleGroups.GroupingIsUnique` shows the grouping does not depend on that order.
- Manifest inputs are typed: an input is either unreadable (`None`, skipped as the source's `except` does) or a map from sample to four lists. A malformed input that the source would merge partially before raising is not modelled. A list missing from an input reads as empty, as `get(file_type, [])` gives.
- For the manifest update, a document without a `samples` entry is the empty map of samples. Other top-level entries are kept in `others`.
- The flag loop over data trees is modelled as one list of algorithm names in document order, followed by the flag loop over it. Both loops raise under the same conditions.
- `TableSelection.PickTable` does not model the "first encountered" fallback at line 176. `TableSelection.FallbackUnreachable` proves it cannot run.
- `TableSelection.IsGeneric` follows the test at line 163, which is broader than the comment's `non-"TableN"` at line 162: a name is generic when it starts with `Table` and is a non-empty digit string once every `Table` is removed. So `TableTable1` is generic too.
- Cohort mode on an empty sample set stores no group, as the test at line 482 does, although the docstring at line 463 and the comment at line 481 speak of a single cohort group.
- `TableDataOptions.TableOptions` states pre-order only through `TableNodeFirst` and its definition (node first, then children in order). It does not give a separate order lemma.
- The batch lemmas are stated on `Batch.Script` for arbitrary file lists. `Batch.CollectFilesMembers` ties those lists to the group's samples.
