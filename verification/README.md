# A verified model of Realm's object store accessors

Realm writes nested values into tables. A dictionary becomes a row, a dictionary inside it becomes another row
that the first one links to, a list becomes a list of links or scalars, and a create policy says what happens to
rows whose primary key exists already. This project models that engine and the list, cursor, changeset, date and
observer algorithms around it, and proves what they do for every input.

* `Store.dfy` - schema, values, rows, cells, the write log, and what a well-formed store is.
* `Upsert.dfy` - creating, updating, assigning and reading, as functions from a state to a state and a result.
  A failing call keeps the writes it made before it failed.
* `RealmStore.dfy` - the same as methods of a class that updates its tables in place, each proved equal to its
  function.
* `UpsertSafety.dfy`, `UpsertReach.dfy`, `UpsertFrame.dfy`, `UpsertReadback.dfy`, `UpsertForced.dfy`,
  `UpsertPolicies.dfy`, `UpsertIdempotence.dfy`, `UpsertMinimality.dfy`, `UpsertReuse.dfy`, `UpsertSuccess.dfy`,
  `UpsertMigration.dfy`, `UpsertComplete.dfy`, `UpsertNew.dfy`, `UpsertPlain.dfy`, `UpsertReplay.dfy`,
  `UpsertLaws.dfy`, `UpsertRuns.dfy` - one property of the engine each, proved along its recursion.
* `ResultsBatch.dfy` - one value written to every row of a live query.
* `PropertySets.dfy` - what setting a property by name leaves, on one object and on all rows of a query.
* `ListOps.dfy` - in-place list algorithms with shifting indexes.
* `ChunkedRanges.dfy` - cursors over a two-level vector of ranges and over single indexes.
* `LongestMatches.dfy` - the search for matches between the rows of two contents of a collection.
* `Changesets.dfy` - the difference between two contents of a collection.
* `IndexSets.dfy` - index sets as ascending indexes, and how positions shift when others are put in or taken out.
* `IndexRanges.dfy` - index sets as ranges that are changed in place, each operation refining its set function.
* `ChangesetBuilders.dfy` - changesets that are merged, recorded step by step and finalised.
* `TransactLogs.dfy` - the changeset of one list while the instructions of a log are read.
* `Timestamps.dfy` - conversion between dates and timestamps.
* `Observers.dfy` - the doubly linked chain of observers of a row.

## Terms

A *name* is a type together with a primary key. A value is *distinct* if every object in it has a primary key and
no name occurs twice (`UpsertFrame.Distinct`). A store *holds* a value, seen from an earlier store, if a row has
the value's key, every supplied property reads back, nested objects included, and every other property is as it
was or, in a new row, is the default (`UpsertReadback.Holds`). A value *fits* a store if its types, keys, managed
objects and required properties are as the schema asks, given the rows that exist (`UpsertSuccess.Fits`); otherwise
its first *misfit* is the error of the call (`UpsertSuccess.Misfit`). The
*frame* of a call is the set of names whose rows may change (`UpsertFrame.Frame`).

Results about distinct values start from a store that is well formed and whose primary keys are unique
(`UpsertFrame.Ready`). They hold in and outside migrations, for every policy; only a forced create in a migration
is apart, and `UpsertMigration.dfy` says what it does.

A schema holds persisted and computed properties, as `ObjectSchema` does in two vectors (`object_schema.hpp`, line
55); the computed ones are the linking objects. Creates visit the persisted ones only (`object_accessor.hpp`, line
260), so a field with the name of a computed property is never looked at. It is refused as read-only only where it
is set by name.

A changeset *leads* from one content to another if it has the right sizes and the rows come where it says
(`ChangesetBuilders.Leads`); it *tracks* a list if that holds of the rows it does not call modified
(`ChangesetBuilders.Tracks`). Its moves go one to one from deleted to inserted positions
(`ChangesetBuilders.Proper`), as the debug verification asks; every operation keeps that.

The accessor context is the C++ one (`object_accessor_impl.hpp`), with three things left open: whether it passes
the key of the current object on when it unboxes a dictionary (the C++ one does, the Objective-C one does not),
whether a value may leave properties out, and which defaults there are.

## Model

| member | source | states |
|---|---|---|
| UpsertPolicies.ModifiedRefinesAll | notVK/Pods/Realm/include/object_accessor.hpp:188-288 | for a distinct value and a store with unique keys, in or outside migrations, UpdateModified and UpdateAll return the same result or error, and after a success leave the same rows, cells, links and list contents |
| UpsertPolicies.ForceCreateExactly | notVK/Pods/Realm/include/object_accessor.hpp:203-245 | outside migrations ForceCreate succeeds if and only if UpdateAll does and no name of the value exists in the store, and then the two stores are equal |
| UpsertPolicies.PoliciesAgree | notVK/Pods/Realm/include/object_accessor.hpp:72-140 | any two policies that the store permits, each in or outside a migration, give the same result, and the same store after a success |
| UpsertPolicies.CreateAgree | notVK/Pods/Realm/include/object_accessor.hpp:188-288 | at every nesting level two runs in stores that agree up to a set of list cells being rebuilt stay in agreement, whatever current object each is given |
| UpsertPolicies.SetPropertyAgree | notVK/Pods/Realm/include/object_accessor.hpp:72-140 | skipping an equal cell and writing it come to the same, for scalars, nulls, links and lists |
| UpsertPolicies.AssignListAgree | notVK/Pods/Realm/include/list.hpp:277-310 | overwriting in place and trimming, and clearing and adding, end with the same list and the same nested objects |
| UpsertSuccess.CreateFailsWithFirstMisfit | notVK/Pods/Realm/include/object_accessor.hpp:188-288 | a create of a distinct value under any policy, not forced in a migration, fails with exactly the first error the value has against the store it is given to, and succeeds if it has none: unusable, missing or, if forced, existing keys, missing required properties, wrong types, objects that do not exist |
| UpsertSuccess.UpdateSucceedsIffFits | notVK/Pods/Realm/include/object_accessor.hpp:188-288 | an update of a distinct value succeeds, in or outside a migration, if and only if the value fits the schema and the store it is given to: usable keys, matching types, existing managed objects, and all required properties of the rows that are new; nothing written on the way can change that |
| UpsertSuccess.ForceSucceedsIffFits | notVK/Pods/Realm/include/object_accessor.hpp:203-245 | a forced create outside migrations succeeds if and only if in addition no row has a name of the value |
| UpsertSuccess.SetPropertyFits | notVK/Pods/Realm/include/object_accessor.hpp:103-140 | within an update, setting a property succeeds if and only if the value fits its column |
| UpsertSuccess.AssignListFits | notVK/Pods/Realm/include/list.hpp:277-310 | assigning a list succeeds if and only if the value is null, the list itself, or a sequence of elements that fit; the in-place loop and the trailing removal never leave the bounds |
| UpsertMigration.UpdateIgnoresMigration | notVK/Pods/Realm/include/object_accessor.hpp:214-224 | an update does the very same in a migration and outside one, for any store, any value and any failure |
| UpsertMigration.MigrationForceSucceedsIffFits | notVK/Pods/Realm/include/object_accessor.hpp:217-245 | a forced create in a migration succeeds if and only if the value fits with all its objects new, for any well-formed store and any value, repeated names and keyless objects included |
| UpsertMigration.MigrationKeepsKeysIffNew | notVK/Pods/Realm/include/object_accessor.hpp:214-224 | a successful forced create of a distinct value in a migration keeps keys unique if and only if none of its names existed |
| UpsertMigration.NewNamesIgnoreMigration | notVK/Pods/Realm/include/object_accessor.hpp:225-245 | if none of its names exists, a forced create of a distinct value does the very same in a migration and outside one |
| UpsertMigration.MigrationMayDuplicate | notVK/Pods/Realm/include/object_accessor.hpp:217-224 | whatever the type, forcing a fitting value on an existing key in a migration succeeds and leaves two rows with that key |
| UpsertNew.CreateHoldsNew | notVK/Pods/Realm/include/object_accessor.hpp:188-288 | a successful forced create of any value reads back, with repeated names, keyless objects and in migrations: the row is new and holds its key, every supplied property and the defaults, and so does every row made below it |
| UpsertNew.SetHoldsNew | notVK/Pods/Realm/include/object_accessor.hpp:103-140 | the same for setting one property under ForceCreate |
| UpsertForced.ForcedKeepsRows | notVK/Pods/Realm/include/object_accessor.hpp:203-252 | a forced create, also in a migration and also one that fails, leaves every existing row as it is |
| UpsertForced.CreateNamed | notVK/Pods/Realm/include/object_accessor.hpp:203-288 | a successful forced create of any value has made a new row for every name in it |
| UpsertForced.ForcedFindsNone | notVK/Pods/Realm/include/object_accessor.hpp:203-245 | so if keys are unique afterwards, none of the names existed before |
| UpsertIdempotence.SecondRunIsQuietIffNaNFree | notVK/Pods/Realm/include/object_accessor.hpp:82-98 | after a successful create under any policy, an UpdateModified with the same value leaves the whole state, write log included, as it is if and only if no property the value sets, at any depth, is a NaN |
| UpsertIdempotence.QuietIffHeld | notVK/Pods/Realm/include/object_accessor.hpp:110-123 | UpdateModified succeeds without a single write if and only if some row holds the value already, nested objects and lists included, and the value sets no NaN |
| UpsertIdempotence.CreateLoud | notVK/Pods/Realm/include/object_accessor.hpp:96-98 | updating a held value that sets a NaN somewhere does write |
| UpsertMinimality.WritesAreNeeded | notVK/Pods/Realm/include/object_accessor.hpp:82-98 | in a successful UpdateModified every cell or slot assignment to a row that existed goes from its value before the whole call to its value after it, and the two differ; lists are appended to only if they end longer, removed from only beyond their new end, and cleared only from non-empty to empty |
| UpsertMinimality.AssignListMinimal | notVK/Pods/Realm/include/list.hpp:264-303 | the same for assigning one list |
| UpsertMinimality.AssignListCounts | notVK/Pods/Realm/include/list.hpp:278-303 | assigning n elements to sz items logs exactly max(0, n - sz) appends and max(0, sz - n) removals, so never both |
| UpsertLaws.UpsertReadsBack | notVK/Pods/Realm/include/object_accessor.hpp:188-288 | after a create of a distinct value only rows it names have changed or appeared; after a successful one its primary key finds a row that holds the value |
| UpsertLaws.PropertyReadsBack | notVK/Pods/Realm/include/object_accessor.hpp:142-176 | after a successful create the getter returns each supplied scalar, null or managed object, and for a supplied dictionary a row that holds that dictionary |
| UpsertLaws.HeldPropertyReadsBack | notVK/Pods/Realm/include/object_accessor.hpp:142-176 | and so on down: the getter on a row that holds a dictionary |
| UpsertLaws.ListReadsBack | notVK/Pods/Realm/include/list.hpp:277-310 | after a successful create a supplied list reads back with its length and element by element |
| UpsertLaws.OmittedPropertyIsKept | notVK/Pods/Realm/include/object_accessor.hpp:268-270 | a successful create keeps the cells its value leaves out, in a row that existed |
| UpsertLaws.NewObjectIsComplete | notVK/Pods/Realm/include/object_accessor.hpp:268-280 | in a row a create has made every required property holds the value it was given or its default, and neither is null |
| UpsertComplete.NewRowIsComplete | notVK/Pods/Realm/include/object_accessor.hpp:260-280 | for any value, policy and store, keyed or not, migrating or not: a create that succeeds in making a row was given every required property but the key, by the value or its default, and not as null, unless the value may leave properties out |
| UpsertComplete.EveryNewRowIsComplete | notVK/Pods/Realm/include/object_accessor.hpp:188-288 | and at every level: the rows that are new after it are exactly those of the objects it made on the way, one each, and each of these gave all its row requires |
| UpsertLaws.GetThenSetChangesNothing | notVK/Pods/Realm/include/object_accessor.hpp:103-176 | setting a property to what was just read succeeds and changes no row under any policy; under UpdateModified it writes nothing if and only if the value is no NaN |
| UpsertPlain.PlainListIsReplaced | notVK/Pods/Realm/include/list.hpp:277-310 | assigning a sequence of scalars or managed objects to a list succeeds if and only if the list takes every element; the list then equals them under both branches, and no other cell changes even on failure |
| UpsertPlain.PlainIsSet | notVK/Pods/Realm/include/object_accessor.hpp:103-140 | setting a cell to a null, a scalar, a managed object or a sequence of these, under any policy, succeeds if and only if the column takes it; then the cell holds it, and no other cell changes even on failure |
| UpsertLaws.LookupFindsTheRow | notVK/Pods/Realm/include/object_accessor.hpp:299-334 | a lookup succeeds if and only if the key is null and the column nullable, or a scalar of the key type, and fails with the error for its reason otherwise; it gives a row if and only if the key cell of that row is null or holds the scalar |
| UpsertLaws.KeyReadsBack | notVK/Pods/Realm/include/object_accessor.hpp:203-245 | after any successful create, of any value under any policy, the getter gives the key that was supplied, else the default, else null |
| UpsertLaws.LinkingObjectsLinkHere | notVK/Pods/Realm/include/object_accessor.hpp:167-173 | the getter of linking objects gives the rows of the origin type and nothing else, each once if its origin column links to this row, and once for every position of a list that does |
| UpsertLaws.OmittedReadsBackEmpty | notVK/Pods/Realm/include/object_accessor.hpp:268-280 | in a new row a property that is neither supplied nor has a default reads back null, zero where it may be left out although required, or as an empty list |
| UpsertLaws.ScalarIsAccepted | notVK/Pods/Realm/include/object_accessor.hpp:82-98 | a scalar is accepted if and only if its type is that of the column |
| UpsertLaws.OnlyNaNIsRewritten | notVK/Pods/Realm/include/object_accessor.hpp:92-98 | under UpdateModified a scalar written over itself writes nothing, unless it is a NaN, which is written again |
| UpsertLaws.UnfitListIsRefused | notVK/Pods/Realm/include/list.hpp:277-310 | a value that cannot be enumerated is a bad cast; the list has been cleared by then, but for UpdateModified |
| UpsertLaws.ShortenedListIsRefused | notVK/Pods/Realm/include/list.hpp:277-310 | a list that a nested object has shortened meanwhile ends the assignment out of bounds |
| UpsertLaws.NullDefaultOfLinkIsNotWritten | notVK/Pods/Realm/include/object_accessor.hpp:109-119 | a null default of a link writes nothing, unlike a supplied null |
| UpsertReuse.AssignReusesObjects | notVK/Pods/Realm/include/list.hpp:265-303 | where the accessor context passes current keys on, as the C++ one does: n flat dictionaries assigned to a list of sz distinct keyless objects under UpdateModified keep the key at each of the first min(n, sz) positions, make exactly max(0, n - sz) rows, and all read back |
| UpsertReuse.AssignCreatesObjects | notVK/Pods/Realm/Realm/RLMAccessor.mm:731-737 | where it drops them, as the Objective-C one does, or under another policy: exactly n rows are made, every slot is new, also where the list had objects, and all read back |
| UpsertReuse.MissingCurrentIsRefused | notVK/Pods/Realm/include/object_accessor.hpp:246-249 | a keyless update that is given a current object which is not there is refused and writes nothing |
| UpsertReuse.CreateFlat | notVK/Pods/Realm/include/object_accessor.hpp:246-253 | a keyless create fills the current object if it is given one under UpdateModified, and makes exactly one row otherwise; no other row changes |
| UpsertReplay.CreateLogged | notVK/Pods/Realm/include/object_accessor.hpp:188-288 | carrying out the writes logged by a create, again and from the same store, gives the very store it ended in: any value, any policy, failures included |
| UpsertReplay.BatchLogged | notVK/Pods/Realm/include/results.hpp:366-389 | the same for a batch set |
| UpsertRuns.RunLogged | notVK/Pods/Realm/include/object_accessor.hpp:188-288 | the same for every run of creates, single sets and batch sets |
| UpsertRuns.RunKeepsKeys | notVK/Pods/Realm/include/object_accessor.hpp:53-54 | any sequence of creates, single sets and batch sets, under any policies and nesting and with calls that fail part-way: links never dangle and rows never vanish; every row keeps its key and unique keys stay unique outside migrations, and in one if creates and sets update and set no key |
| UpsertSafety.CreateSafe | notVK/Pods/Realm/include/object_accessor.hpp:188-288 | create keeps the store well formed and, unless it is forced in a migration, its keys unique and unchanged, for every value (repeated names included), policy and failure |
| UpsertSafety.SetPropertySafe | notVK/Pods/Realm/include/object_accessor.hpp:103-140 | the same for setting one property |
| UpsertSafety.AssignListSafe | notVK/Pods/Realm/include/list.hpp:277-310 | the same for assigning a list |
| UpsertReach.OnlyReachedRowsChange | notVK/Pods/Realm/include/object_accessor.hpp:188-288 | for any value, policy and context, with repeated names and keyless objects: a create changes only rows the value names, the row it is to overwrite and, where keyless objects are handed on, keyless rows the value mentions and those reached from all these by links to keyless rows, also when it fails |
| UpsertReach.OnlyNamedRowsChange | notVK/Pods/Realm/include/object_accessor.hpp:188-288 | in particular, where no keyless object is handed on only rows that the value names change |
| UpsertLaws.OtherFieldsAreIgnored | notVK/Pods/Realm/include/object_accessor.hpp:260-267 | two dictionaries that agree at every persisted property are created alike, result, store and writes: a field named like a computed property makes no difference |
| UpsertLaws.FailedPoliciesDiffer | notVK/Pods/Realm/include/list.hpp:277-310 | where assigning a scalar list fails at the first element, UpdateAll has emptied the list and UpdateModified has left it |
| UpsertFrame.CreateFrame | notVK/Pods/Realm/include/object_accessor.hpp:188-288 | for a distinct value only rows it names change or appear, and every row keeps its name, also when the create fails |
| UpsertFrame.SetPropertyFrame | notVK/Pods/Realm/include/object_accessor.hpp:103-140 | only the given cell of the given row and rows named in the value change, also on failure |
| UpsertFrame.AssignListFrame | notVK/Pods/Realm/include/list.hpp:277-310 | only the list cell and rows named in the elements change, also on failure |
| UpsertReadback.CreateHolds | notVK/Pods/Realm/include/object_accessor.hpp:188-288 | after success the row holds the distinct value against the store the outermost call started from: nested creates do not disturb each other |
| UpsertReadback.SetPropertyHolds | notVK/Pods/Realm/include/object_accessor.hpp:103-140 | after success the cell holds the value |
| UpsertReadback.AssignListHolds | notVK/Pods/Realm/include/list.hpp:277-310 | after success the list has the length of the value and each slot holds its element |
| UpsertReadback.TrimItems | notVK/Pods/Realm/include/list.hpp:300-302 | the trailing removals end, never go out of bounds and leave exactly the assigned prefix |
| RealmStore.Realm.Create | notVK/Pods/Realm/include/object_accessor.hpp:188-288 | the create with its flags and property loop ends in the state and with the result or error of the specification the laws above are about, writes before a failure included |
| RealmStore.Realm.Populate | notVK/Pods/Realm/include/object_accessor.hpp:260-280 | the property loop, with its skipped, defaulted and missing properties, meets its specification |
| RealmStore.Realm.SetPropertyImpl | notVK/Pods/Realm/include/object_accessor.hpp:103-140 | the null, list and value branches meet their specification |
| RealmStore.Realm.Unbox | notVK/Pods/Realm/include/impl/object_accessor_impl.hpp:180-191 | a managed object, a dictionary or a scalar becomes the slot of the specification; the current key is passed on or dropped as the context does; nested creates update the same tables |
| RealmStore.Realm.SetPropertyValue | notVK/Pods/Realm/include/object_accessor.hpp:42-57 | setting by name refuses detached rows, unknown names and, outside migrations, primary keys, before any write |
| RealmStore.Realm.AssignList | notVK/Pods/Realm/include/list.hpp:277-310 | both loops and the removal loop meet the specification of list assignment; a value that cannot be enumerated, such as another list in the C++ context, is a bad cast |
| RealmStore.Realm.AssignElement | notVK/Pods/Realm/include/list.hpp:264-274 | set-if-different and add meet the specification of one element |
| RealmStore.Realm.SetResultsValue | notVK/Pods/Realm/include/results.hpp:366-389 | the loop over a snapshot meets the specification of a batch set |
| RealmStore.Realm.GetObjectForPrimaryKey | notVK/Pods/Realm/include/object_accessor.hpp:299-334 | the lookup gives the first row with the key, no row, or the error for a missing or unusable key |
| RealmStore.Realm.GetPropertyValue | notVK/Pods/Realm/include/object_accessor.hpp:142-176 | the getter gives null, a list, a scalar, a linked object or the linking objects as the column and its cell say |
| Store.FindFrom | notVK/Pods/Realm/include/object_accessor.hpp:318-334 | the row found has the key cell, and no earlier row has it |
| PropertySets.RefusedSetChangesNothing | notVK/Pods/Realm/include/object_accessor.hpp:42-57 | setting by name a property of a detached row, an unknown property or a key outside migrations is refused with its own error and changes nothing |
| PropertySets.PlainSetIsExact | notVK/Pods/Realm/include/object_accessor.hpp:42-57 | setting by name a null, a scalar, a managed object or a sequence of these, keys in migrations included: it succeeds if and only if the column takes it, then the cell of the first column of that name holds it, and no other cell changes |
| PropertySets.SetSucceedsIffFits | notVK/Pods/Realm/include/object_accessor.hpp:42-57 | setting by name any distinct value succeeds if and only if it fits the column and, if it is to be created, none of its names exists |
| PropertySets.SetFailsWithFirstMisfit | notVK/Pods/Realm/include/object_accessor.hpp:42-57 | otherwise it fails with exactly the first error of the value against the store |
| PropertySets.SetHolds | notVK/Pods/Realm/include/object_accessor.hpp:42-57 | after success the cell of that column holds the value, nested objects and lists included; only that cell and rows named in the value change, also on failure |
| PropertySets.BatchAsksOnce | notVK/Pods/Realm/include/results.hpp:380-384 | the rows of a batch are those the query gives on the store before the first write, in its order |
| PropertySets.BatchSetsPlain | notVK/Pods/Realm/include/results.hpp:366-389 | a batch set of a null, a scalar, a managed object or a sequence of these succeeds if and only if the column takes it or there is no row; then exactly the rows the query gave at the start hold it, and every other cell is as it was |
| PropertySets.BatchHoldsNew | notVK/Pods/Realm/include/results.hpp:376-388 | a batch set of any value, nested dictionaries included: each row that is written before the end or the first failure holds it with new objects of its own; rows it does not come to and all other cells are as they were |
| PropertySets.KeyedIsSetOnce | notVK/Pods/Realm/include/results.hpp:376-388 | outside migrations a batch set of a dictionary with a primary key fails at the second row, as the object exists by then |
| ResultsBatch.BatchSetsMatchedRows | notVK/Pods/Realm/include/results.hpp:366-389 | a batch set of a scalar leaves exactly the rows the query gave at the start, in whatever order it gives them, with the new value and every other cell as it was; it fails if and only if the column refuses the value and there is such a row |
| ResultsBatch.SetAllSafe | notVK/Pods/Realm/include/results.hpp:376-388 | a batch set of any value keeps the store well formed and outside migrations the keys unique, also when it fails part-way |
| Changesets.CalculateFrom | notVK/Pods/Realm/Realm/ObjectStore/src/impl/collection_change_builder.cpp:559-607 | for all contents, duplicates included, and any order of equal keys in the sorted lists: exactly what the pairing leaves over is deleted and inserted, together with exactly the survivors the search does not line up, and exactly the changed rows that are paired are modified. So deleting and inserting makes the new content of the old one, rows that kept their order are not moved, and without duplicates at least as many rows stay as their longest common run |
| Changesets.Calculate | notVK/Pods/Realm/Realm/ObjectStore/src/impl/collection_change_builder.cpp:609-630 | the very same report from unsorted contents |
| Changesets.Apply | notVK/Pods/Realm/Realm/ObjectStore/src/impl/collection_change_builder.cpp:532-557 | removing the deletions and inserting the insertions one by one yields the new content, as the debug verification demands |
| Changesets.Pair | notVK/Pods/Realm/Realm/ObjectStore/src/impl/collection_change_builder.cpp:563-590 | merging the two sorted lists pairs equal keys one to one; no key is both deleted and inserted |
| Changesets.PairingIsExact | notVK/Pods/Realm/Realm/ObjectStore/src/impl/collection_change_builder.cpp:563-590 | without duplicates exactly the rows that are gone are deleted and exactly the new ones inserted |
| Changesets.TableOrderExplains | notVK/Pods/Realm/Realm/ObjectStore/src/impl/collection_change_builder.cpp:604-605 | in table order the pairing alone explains the change, so the search for moves may be left out |
| Changesets.CalculateMovesSorted | notVK/Pods/Realm/Realm/ObjectStore/src/impl/collection_change_builder.cpp:482-530 | exactly the survivors behind the first difference that are in no match of the search are deleted and inserted |
| Changesets.LineUp | notVK/Pods/Realm/Realm/ObjectStore/src/impl/collection_change_builder.cpp:521-529 | the loop over the matches gives up exactly the survivors between them, and the contents then agree |
| Changesets.UnmatchedSize | notVK/Pods/Realm/Realm/ObjectStore/src/impl/collection_change_builder.cpp:521-529 | the number of survivors given up is the number behind the first difference less the total size of the matches |
| Changesets.LinedUpKeepsLongest | notVK/Pods/Realm/Realm/ObjectStore/src/impl/collection_change_builder.cpp:482-530 | at least as many survivors stay as any common block of the survivors is long |
| ChangesetBuilders.Builder.Merge | notVK/Pods/Realm/Realm/ObjectStore/src/impl/collection_change_builder.cpp:40-137 | merging ends with the joined deletions and insertions, the moves of both changesets taken through each other, and exactly the modifications carried along, cleaned of stale moves; an empty side leaves the other one |
| ChangesetBuilders.MergeComposes | notVK/Pods/Realm/Realm/ObjectStore/src/impl/collection_change_builder.cpp:40-137 | the rows come from where to where the first changeset and then the second one takes them, for all changesets |
| ChangesetBuilders.MergeLeads | notVK/Pods/Realm/Realm/ObjectStore/src/impl/collection_change_builder.cpp:40-137 | if the first changeset leads from A to B and the second from B to C, the merge leads from A to C, moves included, and all its moves are moves |
| ChangesetBuilders.MergeModifies | notVK/Pods/Realm/Realm/ObjectStore/src/impl/collection_change_builder.cpp:128-132 | a row that the merge does not report as inserted is modified if and only if either changeset modified it |
| ChangesetBuilders.ModificationLost | notVK/Pods/Realm/Realm/ObjectStore/src/impl/collection_change_builder.cpp:90-107 | before the inserted rows are taken out, a modification is lost if and only if its row was inserted by the first changeset without a move and moved by the second, which did not modify it |
| ChangesetBuilders.MergeAssociates | notVK/Pods/Realm/Realm/ObjectStore/src/impl/collection_change_builder.cpp:40-137 | three changesets merged in either order take every row to the same place |
| ChangesetBuilders.MergeTracks | notVK/Pods/Realm/Realm/ObjectStore/src/impl/collection_change_builder.cpp:40-137 | merging recorded changesets, in which modified rows may have been replaced: rows that stay and are not reported as modified are the same |
| ChangesetBuilders.LeadsIffExplains | notVK/Pods/Realm/Realm/ObjectStore/src/impl/collection_change_builder.cpp:532-557 | a changeset leads from one content to another if and only if deleting and inserting makes the one of the other and every move has the same row at both ends |
| ChangesetBuilders.Builder.CleanUpStaleMoves | notVK/Pods/Realm/Realm/ObjectStore/src/impl/collection_change_builder.cpp:146-158 | only moves go whose rows stand where they would stand without them; every row still comes where it came, and no move left is stale |
| ChangesetBuilders.UnmovedStale | notVK/Pods/Realm/Realm/ObjectStore/src/impl/collection_change_builder.cpp:151-157 | taking back one stale move makes no other move stale, so one pass is enough |
| ChangesetBuilders.Builder.Insert | notVK/Pods/Realm/Realm/ObjectStore/src/impl/collection_change_builder.cpp:178-192 | recording an insertion composes the changeset with it, modifications and moves included |
| ChangesetBuilders.Builder.Erase | notVK/Pods/Realm/Realm/ObjectStore/src/impl/collection_change_builder.cpp:194-210 | the same for an erase: a row that was inserted leaves no deletion |
| ChangesetBuilders.Builder.MoveRow | notVK/Pods/Realm/Realm/ObjectStore/src/impl/collection_change_builder.cpp:226-271 | the same for a move: a row that moved before has one move from its first to its last place |
| ChangesetBuilders.Builder.Clear | notVK/Pods/Realm/Realm/ObjectStore/src/impl/collection_change_builder.cpp:212-224 | all rows of the old content are deleted, whatever was recorded before |
| ChangesetBuilders.RecordTracks | notVK/Pods/Realm/Realm/ObjectStore/src/impl/collection_change_builder.cpp:160-271 | a changeset composed with a single change still leads from the first content to the one after the change |
| ChangesetBuilders.Builder.Finalize | notVK/Pods/Realm/Realm/ObjectStore/src/impl/collection_change_builder.cpp:653-673 | the modified rows before and afterwards are the same rows, as many on both sides, and none of them is inserted |
| TransactLogs.Parse | notVK/Pods/Realm/Realm/ObjectStore/src/impl/transact_log_handler.cpp:279-360 | for every log of selections, sets, inserts, erases, moves, swaps and clears on any lists, the changes kept for one list say exactly what has happened to it: a row comes from b to n if and only if the row now at n was at b at the start, and a row is modified if and only if it has been set. So they lead from the content at the start to the one at the end, and no move left is stale |
| TransactLogs.Observer.Observe | notVK/Pods/Realm/Realm/ObjectStore/src/impl/transact_log_handler.cpp:308-360 | one instruction keeps that; instructions for other lists change nothing |
| TransactLogs.ExactEnds | notVK/Pods/Realm/Realm/ObjectStore/src/impl/transact_log_handler.cpp:279-360 | then the deletions are exactly the rows that are gone or reported as moved, and the insertions those that are new or moved |
| TransactLogs.RecordExactly | notVK/Pods/Realm/Realm/ObjectStore/src/impl/collection_change_builder.cpp:160-271 | a changeset that says exactly what has happened still does so after one more change |
| TransactLogs.SwapMoves | notVK/Pods/Realm/Realm/ObjectStore/src/impl/transact_log_handler.cpp:336-346 | the two recorded moves of a swap, or the single one of neighbours, are the swap |
| IndexSets.ShiftUndoesUnshift | notVK/Pods/Realm/Realm/ObjectStore/src/index_set.cpp:656-671 | shifting undoes unshifting outside the set |
| IndexSets.ErasedUndoesShifted | notVK/Pods/Realm/Realm/ObjectStore/src/index_set.cpp:508-571 | erasing positions from a set undoes shifting it for them |
| IndexSets.UnshiftCommutes | notVK/Pods/Realm/Realm/ObjectStore/src/index_set.cpp:375-420 | taking out two sets of positions one after the other, each as shifted by the other, goes the same way in either order |
| IndexSets.EraseAt | notVK/Pods/Realm/Realm/ObjectStore/src/index_set.cpp:542-571 | the loop over both sets leaves exactly what is left when the positions are taken out |
| IndexSets.InsertAt | notVK/Pods/Realm/Realm/ObjectStore/src/index_set.cpp:456-485 | the merge of both sets is the positions together with the shifted indexes |
| IndexSets.ShiftForInsertAt | notVK/Pods/Realm/Realm/ObjectStore/src/index_set.cpp:508-533 | the loop gives exactly the shifted indexes |
| IndexSets.AddShiftedBy | notVK/Pods/Realm/Realm/ObjectStore/src/index_set.cpp:375-420 | the three-way loop adds exactly the values that are not skipped, unshifted by the one set and shifted by the other |
| IndexRanges.RangeSet.DoAdd | notVK/Pods/Realm/Realm/ObjectStore/src/index_set.cpp:678-707 | adding an index to ranges, growing or joining them, adds exactly that index and keeps the ranges sorted with gaps between them |
| IndexRanges.RangeSet.InsertAt | notVK/Pods/Realm/Realm/ObjectStore/src/index_set.cpp:430-454 | widening or moving ranges in place refines insertion on sets |
| IndexRanges.RangeSet.ShiftForInsertAt | notVK/Pods/Realm/Realm/ObjectStore/src/index_set.cpp:487-506 | moving the ranges, and splitting the one around the position, refines the shift on sets |
| IndexRanges.RangeSet.DoErase | notVK/Pods/Realm/Realm/ObjectStore/src/index_set.cpp:597-615 | shrinking, removing or joining ranges and moving those behind refines erasing one position |
| IndexRanges.RangeSet.Remove | notVK/Pods/Realm/Realm/ObjectStore/src/index_set.cpp:617-644 | the loop that trims, splits and removes ranges takes out exactly the given positions and ends |
| IndexRanges.RangeSet.EraseOrUnshift | notVK/Pods/Realm/Realm/ObjectStore/src/index_set.cpp:573-595 | the result is nothing for a member and otherwise the unshifted index, and the position is erased |
| IndexRanges.RangeSet.AddShifted | notVK/Pods/Realm/Realm/ObjectStore/src/index_set.cpp:359-373 | the index is shifted past all ranges up to it and added |
| IndexRanges.RangeSet.PushBack | notVK/Pods/Realm/Realm/ObjectStore/src/index_set.cpp:219-252 | pushing an index behind all others adds it, to the last range if it meets it |
| LongestMatches.FindLongestMatch | notVK/Pods/Realm/Realm/ObjectStore/src/impl/collection_change_builder.cpp:392-462 | the block found lies in the window, matches key by key, and no common block is longer; among single rows none is counted as modified less often |
| LongestMatches.BlockIsInRun | notVK/Pods/Realm/Realm/ObjectStore/src/impl/collection_change_builder.cpp:400-446 | the table of block lengths misses no common block |
| LongestMatches.FindLongestMatches | notVK/Pods/Realm/Realm/ObjectStore/src/impl/collection_change_builder.cpp:464-479 | the search makes exactly these choices: the longest block of every window, then the parts left and right of it under their two conditions |
| LongestMatches.SearchHasLongest | notVK/Pods/Realm/Realm/ObjectStore/src/impl/collection_change_builder.cpp:464-479 | one of the matches is as long as any common block |
| LongestMatches.GapsBarrenIffSkippedAre | notVK/Pods/Realm/Realm/ObjectStore/src/impl/collection_change_builder.cpp:464-479 | no gap between the matches holds a common key if and only if no part that was skipped does |
| LongestMatches.SkippedIsBarrenUnlessBehind | notVK/Pods/Realm/Realm/ObjectStore/src/impl/collection_change_builder.cpp:477 | a skipped part holds no common key unless it begins, in the old list, at or behind its end in the new one |
| LongestMatches.MatchIsMissed | notVK/Pods/Realm/Realm/ObjectStore/src/impl/collection_change_builder.cpp:477 | there it can: in a change of nine rows a row between two matches, before and after, is skipped and moved, whatever decides between equally long blocks |
| ListOps.RealmList.MoveFromOffsets | notVK/Pods/RealmSwift/RealmSwift/List.swift:684-697 | unselected elements before the destination, the selected ones in order, unselected elements from the destination on; refused offsets or destinations change nothing |
| ListOps.RealmList.RemoveOriginals | notVK/Pods/RealmSwift/RealmSwift/List.swift:690-696 | removing from the largest offset down, shifted behind the copies, removes exactly the originals |
| ListOps.MovedConserves | notVK/Pods/RealmSwift/RealmSwift/List.swift:684-697 | a move keeps the multiset of elements and the order of the unselected ones |
| ListOps.MovedStep | notVK/Pods/RealmSwift/RealmSwift/List.swift:690-696 | with all larger originals gone, the shifted index is where the original stands |
| ListOps.AtIsChosen | notVK/Pods/RealmSwift/RealmSwift/List.swift:685-688 | reading at ascending offsets yields the chosen elements in list order |
| ListOps.KeptAndChosen | notVK/Pods/RealmSwift/RealmSwift/List.swift:684-697 | kept and chosen elements together are all elements, each once |
| ListOps.RealmList.RemoveAtOffsets | notVK/Pods/RealmSwift/RealmSwift/List.swift:677-681 | exactly the elements at the offsets go, although positions shift while they are removed |
| ListOps.RealmList.ReplaceSubrange | notVK/Pods/RealmSwift/RealmSwift/List.swift:496-505 | removal at the lower bound and reversed insertion there give prefix, new elements, suffix; a range beyond the end is refused after the list was cut |
| ListOps.RealmList.ReplaceInTwoSteps | notVK/Pods/RealmSwift/RealmSwift/List.swift:594-612 | removing the range and inserting forwards at a moving index meets the very same contract, failures included |
| ListOps.RealmList.RemoveSubrange | notVK/Pods/RealmSwift/RealmSwift/List.swift:607-612 | removing repeatedly at the lower bound removes the range |
| ListOps.RealmList.InsertContentsOf | notVK/Pods/RealmSwift/RealmSwift/List.swift:594-600 | the elements end up in order at the index |
| ListOps.RealmList.RemoveFirst | notVK/Pods/RealmSwift/RealmSwift/List.swift:559-569 | drops exactly the first elements or refuses |
| ListOps.RealmList.RemoveLast | notVK/Pods/RealmSwift/RealmSwift/List.swift:577-587 | drops exactly the last elements or refuses |
| ChunkedRanges.Walk | notVK/Pods/Realm/include/index_set.hpp:277-284 | stepping from begin to end visits the concatenation of all chunks in order, one range a step |
| ChunkedRanges.WalkBack | notVK/Pods/Realm/include/index_set.hpp:294-305 | stepping back from end to begin visits it in reverse, across chunk borders |
| ChunkedRanges.Cursor.Next | notVK/Pods/Realm/include/index_set.hpp:277-284 | one step on is one range on in the concatenation |
| ChunkedRanges.Cursor.Prev | notVK/Pods/Realm/include/index_set.hpp:294-305 | one step back is one range back, from the end and across borders too, so it undoes a step on |
| ChunkedRanges.Cursor.Equals | notVK/Pods/Realm/include/index_set.hpp:263-275 | cursors are equal if and only if they are at the same range of the concatenation |
| ChunkedRanges.Cursor.NextChunk | notVK/Pods/Realm/include/index_set.hpp:315-320 | the cursor goes to the first range of the next chunk, or to the end |
| ChunkedRanges.IndexCursor.Next | notVK/Pods/Realm/include/index_set.hpp:192-219 | one step is one index on, within a range, across ranges and into the end |
| ChunkedRanges.WalkIndexes | notVK/Pods/Realm/include/index_set.hpp:192-235 | the flattening cursor yields the indexes of all ranges in order and stops at the end |
| ChunkedRanges.IndexesAreMembers | notVK/Pods/Realm/include/index_set.hpp:192-235 | on sorted disjoint ranges those are exactly the members, strictly increasing, as many as the ranges are long in all |
| Timestamps.TimestampForDate | notVK/Pods/Realm/include/RLMUtil.hpp:146-169 | the step-by-step conversion is the truncation to nanoseconds moved to the other epoch, with both clamps; no intermediate value overflows and the signs of the two parts agree |
| Timestamps.ConversionIsMonotone | notVK/Pods/Realm/include/RLMUtil.hpp:146-169 | later dates have later timestamps over all dates that are numbers, infinities and clamped ones included |
| Timestamps.TimestampRoundTrip | notVK/Pods/Realm/include/RLMUtil.hpp:139-169 | a normalised timestamp comes back from its date if and only if no clamp catches the date or it is that clamp's value |
| Timestamps.DateRoundTrip | notVK/Pods/Realm/include/RLMUtil.hpp:139-169 | an unclamped date comes back within one nanosecond, towards the reference date |
| Timestamps.ClampsAreEarly | notVK/Pods/Realm/include/RLMUtil.hpp:146-157 | dates in the last second above and in the first two shifts below are clamped although they could be represented; anything that is no number is the start of 1970 |
| Timestamps.EpochShiftIsDays | notVK/Pods/Realm/include/RLMUtil.hpp:136-144 | the shift is the days from 1970 to 2001 by the leap-year rule, in seconds |
| Timestamps.SecondsAreWide | notVK/Pods/Realm/include/RLMUtil.hpp:154-157 | the clamps are at the ends of 64-bit seconds |
| Observers.ForEach | notVK/Pods/Realm/include/RLMObservation.hpp:115-130 | from any member of a chain the walk calls the predecessors backwards, then itself and its successors, and ends |
| Observers.EveryObjectOnce | notVK/Pods/Realm/include/RLMObservation.hpp:115-130 | so every object of the chain is called exactly once |
| Observers.Join | notVK/Pods/Realm/Realm/RLMObservation.mm:140-155 | linking behind the head keeps a well-formed chain with all members |
| Observers.Leave | notVK/Pods/Realm/Realm/RLMObservation.mm:66-93 | unlinking any member keeps a well-formed chain of all others |

Four things in the sources may surprise a reader; the model follows them.

* The right part of the search for matches is entered under a condition that compares a position in the old list
  with the end of the window in the new one (`collection_change_builder.cpp`, line 477). A difference can become
  longer by it, never wrong: `LongestMatches.GapsBarrenIffSkippedAre` says when, `LongestMatches.MatchIsMissed`
  gives an input.
* Removing or replacing a range that ends beyond the list removes what there is before it is refused
  (`ListOps.RealmList.RemoveSubrange`, `ListOps.RealmList.ReplaceSubrange`).
* A merge drops the modification of a row that the first changeset inserted and the second one moved
  (`collection_change_builder.cpp`, lines 90-107). `ChangesetBuilders.ModificationLost` says exactly when;
  `ChangesetBuilders.MergeModifies` shows that such a row is reported as inserted in any case.
* A date is clamped below although its timestamp could be represented if it is within two shifts of the lowest one
  (`RLMUtil.hpp`, line 156): the check subtracts the shift that is added later. `Timestamps.ClampsAreEarly` says
  exactly which dates are clamped.

## Left out

- Repeated names: an update of a value that names the same row twice, or of a keyless list that holds an object twice, is covered by the results on safety, reach, completeness and the log only; the engine aliases such objects. Forced creates are covered whatever the value.
- Keyless objects below a value: for updates, readback, policies, errors and minimality are stated for values whose objects all have keys; for flat keyless objects in a list see UpsertReuse, and for forced creates UpsertNew.
- Objects and lists a value refers to are taken to carry keys that were given out before the call (`UpsertSuccess.Known`), as accessors of managed objects do.
- Another managed list as the value of a list property is a bad cast, as in the C++ accessor context, which enumerates vectors only (`object_accessor_impl.hpp`, lines 79-83); the Objective-C one enumerates it.
- Policy agreement after a failure: the results are proved equal, the stores are not; `UpsertLaws.FailedPoliciesDiffer` shows stores that differ.
- The policy Skip, which only finds objects and never writes.
- Lists of optional scalars, null on nullable list columns, and object defaults; defaults may be scalars, nulls, managed objects and lists of these.
- Primary keys of types other than integer and string: the schema excludes them where the source terminates.
- Objective-C values: arrays by position are dictionaries that may leave properties out, and unmanaged objects are dictionaries.
- Object keys: one counter gives out all of them, where the core gives out one sequence a table.
- The flag that marks a write as a default, which only sync instructions carry; sync roles; change hooks; write-transaction checks.
- RealmStore.Realm.GetPropertyValue: linking objects are a fixed vector in table order, where the source gives a live view in an order of its own.
- Deletion of rows, threads, notifications and transactions.
- Doubles: exact reals stand for them in dates, and a NaN is a value of its own in cells; rounding is not modelled.
- Equality of two index cursors inside one range, which ignores the offset.
- The change builder's per-column modifications, which go through the same lines as the modifications, and insertions that are not tracked.
- How chunks split and fill up when ranges are put in, and counting by whole chunks: ranges are one sequence in IndexRanges, and loops over the ranges of whole sets take single indexes in IndexSets, which add up to the same.
- The first calculation of changes takes its index sets as sets of positions. How modified rows are counted between equally long blocks is a parameter, and results hold for any.
- A log that erases the object a list belongs to, which ends the tracking of that list; schema instructions.
- The lookup of equal keys by binary search in a sorted copy: the search for matches scans the window, which finds the same positions in the same order.
- Sorting: row infos are taken in any order that is sorted by key; positions, being distinct, have one order.
- Results that hold rows which are deleted already: a query gives rows of the store.
- Foreign collections: new elements of a splice are values, not a view of the list they are put into.
