# Zed, modelled in Dafny

A verification project for the Zed data system. It models five parts of the system and
proves the laws they rest on, for all inputs, all runs and all reachable states:

- **The commit log of a lake.** Commits are lists of actions, snapshots are replays of a
  parent chain, patches are differences over a base, and merges and reverts are built from
  patches. Any number of writers publish with an optimistic loop.
- **The VNG columnar format.** A tree of encoders splits nested values into columns of null
  runs, lengths, tags, dictionaries and constants; one pass assigns segments, another writes
  the bytes, and builders put the values together again.
- **Binary values and types.** Tagged values and their in-place builder, counted integers,
  type values with name definitions and references, the hash-consing type context, the order
  of types, and the record builder.
- **Dynamic vectors.** Tag maps, views, and evaluation over heterogeneous vectors by ripping
  and stitching.
- **Optimizer passes.** Range pruning, and splitting a sorted scan into parallel paths that
  are merged.

`dafny verify dfyconfig.toml` checks everything.

## How it is laid out

| part | files |
|---|---|
| shared | `Wrappers` |
| commit log | `Actions`, `Snapshot`, `Patch`, `PatchObject`, `Merge`, `CommitStore`, `BranchOperations`, `BranchProtocol` |
| values | `Uvarint`, `Counted`, `Zcode`, `ZcodeBuilder`, `RecordBuilder`, `RecordNesting`, `RecordFields` |
| types | `Types`, `TypeOrder`, `TypeTwins`, `UnionTypes`, `TypeValue`, `TypeValueRoundTrip`, `TypeContext` |
| VNG | `VngColumns`, `VngNulls`, `VngPrimitive`, `VngDictionary`, `VngEncoder`, `VngReader`, `VngReading`, `VngTags`, `VngLayout`, `VngTiling`, `VngShape`, `VngContextTypes`, `VngStream` |
| vectors | `TagMap`, `Vectors`, `Stitch`, `Apply` |
| optimizer | `RangePruner`, `SortKeys`, `OperatorOrder`, `Parallelize` |

Objects whose methods update their fields are classes (`Snapshot`, `Patch`, `Store`, `Builder`,
`Iter`, `Context`, `DynamicEncoder`, `ZedReader`, `NullsEncoder`, `NullsBuilder`, `RecordBuilder`);
each method is proved against a function of the old state, and the laws are lemmas about those
functions. A map that the program iterates over in an unknown order appears as an `order`
argument, so the theorems hold for every order.

## What turned out not to hold

Each of these is proved with an input that shows it, next to the condition under which the law holds.

- The commit loop puts whatever object an operation builds. A tip replays exactly when every commit on its
  path was clean, that is, replayed on its parent when it was built (`BranchProtocol.ReplaysIffClean`); one that
  was not leaves every later tip of the branch without a replay (`BranchProtocol.UncleanTipSpoilsBranch`). The
  next two items say which operations build such commits.
- A merge does not notice that both sides deleted the same base object
  (`Merges.MergeMissesDeleteConflict`); it replays exactly when they deleted disjoint ones
  (`Merges.MergeReplays`). `Diff` has a branch for this conflict that cannot be reached with a shared base.
- A load is clean exactly when its objects are distinct and new (`BranchOperations.LoadIsClean`), and what
  `Delete`, `AddVectors`, `DeleteVectors` and `CommitCompact` build is clean exactly when the ids they are given are
  distinct (`BranchOperations.BuildDelete` and its neighbours). None of this is checked.
- With the literal on the left of `<=` or `>=`, range pruning is sound exactly when the literal is
  not the bound it is compared with (`RangePruning.LiteralLeSoundIff`, `RangePruning.LiteralGeSoundIff`).
- The sort-key analysis reports the target of a renaming of the key without regard to what the rows hold. It is
  right for a row exactly under `OperatorOrder.RenamesKeep` (`OperatorOrder.RenamedKeyIff`): not where the row already
  has the target (`Parallelizing.RenameOntoFieldLosesOrder`, `Parallelizing.RenameWithoutKeyLosesOrder`).
- Nor does the analysis see that a `put` to a computed path hits the key (`Parallelizing.ComputedPutLosesOrder`) or
  that one inside of the key changes it (`Parallelizing.NestedPutLosesOrder`). A `put` keeps the key of a record,
  whatever it assigns, exactly when no target is the key, holds it or is inside of it
  (`OperatorOrder.PutKeepsKeyIff`).
- A `drop` inside of the key changes it too (`Parallelizing.NestedDropLosesOrder`). A `drop` keeps the key of a row,
  or takes it from every row, exactly when it takes nothing out of the key (`OperatorOrder.DropKeepsKeyIff`); the
  analysis of a `cut` is right exactly when no target is inside of the reported field or around it
  (`OperatorOrder.CutKeepsKeyIff`).
- Distinct types compare equal where a name wraps a name (`TypeOrder.DoubleNamesTie`), and for types with no such
  name below the outer names exactly when both are named alike over different types with the same type under them
  (`TypeOrder.TieExactly`). Further down such names make the comparison intransitive (`TypeOrder.DeepDoubleNames`).
  Among types with no such name below the outer ones, the names on a type obey the laws exactly when it has no such
  name itself (`TypeTwins.LawfulExactly`); against all types, exactly when it has no name in it at all
  (`TypeTwins.NamelessExactly`).
- A VNG dictionary is sorted twice from an unordered map. Every column is read back under every pair of sorts
  exactly when the comparator never ties two of its bodies (`VngDictionary.ReadBackIffSeparated`).
- A VNG union that has a member type twice gives back its values with the last of the tags. A value comes back as it
  was written exactly when all its tags are the shortest ones of the last such members (`VngTags.CanonKeeps`), and all
  values of a type do exactly when every union in it has distinct members (`VngTags.AllValuesComeBack`).
- A type context files a type under whatever bytes it was decoded from, and then gives these out as its type value:
  what follows a type value comes back with it (`TypeContexts.TrailingBytesStay`). What is given out is the type value
  exactly when the type was not last filed under bytes that no type encodes to
  (`TypeContexts.Context.LookupTypeValue`).
- `Apply` views all objects but the one it rips, and a view hides a named union. It computes what every slotwise
  evaluator computes exactly on the inputs where no object that is viewed has a value in one (`Applying.ApplyExactly`).
  The smallest input that has one is `Applying.NamedUnionHidden`; two equal vectors are computed right if they are one
  object, and wrong if they are two (`Applying.EqualObjectsHidden`).
- The comment on the VNG nulls encoder says that runs begin with nulls; the code begins with values,
  and so does the model.

## Model

| member | source | states |
|---|---|---|
| Snapshots.Snapshot.AddDataObject | lake/commits/snapshot.go:51-58 | adds the object, or reports the id that is already there and changes nothing |
| Snapshots.Snapshot.DeleteObject | lake/commits/snapshot.go:60-66 | removes the object, or reports that it is missing and changes nothing |
| Snapshots.Snapshot.AddVector | lake/commits/snapshot.go:68-74 | adds the vector, or reports it and changes nothing |
| Snapshots.Snapshot.DeleteVector | lake/commits/snapshot.go:76-82 | removes the vector, or reports it and changes nothing |
| Snapshots.Snapshot.PlayAll | lake/commits/snapshot.go:187-212 | plays actions in order and stops at the first that fails, as the replay function does |
| Snapshots.Snapshot.Copy | lake/commits/snapshot.go:125-138 | a new snapshot with the same contents |
| Snapshots.Snapshot.Serialize | lake/commits/snapshot.go:140-157 | actions that lead from the empty snapshot to this one |
| Snapshots.DecodeSnapshot | lake/commits/snapshot.go:159-179 | playing a serialized snapshot gives its contents back |
| Actions.PlayDeletes | lake/commits/snapshot.go:187-212 | a list of deletes replays exactly when the ids are distinct and present, and what it leaves |
| Actions.PlayAdds | lake/commits/snapshot.go:187-212 | a list of adds replays exactly when the ids are distinct and absent, and what it leaves |
| Patches.SquashExact | lake/commits/patch.go:66-104 | actions that replay on a base play into a patch exactly when none re-adds an id deleted from the base, and the patch then tracks the replayed state |
| Patches.AcceptedReplays | lake/commits/patch.go:66-104 | actions that a patch accepts without deleting anything twice replay on its base |
| Patches.PlayCommit | lake/commits/patch.go:106-121 | the commit object of a patch replays on a state exactly when the patch fits it, in every map order |
| Patches.CommitReplaysOnBase | lake/commits/patch.go:106-121 | on its own base the commit object replays exactly when no object was deleted twice |
| Patches.SquashRoundTrip | lake/commits/patch.go:66-121 | squashing actions into a patch and replaying its commit object on the base gives the state of the actions |
| PatchObjects.Patch.AddDataObject | lake/commits/patch.go:66-71 | refuses an id that the base or the patch has, deleted ones included |
| PatchObjects.Patch.DeleteObject | lake/commits/patch.go:73-84 | deletes from the patch, or records the deletion of a base object |
| PatchObjects.Patch.AddVector | lake/commits/patch.go:86-91 | refuses a vector that is already there |
| PatchObjects.Patch.DeleteVector | lake/commits/patch.go:93-104 | deletes from the patch, or records the deletion of a base vector |
| PatchObjects.Patch.NewCommitObject | lake/commits/patch.go:106-121 | the actions of the patch in the order given |
| PatchObjects.Patch.Revert | lake/commits/patch.go:123-149 | deletes what is still present and re-adds what is absent, or reports an empty revert |
| PatchObjects.Diff | lake/commits/patch.go:151-188 | the difference of two patches, as the function that the merge lemmas are about |
| Merges.RevertReplays | lake/commits/patch.go:123-149 | a revert is refused exactly when there is nothing to undo, and otherwise replays on any tip and undoes the net changes |
| Merges.RevertRefused | lake/commits/patch.go:123-149 | refused exactly when there is nothing to undo, double deletions included |
| Merges.RevertTipRestores | lake/commits/patch.go:123-149 | reverting the commit at the tip restores the objects of its parent |
| Merges.DiffOfSharedBase | lake/commits/patch.go:151-188 | with a shared base the difference is the child's new adds and its deletes, and never a delete conflict |
| Merges.MergeReplays | lake/commits/patch.go:151-188 | the merged commit replays on the parent exactly when the two sides deleted disjoint base objects |
| Merges.MergeMissesDeleteConflict | lake/commits/patch.go:174-183 | two sides that deleted the same object: the difference succeeds and its commit does not replay |
| Merges.MergeIsThreeWay | lake/commits/patch.go:151-188 | the merged state is the parent's plus the child's net adds minus its net deletes |
| Merges.MergeIsEmpty | lake/commits/patch.go:151-188 | when the merge has nothing to do |
| CommitStore.Repo.ReplayFromBase | lake/commits/store.go:101-161 | the actions between a base commit and a later one lead from the one state to the other |
| CommitStore.Repo.PathRangeIsCutPath | lake/commits/store.go:201-224 | a path range is the whole path cut after its end |
| CommitStore.Repo.PatchOfTracks | lake/commits/store.go:286-316 | the patch of a commit tracks its state over that of its parent |
| CommitStore.Repo.PatchBetweenTracks | lake/commits/store.go:318-344 | the patch of a path tracks the state of its end over its base |
| CommitStore.Store.Snapshot | lake/commits/store.go:101-161 | the replay of the whole path from the root, whatever is cached or stored; the caches stay right and no cached snapshot changes |
| CommitStore.Store.Climb | lake/commits/store.go:113-147 | the nearest snapshot on the way up and the commits above it replay to the leaf |
| CommitStore.Store.Path | lake/commits/store.go:186-199 | the path of a commit to the root, leaf first |
| CommitStore.Store.PathRange | lake/commits/store.go:201-224 | the path down to a commit, from the cache or by walking |
| CommitStore.Store.PatchOfCommit | lake/commits/store.go:286-316 | the patch of a commit over its parent's snapshot |
| CommitStore.Store.PatchOfPath | lake/commits/store.go:318-344 | the patch of the commits between a base and a tip, played from the oldest |
| CommitStore.CommonAncestor | lake/branch.go:341-354 | the first commit of one path that is on the other, which is the nearest |
| CommitStore.Store.BuildMergeObject | lake/branch.go:295-339 | built exactly when there is a nearest common ancestor, nothing is added again that was deleted and there is something to merge; clean exactly when the two sides deleted disjoint objects since that ancestor, and its replay then is the three-way merge |
| CommitStore.Store.Put | lake/commits/store.go:88-95 | a new commit object changes no path and no state that there was, and leaves the caches right |
| CommitStore.Store.Remove | lake/commits/store.go:97-99 | nor does removing one that nothing is built on and nothing is cached of |
| BranchOperations.NewAddsObject | lake/commits/object.go:42-48 | one add for every object, in order |
| BranchOperations.NewDeletesObject | lake/commits/object.go:50-56 | one delete for every id, in order |
| BranchOperations.NewAddVectorsObject | lake/commits/object.go:58-64 | one vector add for every id, in order |
| BranchOperations.NewDeleteVectorsObject | lake/commits/object.go:66-72 | one vector delete for every id, in order |
| BranchOperations.LoadReplays | lake/branch.go:49-79 | a load replays on the tip exactly when its objects are new and distinct |
| BranchOperations.LoadIsClean | lake/branch.go:49-79 | so the commit of a load is clean exactly then |
| BranchOperations.BuildDelete | lake/branch.go:107-129 | refused for a missing object; what it builds is clean exactly when the ids are distinct, and what it leaves |
| BranchOperations.BuildAddVectors | lake/branch.go:433-459 | refused for a missing object or an existing vector; what it builds is clean exactly when the ids are distinct |
| BranchOperations.BuildDeleteVectors | lake/branch.go:461-480 | refused for a missing vector; what it builds is clean exactly when the ids are distinct |
| BranchOperations.BuildRevert | lake/branch.go:217-236 | built exactly when the commit has a patch, the tip replays and there is something to undo; the revert of a commit that replays is clean and undoes the commit's net changes |
| BranchOperations.CompactReplays | lake/branch.go:238-279 | an accepted compaction replays exactly when no source is given twice, and leaves the rollup and its vectors in the place of the sources |
| BranchOperations.BuildCompact | lake/branch.go:238-279 | built exactly when there is a rollup, the tip replays and a patch over it takes the actions; clean exactly when the sources are distinct, and what it leaves |
| BranchProtocol.StepKeeps | lake/branch.go:356-407 | every step of every writer keeps the invariant of the lake, whatever objects the writers build |
| BranchProtocol.RunKeeps | lake/branch.go:356-407 | every run from the empty lake keeps it |
| BranchProtocol.RunsAreSerial | lake/branch.go:356-407 | after every run each branch has a serial history, and its tip replays from the root exactly when every commit on its path was clean when it was built |
| BranchProtocol.ReplaysIffClean | lake/branch.go:356-407 | a commit replays exactly when every commit on its path was clean when it was built |
| BranchProtocol.CleanRunsReplay | lake/branch.go:356-407 | in a run in which every object built was clean, every tip replays |
| BranchProtocol.UncleanTipSpoilsBranch | lake/branch.go:356-407 | a tip that does not replay leaves every later tip of its branch without a replay |
| BranchProtocol.EarlierTipStaysAncestor | lake/branch.go:356-407 | a tip that was once published stays an ancestor of every later tip |
| BranchProtocol.PublishedIsPermanent | lake/branch.go:356-407 | a published commit is never removed or changed, and neither is its state |
| BranchProtocol.RemovalIsSafe | lake/branch.go:385-400 | removing a commit after a failed compare-and-set never removes one on a branch's path |
| BranchProtocol.UpdateAppliesActions | lake/branch.go:385-400 | the new tip replays exactly if the commit was clean, and then its state is the commit's actions on the tip it was built against |
| BranchProtocol.GivingUpLeavesNothing | lake/branch.go:356-407 | a writer that gives up after its retries has no commit object in the store, then or later |
| Uvarint.DecodeEncode | zcode/bytes.go:41-58 | every 64-bit value is read back from its encoding, whatever follows it |
| Uvarint.SizeOf | zcode/bytes.go:51-58 | the size counted by shifting is the size of the encoding |
| Counted.SignedBijection | zcode/counted.go:47-77 | a bijection between 64-bit integers, the minimum included, and minimal byte strings of at most eight bytes |
| Counted.DecodeUvarint | zcode/counted.go:12-21 | the loop computes the value of the bytes in 64 bits |
| Counted.EncodeUvarint | zcode/counted.go:23-31 | writes the minimal digits in place and nothing behind them |
| Counted.AppendUvarint | zcode/counted.go:33-45 | appends the minimal digits |
| Counted.DecodeVarint | zcode/counted.go:47-57 | every signed integer is read back from its digits |
| Counted.AppendVarint | zcode/counted.go:69-77 | appends the digits of the folded integer |
| Zcode.ItemsOfEncoding | zcode/iter.go:12-39 | iterating over encoded items yields them, null kept apart from empty |
| Zcode.EncodingIsInjective | zcode/bytes.go:41-49 | read with the shape of its type, an encoding determines the value |
| Zcode.ReadBack | zcode/iter.go:12-39 | iterating over the bytes of a tree in the shape it has recovers the tree, null kept apart from empty |
| Zcode.Iter.Next | zcode/iter.go:21-39 | the first item, and the iterator moves behind it |
| Zcode.Iter.NextTagAndBody | zcode/iter.go:41-52 | the bytes of the first item with its tag |
| ZcodeBuilder.Builder.BeginContainer | zcode/builder.go:39-45 | opens a level |
| ZcodeBuilder.Builder.EndContainer | zcode/builder.go:49-65 | closes the innermost level into its parent, moving the body over for a longer tag |
| ZcodeBuilder.PutTag | zcode/builder.go:53-64 | the buffer with the tag in front of the body, however long the tag is |
| ZcodeBuilder.Builder.Append | zcode/builder.go:76-78 | appends an item to the innermost level |
| ZcodeBuilder.Builder.TransformContainer | zcode/builder.go:69-73 | replaces the body of the innermost level |
| ZcodeBuilder.OpsBuildValue | zcode/builder.go:39-87 | under any open containers, the calls for a value append its encoding |
| ZcodeBuilder.ParseIsExact | zcode/builder.go:39-87 | every well-bracketed sequence of calls spells a list of values |
| ZcodeBuilder.BuilderIsExact | zcode/builder.go:39-87 | for every well-bracketed sequence of calls the bytes are the encoding of the values it spells |
| VngColumns.IntsHold | vng/int.go:13-35 | decoding an integer column gives the integers that were written |
| VngColumns.RunsRoundTrip | vng/nulls.go:37-66 | the runs, read as alternating and beginning with values, spell what was written |
| VngColumns.NextRunReads | vng/nulls.go:110-126 | the loop over empty runs finds the next entry and leaves the others |
| VngNulls.NullsEncoder.TouchValue | vng/nulls.go:37-45 | records a value |
| VngNulls.NullsEncoder.TouchNull | vng/nulls.go:47-56 | records a null |
| VngNulls.NullsEncoder.Encode | vng/nulls.go:58-66 | a column of runs that spells everything recorded, or none if there was no null |
| VngNulls.NullsBuilder.Next | vng/nulls.go:110-126 | the next of the recorded entries |
| VngPrimitives.WriteColumnOf | vng/primitive.go:46-69 | a column holds what was written, and a dictionary of it as long as there are at most 256 values |
| VngPrimitives.LoadCompressed | vng/segment.go:32-87 | a segment is read back from where its block was written, compressed or not |
| VngPrimitives.ColumnStored | vng/primitive.go:71-166 | constant, dictionary or plain: Metadata advances by what Emit writes, and the bodies are stored where it says |
| VngPrimitives.ReadItemStep | vng/primitive.go:212-224 | a plain column delivers its bodies one by one |
| VngPrimitives.ReadSelectedStep | vng/primitive.go:255-271 | a dictionary column delivers its bodies one by one |
| VngDictionary.SortedListingUnique | vng/primitive.go:168-184 | with a comparator that separates the values, two sorts of a dictionary agree |
| VngDictionary.SelectsIffSame | vng/primitive.go:88-111 | selectors read through another listing give the bodies back exactly when the listings are the same |
| VngDictionary.ReadBackIffSeparated | vng/primitive.go:168-184 | under every pair of sorts a column is read back exactly when the comparator ties no two of its bodies |
| VngDictionary.SortsAgree | vng/primitive.go:168-184 | for all dictionaries of an object |
| VngEncoders.NewIsWritten | vng/encoder.go:31-55 | a new encoder is one that nothing was written to |
| VngEncoders.WriteKeeps | vng/nulls.go:28-35 | writing a value of any type adds its pieces to the columns and nothing else |
| VngEncoders.FillRecord | vng/record.go:29-35 | each field goes to the column of the field |
| VngEncoders.FillArray | vng/array.go:28-37 | the elements go to the column of elements |
| VngEncoders.FillMap | vng/map.go:26-36 | keys and values go to their columns |
| VngEncoders.FillUnion | vng/union.go:33-39 | the value goes to the column of its tag |
| VngLayout.WrittenLaid | vng/encoder.go:10-29 | for every type Metadata advances by the size of what Emit writes, and builders find the values where Emit wrote them |
| VngLayout.NullsLaid | vng/nulls.go:58-89 | with nulls the runs are found behind the values, without nulls there are none |
| VngLayout.AllLaid | vng/record.go:43-60 | children in a row: the sizes add up, and each child is found |
| VngLayout.UnionLaid | vng/union.go:41-73 | tags and then members: the size is right, and the values are found |
| VngLayout.ArrayLaid | vng/array.go:39-59 | lengths and then elements: the size is right, and the values are found |
| VngLayout.MapLaid | vng/map.go:38-64 | lengths, then keys, then values: the size is right, and the entries are found |
| VngTiling.SegmentsTile | vng/encoder.go:10-29 | for every encoder the segments of Metadata tile what Emit writes, with no gap or overlap, and each holds exactly what its column wrote; constants take no space |
| VngTiling.TilesApart | vng/encoder.go:10-29 | tiles do not overlap and stay inside of the section |
| VngTiling.PassesAgree | vng/nulls.go:68-89 | the induction over the encoder: Metadata places the columns in the order in which Emit writes them |
| VngTiling.AllAgree | vng/record.go:43-60 | children one after the other without gap or overlap |
| VngTiling.NullsAgree | vng/nulls.go:68-89 | the segment of the runs directly behind those of the values |
| VngTiling.UnionAgrees | vng/union.go:50-73 | the segment of the tags directly before those of the members |
| VngTiling.MapAgrees | vng/map.go:45-64 | lengths, keys and values side by side |
| VngReading.BuildReads | vng/builder.go:10-48 | a builder delivers the next value of its columns and then the rest |
| VngReading.BuildManyReads | vng/array.go:79-92 | an array's elements |
| VngReading.BuildEntriesReads | vng/map.go:90-106 | a map's entries |
| VngReading.BuildUnion | vng/union.go:97-112 | a union value with its tag |
| VngReading.BuildRecord | vng/record.go:87-96 | a record's fields |
| VngReading.CanonIsCanonical | complex.go:302-307 | what a union column stores is tagged as the lookup table says |
| VngTags.CanonKeeps | complex.go:302-324 | a value comes back as it was written exactly when its tags are the shortest ones of the last members of their types |
| VngTags.DistinctUnionsKeep | complex.go:302-324 | so it does when unions have distinct members and tags are written as the program writes them |
| VngTags.RepeatedMemberChanges | complex.go:302-307 | a type with a repeated member anywhere has a value that does not come back |
| VngTags.AllValuesComeBack | complex.go:302-324 | all values of a type come back exactly when its unions have distinct members |
| VngShape.LengthOfWritten | vng/metadata.go:194-196 | the metadata counts the values that were written |
| VngShape.TypeOfWritten | vng/metadata.go:18-144 | the metadata names the type that was written |
| VngContextTypes.ContextTypesRegular | context.go:200-215 | the types of a context can be named by metadata |
| VngStreams.DynamicEncoder.Write | vng/dynamic.go:33-45 | a value goes to the encoder of its type, which is new for a new type, and its tag to the tags |
| VngStreams.DynamicEncoder.Encode | vng/dynamic.go:47-74 | the columns finished, the size that of the data section, and the segments of the metadata tiling it, each holding its column; no wrapper for one type |
| VngStreams.ObjectTiles | vng/dynamic.go:47-88 | the segments of a whole object, tags first, tile its data section |
| VngStreams.ObjectOpens | vng/dynamic.go:47-88 | for no, one or many types the size is that of the data, the length the number of writes, and the object opens on what was written |
| VngStreams.ZedReader.Read | vng/dynamic.go:116-169 | the next value with its type, and the end after the last |
| VngStreams.RoundTrip | vng/dynamic.go:33-169 | every list of values of any mix of types comes back with its types and in order, and is the list that was written exactly when every union tag is the last of its type; the metadata length is the number of writes |
| TagMaps.RankSlot | vector/tagmap.go:37-42 | the forward and the reverse map are inverse |
| TagMaps.SlotRank | vector/tagmap.go:37-42 | in the other direction |
| TagMaps.FitIffChecked | vector/tagmap.go:25-36 | the construction succeeds exactly when the lengths are the counts of the tags |
| TagMaps.NewTagMapFromLens | vector/tagmap.go:21-47 | fills the forward map and, in one shared space, the reverse map of every tag |
| Vectors.ViewShows | vector/view.go:14-43 | slot by slot, a view of any vector is the vector it was made from |
| Vectors.SelectedFollows | vector/view.go:61-74 | the views of the members follow the tags of the view |
| Vectors.NullsView | vector/view.go:45-59 | the nulls of the selected slots, or nothing if there are none |
| Stitching.StitchShows | vector/apply.go:53-82 | slot by slot, stitching delivers the result for the slot's tag |
| Stitching.StitchFlattens | vector/apply.go:50-82 | the stitched vector has no nested dynamic vector if no result has |
| Stitching.StitchInPlace | vector/apply.go:57-81 | the loops with shifts and nested tags compute the flattened tags and vectors |
| Applying.RipLighter | vector/apply.go:35-48 | ripping comes to an end |
| Applying.RipShows | vector/apply.go:35-48 | each slot handed on is the slot of the input it comes from, for the ripped object wherever it is given, and for a viewed one exactly if the view hides no named union there |
| Applying.ApplyIsSlotwise | vector/apply.go:7-48 | slot i of the result is the evaluator on slot i of every input, where no object but the ripped one has a value in a named union |
| Applying.ApplyExactly | vector/apply.go:7-48 | for every slotwise evaluator, exactly on the inputs where no object that is viewed has a value in a named union |
| Applying.EqualObjectsHidden | vector/apply.go:35-48 | the same vector given twice is computed right; an equal vector that is another object is not |
| Applying.ApplyFlattens | vector/apply.go:7-24 | no nested dynamic vector if no result of the evaluator has one |
| Applying.NamedUnionHidden | vector/apply.go:7-48 | the smallest input on which Apply does not compute what the evaluator does |
| TypeOrder.TypesTie | type.go:396-477 | only identical types compare equal where no name wraps a name |
| TypeOrder.TieExactly | type.go:396-403 | two types compare equal exactly when they agree under their names and in the outer name, so distinct ones exactly when both are named alike over different types |
| TypeOrder.TypesLawful | type.go:396-477 | the comparison is antisymmetric and transitive where no name wraps a name |
| TypeOrder.BelowLawful | type.go:396-477 | it is so with names over names too, as long as they are the outer ones |
| TypeOrder.DoubleNamesTie | type.go:398-403 | distinct types that compare equal |
| TypeOrder.DeepDoubleNames | type.go:396-477 | names over names further down make the comparison intransitive |
| TypeTwins.LawfulExactly | type.go:396-477 | against types with no name over a name below the outer ones, the names on a type obey the laws exactly when there is no such name in it |
| TypeTwins.NamelessExactly | type.go:396-477 | against all types they do exactly when there is no name in it |
| UnionTypes.UniqueTypes | type.go:381-394 | exactly the types given, each at most the next, and strictly sorted where no name wraps a name |
| UnionTypes.UnionOfPermutation | context.go:200-215 | every permutation of a member list gives the same union |
| TypeValueRoundTrip.DecodeEncodeType | type.go:498-562 | the decoder follows the encoder's bindings step by step and returns the type and what follows |
| TypeValueRoundTrip.TypeValueDecodes | context.go:334-492 | a type value followed by anything decodes to its type, whatever was bound before |
| TypeValueRoundTrip.TypeValueInjective | type.go:489-562 | distinct types have distinct type values, none the beginning of another |
| TypeContexts.HashConsed | context.go:308-312 | no two ids of a context stand for the same type |
| TypeContexts.EnterKeeps | context.go:308-312 | entering a type keeps ids as positions, components before it, and the tables right |
| TypeContexts.Context.Lookup | context.go:158-170 | the entry with the type value, entered if there is none |
| TypeContexts.Context.LookupTypeRecord | context.go:103-119 | the record type, or nothing exactly for a duplicate field |
| TypeContexts.Context.LookupTypeUnion | context.go:200-215 | the union of the sorted members, whatever types they are |
| TypeContexts.Context.LookupTypeNamed | context.go:242-262 | the named type, bound to its name, or nothing exactly for a bad name |
| TypeContexts.Context.LookupByValue | context.go:284-300 | for any bytes, what they lead to if they are in the table, and otherwise what they decode to, filed under them with the names bound as the decoder binds them; a type value leads to its type |
| TypeContexts.Context.LookupTypeValue | context.go:314-332 | bytes that lead back to the type, which are its type value exactly when it was not last filed under bytes that are no type's |
| TypeContexts.TrailingBytesStay | context.go:284-332 | a type looked up by its type value and something behind it is given out with both |
| TypeContexts.Context.DecodeTypeValue | context.go:334-492 | decodes, enters and binds as it goes: the outcome, the rest and the name table are those of the decoding function, and nothing for bytes that do not decode |
| TypeContexts.Context.TranslateType | context.go:304-306 | the same type in this context |
| TypeContexts.ThereAndBack | context.go:284-306 | translating to another context and back is the identity and enters nothing |
| RecordBuilders.NewRecordBuilder | recordbuilder.go:59-150 | accepts exactly the lists whose fields fit, and says what to open and close around each leaf |
| RecordBuilders.OpenRecords | recordbuilder.go:98-106 | the records to open, unless one was open before |
| RecordBuilders.RecordBuilder.Append | recordbuilder.go:157-167 | the calls to the value builder for one leaf |
| RecordNesting.OpenAtLeaf | recordbuilder.go:59-127 | the open containers at a leaf spell exactly its parent path |
| RecordNesting.ContainersBalance | recordbuilder.go:59-127 | at the end every container is closed |
| RecordNesting.BuiltShaped | recordbuilder.go:180-210 | the typed record has the nesting of the value |
| RecordNesting.BuiltBytes | recordbuilder.go:157-174 | appending never panics, and the bytes are the encoding of the nested value |
| RecordFields.NotReopened | recordbuilder.go:98-106 | a record that was closed is never opened again |
| RecordFields.BuiltWithoutDuplicates | recordbuilder.go:180-210 | no nested record gets a duplicate field |
| RecordFields.BuildRecord | recordbuilder.go:59-210 | building a record from end to end: refused exactly for a list that is not accepted, otherwise the encoding of the nested value, without duplicate fields |
| RangePruning.PruningIsSound | compiler/optimizer/optimizer.go:570-617 | an object that is pruned holds no value that the predicate accepts |
| RangePruning.FieldOnLeftIsSound | compiler/optimizer/optimizer.go:570-638 | with the field on the left, on every range and under any total order |
| RangePruning.LiteralLeSoundIff | compiler/optimizer/optimizer.go:650-678 | with the literal on the left of `<=`, exactly when it is not the upper bound |
| RangePruning.LiteralGeSoundIff | compiler/optimizer/optimizer.go:650-678 | with the literal on the left of `>=`, exactly when it is not the lower bound |
| SortKeys.ConcurrentPath | compiler/optimizer/parallelize.go:223-268 | the loop is the recursive analysis of the path |
| SortKeys.PrefixIsStateless | compiler/optimizer/parallelize.go:223-268 | from a sorted source the prefix holds only stateless operators, and a merge has a key |
| OperatorOrder.StepKeepsKey | compiler/optimizer/op.go:20-77 | the reported field has the value of the key in every row, or is empty in every row, under the exact conditions on puts, drops, cuts and renamings |
| OperatorOrder.PutKeepsKeyIff | compiler/optimizer/op.go:67-73 | puts with given targets keep the key of a record, whatever they assign, exactly when every target is apart from the key, computed ones included |
| OperatorOrder.DropKeepsKeyIff | compiler/optimizer/op.go:46-52 | a drop leaves the key of a row, or takes it where one covers it, exactly when nothing in the key is taken out |
| OperatorOrder.CutKeepsKeyIff | compiler/optimizer/op.go:140-211 | whatever cuts with given targets assign, the field reported for them has the value of the key exactly when no target is inside of it or around it |
| OperatorOrder.ScoreboardIsRight | compiler/optimizer/op.go:140-211 | with the targets that the compiler accepts, the one field left on the scoreboard is the key or was assigned from the key |
| OperatorOrder.CutKeepsKey | compiler/optimizer/op.go:140-211 | so a cut brings the value of the key to the field that the analysis reports |
| OperatorOrder.RenamedKeyIff | compiler/optimizer/op.go:53-61 | the reported field of a row is the key's exactly if no renaming fails or finds a value where it should bring the key |
| Parallelizing.RunKeepsOrder | compiler/optimizer/op.go:20-77 | a path of stateless operators keeps a sorted input sorted on its last key |
| Parallelizing.RenameOntoFieldLosesOrder | compiler/optimizer/op.go:53-61 | a row that already has the field that the key is renamed to breaks the reported order |
| Parallelizing.RenameWithoutKeyLosesOrder | compiler/optimizer/op.go:53-61 | so does one that has the field and no key |
| Parallelizing.ComputedPutLosesOrder | compiler/optimizer/op.go:67-73 | a put to a computed path that hits the key breaks it |
| Parallelizing.NestedPutLosesOrder | compiler/optimizer/op.go:67-73 | a put inside of the key breaks it |
| Parallelizing.NestedDropLosesOrder | compiler/optimizer/op.go:46-52 | a drop inside of the key breaks it |
| Parallelizing.SplitConserves | compiler/optimizer/parallelize.go:31-82 | however the rows are dealt out, the paths together produce what one path produces |
| Parallelizing.MergeIsSorted | compiler/optimizer/parallelize.go:31-82 | a merge of sorted paths is sorted, however ties are broken |
| Parallelizing.ParallelIsSequential | compiler/optimizer/parallelize.go:31-82 | any split and any merge give the rows of the sequential scan, sorted on the key of the merge |

## Left out

- Storage engine, branch journal and ksuids: the store is a map, a branch update is one atomic compare-and-set that either applies or does not, and commit ids are fresh.
- Author, date, message and metadata of commits, and `DeleteWhere`: they do not take part in replay.
- `Vacuumable` and `Select` by span: easy members over the same snapshots.
- The object cache in front of the commit store, and cache eviction: the snapshot and path caches are modelled, and hold whatever right entries they hold.
- Vectors in `Diff` and `Revert`: the program leaves them out too.
- Branches created from a commit that was never published: a new branch starts at a published commit or at none.
- Zero-copy sharing of buffers: buffers are sequences.
- The encoder and builder trees of VNG are values that are replaced rather than objects updated in place, so aliasing between columns is not captured; the dynamic encoder, the reader and the null machines are classes.
- Writing a value that is not of the encoder's type: the program panics, the model leaves the encoder as it is.
- Minimum and maximum of VNG columns, entry counts of dictionaries, LZ4 itself and the marshalling of headers and metadata: compression is a pair of functions that are inverse.
- VNG columns of 2^32 values and more, where the 32-bit counters wrap: the counters wrap in the model, and the round trip is stated below that.
- Records, arrays, maps and other vectors with children of their own are one kind of flat vector in the vector model; nulls of a union are ignored when it is serialized or ripped, as in the program.
- The identity of the vectors inside of a vector: the vectors given to `Apply` have labels that say which are one object, and what is made for the next level of ripping is new.
- TypeContexts.Context.DecodeTypeValue: the program does not check that a union's member decoded and panics on a missing one (context.go:417-420); the model returns nothing for such bytes.
- Locks of the type context.
- Which strings may name a type (valid UTF-8, not the name of a primitive type) is a parameter.
- Renamings whose paths are computed from the values, and the order of the fields of a row: a row is a nested map.
- UnionTypes.UniqueTypes: the sort is by insertion. On lists with names over names, where the comparison is not transitive, the library's stable sort can order more than twenty types differently.
- Pool scans inside a path, groups of sort keys, and lifting operators into parallel paths after a merge.
- Parallelizing.ParallelIsSequential: does not cover a prefix that stops at a sort, because the sort is lifted into the paths by a later pass. An error value is a row without fields.
- Expression evaluation, group-by, join and fuse: filters, evaluators and comparators are parameters.
