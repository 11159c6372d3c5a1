/**
 The commit objects that the operations of a branch build on a tip, and exactly
 when each of them replays on that tip, which is what the commit loop relies on.
 */
module BranchOperations {
  import opened Wrappers
  import opened Actions
  import opened Snapshots
  import opened Patches
  import opened PatchObjects
  import opened CommitStore
  import Merges

  method NewAddsObject(parent: Id, commit: Id, added: seq<DataObject>) returns (o: CommitObject)
    ensures o == CommitObject(commit, parent, [Commit(commit, parent)] + Adds(added))
  {
    var actions := [Commit(commit, parent)];
    for k := 0 to |added|
      invariant actions == [Commit(commit, parent)] + Adds(added[..k])
    {
      actions := actions + [Add(added[k])];
    }
    assert added[..|added|] == added;
    o := CommitObject(commit, parent, actions);
  }

  method NewDeletesObject(parent: Id, commit: Id, ids: seq<Id>) returns (o: CommitObject)
    ensures o == CommitObject(commit, parent, [Commit(commit, parent)] + Deletes(ids))
  {
    var actions := [Commit(commit, parent)];
    for k := 0 to |ids|
      invariant actions == [Commit(commit, parent)] + Deletes(ids[..k])
    {
      actions := actions + [Delete(ids[k])];
    }
    assert ids[..|ids|] == ids;
    o := CommitObject(commit, parent, actions);
  }

  method NewAddVectorsObject(parent: Id, commit: Id, ids: seq<Id>) returns (o: CommitObject)
    ensures o == CommitObject(commit, parent, [Commit(commit, parent)] + AddVectors(ids))
  {
    var actions := [Commit(commit, parent)];
    for k := 0 to |ids|
      invariant actions == [Commit(commit, parent)] + AddVectors(ids[..k])
    {
      actions := actions + [AddVector(ids[k])];
    }
    assert ids[..|ids|] == ids;
    o := CommitObject(commit, parent, actions);
  }

  method NewDeleteVectorsObject(parent: Id, commit: Id, ids: seq<Id>) returns (o: CommitObject)
    ensures o == CommitObject(commit, parent, [Commit(commit, parent)] + DeleteVectors(ids))
  {
    var actions := [Commit(commit, parent)];
    for k := 0 to |ids|
      invariant actions == [Commit(commit, parent)] + DeleteVectors(ids[..k])
    {
      actions := actions + [DeleteVector(ids[k])];
    }
    assert ids[..|ids|] == ids;
    o := CommitObject(commit, parent, actions);
  }

  lemma {:induction false} PlayAfterCommit(tip: State, commit: Id, parent: Id, actions: seq<Action>)
    ensures Play(tip, [Commit(commit, parent)] + actions) == Play(tip, actions)
  {
    assert ([Commit(commit, parent)] + actions)[1..] == actions;
  }

  /** A load replays exactly when its objects are distinct and new to the tip. */
  lemma {:induction false} LoadReplays(tip: State, commit: Id, parent: Id, added: seq<DataObject>)
    ensures var r := Play(tip, [Commit(commit, parent)] + Adds(added));
            && (r.Ok? <==> Distinct(IdsOf(added)) && Ids(IdsOf(added)) !! tip.objects.Keys)
            && (r.Ok? ==> r.value == tip.(objects := tip.objects + Filed(added)))
  {
    PlayAfterCommit(tip, commit, parent, Adds(added));
    PlayAdds(tip, added);
  }

  /** So the object of a load is clean exactly then, on a tip that replays. */
  lemma {:induction false} LoadIsClean(log: Repo, commit: Id, parent: Id, added: seq<DataObject>)
    requires log.Acyclic()
    ensures log.Clean(CommitObject(commit, parent, [Commit(commit, parent)] + Adds(added))) <==>
              && log.Replay(parent).Some?
              && Distinct(IdsOf(added)) && Ids(IdsOf(added)) !! log.Replay(parent).value.objects.Keys
  {
    if log.Replay(parent).Some? {
      LoadReplays(log.Replay(parent).value, commit, parent, added);
    }
  }

  /**
   A delete is refused unless the tip has all the ids.  An accepted one replays
   exactly when no id is given twice, which is not checked.
   */
  method BuildDelete(store: Store, parent: Id, commit: Id, ids: seq<Id>) returns (r: Result<CommitObject>)
    requires store.Valid()
    modifies store`snapshots, store`stored
    ensures store.Valid()
    ensures r.Ok? <==> store.Log().Replay(parent).Some? && Ids(ids) <= store.Log().Replay(parent).value.objects.Keys
    ensures r.Ok? ==> r.value.commit == commit && r.value.parent == parent
    ensures r.Ok? ==>
              var tip := store.Log().Replay(parent).value;
              && (store.Log().Clean(r.value) <==> Distinct(ids))
              && (Distinct(ids) ==> Play(tip, r.value.actions) == Ok(tip.(objects := tip.objects - Ids(ids))))
  {
    var snap := store.Snapshot(parent);
    if snap.Err? { return Err(snap.error); }
    for k := 0 to |ids|
      invariant forall i :: 0 <= i < k ==> ids[i] in snap.value.objects
    {
      if ids[k] !in snap.value.objects {
        assert ids[k] in Ids(ids);
        return Err(NotFound);
      }
    }
    var o := NewDeletesObject(parent, commit, ids);
    PlayAfterCommit(snap.value.Contents(), commit, parent, Deletes(ids));
    PlayDeletes(snap.value.Contents(), ids);
    r := Ok(o);
  }

  /** Adding vectors: refused unless every object exists and has no vector; replays exactly when no id is given twice. */
  method BuildAddVectors(store: Store, parent: Id, commit: Id, ids: seq<Id>) returns (r: Result<CommitObject>)
    requires store.Valid()
    modifies store`snapshots, store`stored
    ensures store.Valid()
    ensures r.Ok? <==>
              && store.Log().Replay(parent).Some?
              && Ids(ids) <= store.Log().Replay(parent).value.objects.Keys
              && Ids(ids) !! store.Log().Replay(parent).value.vectors
    ensures r.Ok? ==> r.value.commit == commit && r.value.parent == parent
    ensures r.Ok? ==>
              var tip := store.Log().Replay(parent).value;
              && (store.Log().Clean(r.value) <==> Distinct(ids))
              && (Distinct(ids) ==> Play(tip, r.value.actions) == Ok(tip.(vectors := tip.vectors + Ids(ids))))
  {
    var snap := store.Snapshot(parent);
    if snap.Err? { return Err(snap.error); }
    for k := 0 to |ids|
      invariant forall i :: 0 <= i < k ==> ids[i] in snap.value.objects && ids[i] !in snap.value.vectors
    {
      if ids[k] !in snap.value.objects {
        assert ids[k] in Ids(ids);
        return Err(NotFound);
      }
      if ids[k] in snap.value.vectors {
        assert ids[k] in Ids(ids);
        return Err(Error.Exists);
      }
    }
    var o := NewAddVectorsObject(parent, commit, ids);
    PlayAfterCommit(snap.value.Contents(), commit, parent, AddVectors(ids));
    PlayAddVectors(snap.value.Contents(), ids);
    r := Ok(o);
  }

  /** Deleting vectors, likewise. */
  method BuildDeleteVectors(store: Store, parent: Id, commit: Id, ids: seq<Id>) returns (r: Result<CommitObject>)
    requires store.Valid()
    modifies store`snapshots, store`stored
    ensures store.Valid()
    ensures r.Ok? <==>
              && store.Log().Replay(parent).Some?
              && Ids(ids) <= store.Log().Replay(parent).value.objects.Keys
              && Ids(ids) <= store.Log().Replay(parent).value.vectors
    ensures r.Ok? ==> r.value.commit == commit && r.value.parent == parent
    ensures r.Ok? ==>
              var tip := store.Log().Replay(parent).value;
              && (store.Log().Clean(r.value) <==> Distinct(ids))
              && (Distinct(ids) ==> Play(tip, r.value.actions) == Ok(tip.(vectors := tip.vectors - Ids(ids))))
  {
    var snap := store.Snapshot(parent);
    if snap.Err? { return Err(snap.error); }
    for k := 0 to |ids|
      invariant forall i :: 0 <= i < k ==> ids[i] in snap.value.objects && ids[i] in snap.value.vectors
    {
      if ids[k] !in snap.value.objects || ids[k] !in snap.value.vectors {
        assert ids[k] in Ids(ids);
        return Err(NotFound);
      }
    }
    var o := NewDeleteVectorsObject(parent, commit, ids);
    PlayAfterCommit(snap.value.Contents(), commit, parent, DeleteVectors(ids));
    PlayDeleteVectors(snap.value.Contents(), ids);
    r := Ok(o);
  }

  // ---------------------------------------------------------------------------
  // Compaction

  function CompactActions(rollup: seq<DataObject>, vectors: seq<Id>, src: seq<Id>): seq<Action> {
    (Adds(rollup) + AddVectors(vectors)) + Deletes(src)
  }

  /** Deletes that a patch accepts leave it deleting something twice only if the caller did. */
  lemma {:induction false} AcceptedDeletes(p: PatchState, src: seq<Id>)
    requires p.WellFormed() && PatchPlay(p, Deletes(src)).Ok?
    ensures var q := PatchPlay(p, Deletes(src)).value;
            && q.deletedVectors == p.deletedVectors
            && (Distinct(q.deletedObjects) <==> Distinct(p.deletedObjects) && Distinct(src) && Ids(src) !! Ids(p.deletedObjects))
    decreases |src|
  {
    if src != [] {
      var id, rest := src[0], src[1..];
      assert Deletes(src)[1..] == Deletes(rest);
      PatchStepKeeps(p, Delete(id));
      var q := PatchStep(p, Delete(id)).value;
      AcceptedDeletes(q, rest);
      DistinctHead(src);
      assert id in rest <==> id in Ids(rest);
      if id in p.diff.objects {
        RefusedAgain(q, id, rest);
        assert !p.base.Exists(id) && (id in p.deletedObjects ==> p.base.Exists(id));
      } else {
        DistinctSnoc(p.deletedObjects, id);
        assert id in p.deletedObjects <==> id in Ids(p.deletedObjects);
      }
    }
  }

  /** An id that a patch does not know is not among the deletes it accepts. */
  lemma {:induction false} RefusedAgain(p: PatchState, id: Id, src: seq<Id>)
    requires PatchPlay(p, Deletes(src)).Ok? && id !in p.diff.objects && !p.base.Exists(id)
    ensures id !in src
    decreases |src|
  {
    if src != [] {
      assert Deletes(src)[1..] == Deletes(src[1..]);
      RefusedAgain(PatchStep(p, Delete(src[0])).value, id, src[1..]);
    }
  }

  lemma {:induction false} AcceptedAdds(p: PatchState, actions: seq<Action>)
    requires PatchPlay(p, actions).Ok? && forall a :: a in actions ==> a.Add? || a.AddVector?
    ensures var q := PatchPlay(p, actions).value;
            q.deletedObjects == p.deletedObjects && q.deletedVectors == p.deletedVectors
    decreases |actions|
  {
    if actions != [] {
      assert actions[0] in actions && forall a :: a in actions[1..] ==> a in actions;
      AcceptedAdds(PatchStep(p, actions[0]).value, actions[1..]);
    }
  }

  /** What a compaction leaves: the rollup and its vectors in the place of the sources. */
  function Compacted(tip: State, rollup: seq<DataObject>, vectors: seq<Id>, src: seq<Id>): State {
    State((tip.objects + Filed(rollup)) - Ids(src), tip.vectors + Ids(vectors))
  }

  lemma {:induction false} PlayCompact(tip: State, rollup: seq<DataObject>, vectors: seq<Id>, src: seq<Id>)
    requires Play(tip, CompactActions(rollup, vectors, src)).Ok?
    ensures Play(tip, CompactActions(rollup, vectors, src)).value == Compacted(tip, rollup, vectors, src)
  {
    var adds := Adds(rollup) + AddVectors(vectors);
    PlayAppend(tip, adds, Deletes(src));
    PlayAppend(tip, Adds(rollup), AddVectors(vectors));
    PlayAdds(tip, rollup);
    PlayAddVectors(Play(tip, Adds(rollup)).value, vectors);
    PlayDeletes(Play(tip, adds).value, src);
  }

  /** An accepted compaction replays exactly when no source object is given twice. */
  lemma {:induction false} CompactReplays(tip: State, commit: Id, parent: Id, rollup: seq<DataObject>, vectors: seq<Id>, src: seq<Id>,
                       order: seq<DataObject>, vectorOrder: seq<Id>)
    requires PatchPlay(NewPatchState(Base(tip)), CompactActions(rollup, vectors, src)).Ok?
    ensures var p := PatchPlay(NewPatchState(Base(tip)), CompactActions(rollup, vectors, src)).value;
            Enumerates(order, p.diff.objects) && EnumeratesIds(vectorOrder, p.diff.vectors) ==>
              && (Play(tip, CommitActions(p, commit, parent, order, vectorOrder)).Ok? <==> Distinct(src))
              && (Distinct(src) ==>
                    Play(tip, CommitActions(p, commit, parent, order, vectorOrder)) == Ok(Compacted(tip, rollup, vectors, src)))
  {
    var start := NewPatchState(Base(tip));
    var adds := Adds(rollup) + AddVectors(vectors);
    PatchPlayAppend(start, adds, Deletes(src));
    var q := PatchPlay(start, adds).value;
    PatchPlayKeeps(start, adds);
    AcceptedAdds(start, adds);
    AcceptedDeletes(q, src);
    PatchPlayKeeps(start, CompactActions(rollup, vectors, src));
    var p := PatchPlay(start, CompactActions(rollup, vectors, src)).value;
    if Enumerates(order, p.diff.objects) && EnumeratesIds(vectorOrder, p.diff.vectors) {
      CommitReplaysOnBase(tip, p, commit, parent, order, vectorOrder);
      if Distinct(src) {
        CompactLeaves(tip, commit, parent, rollup, vectors, src, order, vectorOrder);
      }
    }
  }

  lemma {:induction false} CompactLeaves(tip: State, commit: Id, parent: Id, rollup: seq<DataObject>, vectors: seq<Id>, src: seq<Id>,
                                         order: seq<DataObject>, vectorOrder: seq<Id>)
    requires PatchPlay(NewPatchState(Base(tip)), CompactActions(rollup, vectors, src)).Ok?
    requires var p := PatchPlay(NewPatchState(Base(tip)), CompactActions(rollup, vectors, src)).value;
             && Distinct(p.deletedObjects) && Distinct(p.deletedVectors)
             && Enumerates(order, p.diff.objects) && EnumeratesIds(vectorOrder, p.diff.vectors)
    ensures var p := PatchPlay(NewPatchState(Base(tip)), CompactActions(rollup, vectors, src)).value;
            Play(tip, CommitActions(p, commit, parent, order, vectorOrder)) == Ok(Compacted(tip, rollup, vectors, src))
  {
    var actions := CompactActions(rollup, vectors, src);
    NewPatchTracks(tip);
    AcceptedReplays(tip, NewPatchState(Base(tip)), tip, actions);
    SquashExact(tip, actions);
    SquashRoundTrip(tip, actions, commit, parent, order, vectorOrder);
    PlayCompact(tip, rollup, vectors, src);
  }

  /** An arbitrary order in which to range over a set. */
  method AnyIds(s: set<Id>) returns (order: seq<Id>)
    ensures EnumeratesIds(order, s)
  {
    order := [];
    var left := s;
    while left != {}
      invariant left <= s && Distinct(order) && Ids(order) == s - left
      decreases left
    {
      var k :| k in left;
      assert k !in Ids(order);
      DistinctSnoc(order, k);
      order := order + [k];
      left := left - {k};
    }
  }

  /**
   A compaction is refused unless there is a rollup and a patch over the tip takes the rollup objects,
   their vectors and the deletion of the sources.  An accepted one is clean exactly when no source is given twice,
   which is not checked, and leaves the rollup in the place of the sources.
   */
  method BuildCompact(store: Store, parent: Id, commit: Id, src: seq<Id>, rollup: seq<DataObject>, vectors: seq<Id>)
    returns (r: Result<CommitObject>)
    requires store.Valid()
    modifies store`snapshots, store`stored
    ensures store.Valid()
    ensures r.Ok? <==>
              && rollup != [] && store.Log().Replay(parent).Some?
              && PatchPlay(NewPatchState(Base(store.Log().Replay(parent).value)), CompactActions(rollup, vectors, src)).Ok?
    ensures r.Ok? ==> r.value.commit == commit && r.value.parent == parent
    ensures r.Ok? ==>
              var tip := store.Log().Replay(parent).value;
              && (store.Log().Clean(r.value) <==> Distinct(src))
              && (Distinct(src) ==> Play(tip, r.value.actions) == Ok(Compacted(tip, rollup, vectors, src)))
  {
    if rollup == [] { return Err(NoRollup); }
    var snap := store.Snapshot(parent);
    if snap.Err? { return Err(snap.error); }
    r := CompactOn(State(snap.value.objects, snap.value.vectors), parent, commit, src, rollup, vectors);
  }

  method CompactOn(tip: State, parent: Id, commit: Id, src: seq<Id>, rollup: seq<DataObject>, vectors: seq<Id>) returns (r: Result<CommitObject>)
    ensures r.Ok? <==> PatchPlay(NewPatchState(Base(tip)), CompactActions(rollup, vectors, src)).Ok?
    ensures r.Ok? ==>
              && r.value.commit == commit && r.value.parent == parent
              && (Play(tip, r.value.actions).Ok? <==> Distinct(src))
              && (Distinct(src) ==> Play(tip, r.value.actions) == Ok(Compacted(tip, rollup, vectors, src)))
  {
    var patch := new Patch(Base(tip));
    var err := patch.PlayAll(CompactActions(rollup, vectors, src));
    if err != None { return Err(err.value); }
    PatchPlayKeeps(NewPatchState(Base(tip)), CompactActions(rollup, vectors, src));
    var order := AnyOrder(patch.diff.objects);
    var vectorOrder := AnyIds(patch.diff.vectors);
    var o := patch.NewCommitObject(commit, parent, order, vectorOrder);
    CompactReplays(tip, commit, parent, rollup, vectors, src, order, vectorOrder);
    r := Ok(o);
  }

  // ---------------------------------------------------------------------------
  // Revert

  /** The commit that undoes `commit` on the tip `parent`: built on the undone commit's patch and the tip's snapshot. */
  method BuildRevert(store: Store, undone: Id, parent: Id, commit: Id) returns (r: Result<CommitObject>)
    requires store.Valid()
    modifies store`snapshots, store`stored, store`paths
    ensures store.Valid()
    ensures r.Ok? <==>
              && store.Log().PatchOf(undone).Ok? && store.Log().Replay(parent).Some?
              && Merges.SomethingToUndo(store.Log().PatchOf(undone).value, store.Log().Replay(parent).value)
    ensures r.Ok? ==> r.value.commit == commit && r.value.parent == parent
    ensures r.Ok? && store.Log().Replay(undone).Some? ==>
              var tip := store.Log().Replay(parent).value;
              var b := store.Log().Replay(store.objects[undone].parent).value;
              && store.Log().Clean(r.value)
              && Play(tip, r.value.actions) == Ok(State(Merges.RevertedObjects(b, store.Log().PatchOf(undone).value, tip), tip.vectors))
  {
    var patch := store.PatchOfCommit(undone);
    if patch.Err? { return Err(patch.error); }
    var tip := store.Snapshot(parent);
    if tip.Err? { return Err(tip.error); }
    ghost var b := store.Log().Replay(store.objects[undone].parent).value;
    PatchPlayKeeps(NewPatchState(Base(b)), store.objects[undone].actions);
    var order := AnyOrder(patch.value.diff.objects);
    store.Log().ReplayWellKeyed(store.objects[undone].parent);
    Merges.RevertRefused(b, patch.value.Value(), tip.value.Contents(), commit, parent, order);
    r := patch.value.Revert(tip.value, commit, parent, order);
    if r.Ok? && store.Log().Replay(undone).Some? {
      store.Log().PatchOfTracks(undone);
      Merges.RevertReplays(b, patch.value.Value(), store.Log().Replay(undone).value, tip.value.Contents(), commit, parent, order);
    }
  }
}
