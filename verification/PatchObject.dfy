/** The mutable patch and the loops over it, proved against the functions of `Patches` and `Merges`. */
module PatchObjects {
  import opened Wrappers
  import opened Actions
  import opened Snapshots
  import opened Patches
  import Merges

  /** How an updating call reports the outcome `r` of a step of a patch. */
  ghost predicate ReportsPatch(before: PatchState, r: Result<PatchState>, err: Option<Error>, after: PatchState) {
    match r
    case Ok(q) => err == None && after == q
    case Err(e) => err == Some(e) && after == before
  }

  class Patch {
    const base: View
    const diff: Snapshot
    var deletedObjects: seq<Id>
    var deletedVectors: seq<Id>

    ghost function Value(): PatchState
      reads this, diff
    {
      PatchState(base, diff.Contents(), deletedObjects, deletedVectors)
    }

    constructor (base: View)
      ensures this.base == base && fresh(diff)
      ensures Value() == NewPatchState(base)
    {
      this.base := base;
      diff := new Snapshot();
      deletedObjects, deletedVectors := [], [];
    }

    method AddDataObject(o: DataObject) returns (err: Option<Error>)
      modifies this, diff
      ensures ReportsPatch(old(Value()), PatchStep(old(Value()), Add(o)), err, Value())
    {
      if base.Exists(o.id) {
        return Some(Error.Exists);
      }
      err := diff.AddDataObject(o);
    }

    method DeleteObject(id: Id) returns (err: Option<Error>)
      modifies this, diff
      ensures ReportsPatch(old(Value()), PatchStep(old(Value()), Delete(id)), err, Value())
    {
      if id in diff.objects {
        err := diff.DeleteObject(id);
        return;
      }
      if !base.Exists(id) {
        return Some(NotFound);
      }
      deletedObjects := deletedObjects + [id];
      err := None;
    }

    method AddVector(id: Id) returns (err: Option<Error>)
      modifies this, diff
      ensures ReportsPatch(old(Value()), PatchStep(old(Value()), Action.AddVector(id)), err, Value())
    {
      if id in diff.vectors || base.HasVector(id) {
        return Some(Error.Exists);
      }
      err := diff.AddVector(id);
    }

    method DeleteVector(id: Id) returns (err: Option<Error>)
      modifies this, diff
      ensures ReportsPatch(old(Value()), PatchStep(old(Value()), Action.DeleteVector(id)), err, Value())
    {
      if id in diff.vectors {
        err := diff.DeleteVector(id);
        return;
      }
      if !base.HasVector(id) {
        return Some(NotFound);
      }
      deletedVectors := deletedVectors + [id];
      err := None;
    }

    method PlayAction(a: Action) returns (err: Option<Error>)
      modifies this, diff
      ensures ReportsPatch(old(Value()), PatchStep(old(Value()), a), err, Value())
    {
      match a
      case Add(o) => err := AddDataObject(o);
      case Delete(id) => err := DeleteObject(id);
      case AddVector(id) => err := AddVector(id);
      case DeleteVector(id) => err := DeleteVector(id);
      case Commit(_, _) => err := None;
    }

    method PlayAll(actions: seq<Action>) returns (err: Option<Error>)
      modifies this, diff
      ensures match PatchPlay(old(Value()), actions)
              case Ok(q) => err == None && Value() == q
              case Err(e) => err == Some(e)
    {
      err := None;
      for k := 0 to |actions|
        invariant err == None
        invariant PatchPlay(old(Value()), actions) == PatchPlay(Value(), actions[k..])
      {
        assert actions[k..][1..] == actions[k + 1..];
        err := PlayAction(actions[k]);
        if err != None {
          return;
        }
      }
    }

    /** `order` and `vectorOrder` are the orders in which the diff's maps are ranged over. */
    method NewCommitObject(commit: Id, parent: Id, order: seq<DataObject>, vectorOrder: seq<Id>) returns (o: CommitObject)
      requires Enumerates(order, diff.objects) && EnumeratesIds(vectorOrder, diff.vectors)
      ensures o == CommitObject(commit, parent, CommitActions(Value(), commit, parent, order, vectorOrder))
    {
      var actions := [Commit(commit, parent)];
      for k := 0 to |deletedObjects|
        invariant actions == [Commit(commit, parent)] + Deletes(deletedObjects[..k])
      {
        actions := actions + [Delete(deletedObjects[k])];
      }
      assert deletedObjects[..|deletedObjects|] == deletedObjects;
      ghost var done := actions;
      for k := 0 to |order|
        invariant actions == done + Adds(order[..k])
      {
        actions := actions + [Add(order[k])];
      }
      assert order[..|order|] == order;
      done := actions;
      for k := 0 to |deletedVectors|
        invariant actions == done + DeleteVectors(deletedVectors[..k])
      {
        actions := actions + [Action.DeleteVector(deletedVectors[k])];
      }
      assert deletedVectors[..|deletedVectors|] == deletedVectors;
      done := actions;
      for k := 0 to |vectorOrder|
        invariant actions == done + AddVectors(vectorOrder[..k])
      {
        actions := actions + [Action.AddVector(vectorOrder[k])];
      }
      assert vectorOrder[..|vectorOrder|] == vectorOrder;
      assert actions == CommitActions(Value(), commit, parent, order, vectorOrder);
      o := CommitObject(commit, parent, actions);
    }

    /** A delete for every object the patch adds that the tip still has. */
    method RevertAdded(tip: Snapshot, order: seq<DataObject>) returns (actions: seq<Action>)
      ensures actions == Deletes(Merges.StillPresent(tip.Contents(), order))
    {
      ghost var t := tip.Contents();
      actions := [];
      assert order[0..] == order;
      for k := 0 to |order|
        invariant actions + Deletes(Merges.StillPresent(t, order[k..])) == Deletes(Merges.StillPresent(t, order))
      {
        assert order[k..][1..] == order[k + 1..];
        ghost var rest := Merges.StillPresent(t, order[k + 1..]);
        if order[k].id in tip.objects {
          assert Deletes([order[k].id] + rest) == [Delete(order[k].id)] + Deletes(rest);
          actions := actions + [Delete(order[k].id)];
        }
      }
      assert actions + Deletes([]) == actions;
    }

    /** An add for every object the patch deletes that the tip lacks, as the base had it. */
    method RevertDeleted(tip: Snapshot) returns (r: Result<seq<Action>>)
      ensures match Merges.NowAbsent(base, tip.Contents(), deletedObjects)
              case Err(e) => r == Err(e)
              case Ok(adds) => r == Ok(Adds(adds))
    {
      ghost var t := tip.Contents();
      var actions := [];
      ghost var absent := Merges.NowAbsent(base, t, deletedObjects);
      assert deletedObjects[0..] == deletedObjects;
      for k := 0 to |deletedObjects|
        invariant match Merges.NowAbsent(base, t, deletedObjects[k..])
                  case Err(e) => absent == Err(e)
                  case Ok(rest) => absent.Ok? && actions + Adds(rest) == Adds(absent.value)
      {
        assert deletedObjects[k..][1..] == deletedObjects[k + 1..];
        ghost var later := Merges.NowAbsent(base, t, deletedObjects[k + 1..]);
        var found := base.Lookup(deletedObjects[k]);
        if found == None {
          return Err(NotFound);
        }
        if found.value.id !in tip.objects {
          if later.Ok? {
            assert Adds([found.value] + later.value) == [Add(found.value)] + Adds(later.value);
          }
          actions := actions + [Add(found.value)];
        }
      }
      assert actions + Adds([]) == actions;
      r := Ok(actions);
    }

    method Revert(tip: Snapshot, commit: Id, parent: Id, order: seq<DataObject>) returns (r: Result<CommitObject>)
      requires Enumerates(order, diff.objects)
      ensures r == Merges.Revert(Value(), tip.Contents(), commit, parent, order)
    {
      var deletes := RevertAdded(tip, order);
      var adds := RevertDeleted(tip);
      if adds.Err? {
        return Err(adds.error);
      }
      var actions := [Commit(commit, parent)] + (deletes + adds.value);
      if |actions| == 1 {
        return Err(EmptyRevert);
      }
      r := Ok(CommitObject(commit, parent, actions));
    }
  }

  /** `order` is the order in which the child's `SelectAll` returns its objects. */
  method Diff(parent: Patch, child: Patch, order: seq<DataObject>) returns (r: Result<Patch>)
    requires Selects(order, child.Value().AsView())
    ensures match Merges.Diff(parent.Value(), child.Value(), order)
            case Err(e) => r == Err(e)
            case Ok(q) => r.Ok? && fresh(r.value) && fresh(r.value.diff) && r.value.Value() == q
  {
    var view := Patched(parent.base, State(parent.diff.objects, parent.diff.vectors));
    var p := new Patch(view);
    var dirty, err := AddNew(p, view, Ids(child.deletedObjects), order);
    if err != None {
      return Err(err.value);
    }
    var deletes := child.deletedObjects;
    err := DeleteKnown(p, view, deletes);
    if err != None {
      return Err(err.value);
    }
    if !dirty && deletes == [] {
      return Err(EmptyDiff);
    }
    r := Ok(p);
  }

  /** The first loop of Diff: adds the child's objects that the parent's view lacks. */
  method AddNew(p: Patch, view: View, deleted: set<Id>, order: seq<DataObject>) returns (dirty: bool, err: Option<Error>)
    modifies p, p.diff
    ensures match Merges.DiffAdds(old(p.Value()), view, deleted, order)
            case Err(e) => err == Some(e)
            case Ok(q) => err == None && p.Value() == q
    ensures err == None ==> (dirty <==> !(forall o :: o in order ==> view.Exists(o.id)))
  {
    dirty, err := false, None;
    assert order[0..] == order;
    for k := 0 to |order|
      invariant err == None
      invariant dirty <==> exists i :: 0 <= i < k && !view.Exists(order[i].id)
      invariant Merges.DiffAdds(old(p.Value()), view, deleted, order) == Merges.DiffAdds(p.Value(), view, deleted, order[k..])
    {
      assert order[k..][1..] == order[k + 1..];
      if !view.Exists(order[k].id) {
        if order[k].id in deleted {
          return dirty, Some(AddConflict);
        }
        err := p.AddDataObject(order[k]);
        if err != None {
          return;
        }
        dirty := true;
      }
    }
  }

  /** The second loop of Diff: deletes what the child deleted, which the parent's view must have. */
  method DeleteKnown(p: Patch, view: View, deletes: seq<Id>) returns (err: Option<Error>)
    modifies p, p.diff
    ensures match Merges.DiffDeletes(old(p.Value()), view, deletes)
            case Err(e) => err == Some(e)
            case Ok(q) => err == None && p.Value() == q
  {
    err := None;
    assert deletes[0..] == deletes;
    for k := 0 to |deletes|
      invariant err == None
      invariant Merges.DiffDeletes(old(p.Value()), view, deletes) == Merges.DiffDeletes(p.Value(), view, deletes[k..])
    {
      assert deletes[k..][1..] == deletes[k + 1..];
      if !view.Exists(deletes[k]) {
        return Some(DeleteConflict);
      }
      err := p.DeleteObject(deletes[k]);
      if err != None {
        return;
      }
    }
  }
}
