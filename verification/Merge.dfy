/** Reverting a commit and merging two branches: what `Revert` and `Diff` make of patches. */
module Merges {
  import opened Wrappers
  import opened Actions
  import opened Patches

  // ---------------------------------------------------------------------------
  // Revert

  /** The net adds of the patch that the tip still has. */
  function StillPresent(tip: State, order: seq<DataObject>): (r: seq<Id>)
    ensures Ids(r) == Ids(IdsOf(order)) * tip.objects.Keys
    ensures Distinct(IdsOf(order)) ==> Distinct(r)
    decreases |order|
  {
    if order == [] then []
    else
      var ids := IdsOf(order);
      var rest := StillPresent(tip, order[1..]);
      assert ids[1..] == IdsOf(order[1..]);
      DistinctHead(ids);
      if order[0].id in tip.objects then
        var r := [order[0].id] + rest;
        assert r[1..] == rest;
        DistinctHead(r);
        assert forall i :: i in rest ==> i in Ids(rest);
        r
      else rest
  }

  /** The net deletes of the patch, as the base had them, that the tip lacks. */
  function NowAbsent(base: View, tip: State, deleted: seq<Id>): Result<seq<DataObject>>
    decreases |deleted|
  {
    if deleted == [] then Ok([])
    else
      match base.Lookup(deleted[0])
      case None => Err(NotFound)
      case Some(o) =>
        match NowAbsent(base, tip, deleted[1..])
        case Err(e) => Err(e)
        case Ok(rest) => Ok(if o.id in tip.objects then rest else [o] + rest)
  }

  function Revert(p: PatchState, tip: State, commit: Id, parent: Id, order: seq<DataObject>): Result<CommitObject> {
    match NowAbsent(p.base, tip, p.deletedObjects)
    case Err(e) => Err(e)
    case Ok(adds) =>
      var deletes := StillPresent(tip, order);
      if deletes == [] && adds == [] then Err(EmptyRevert)
      else Ok(CommitObject(commit, parent, [Commit(commit, parent)] + (Deletes(deletes) + Adds(adds))))
  }

  /** A base's objects under the given ids. */
  ghost function Restored(b: State, ids: set<Id>): map<Id, DataObject> {
    map k | k in b.objects && k in ids :: b.objects[k]
  }

  lemma {:induction false} RestoredCons(b: State, id: Id, ids: set<Id>)
    requires id in b.objects
    ensures Restored(b, {id} + ids) == map[id := b.objects[id]] + Restored(b, ids)
    ensures Restored(b, ids).Keys == b.objects.Keys * ids
  {
  }

  lemma {:induction false} DistinctCons(id: Id, ids: seq<Id>)
    requires id !in Ids(ids) && Distinct(ids)
    ensures Distinct([id] + ids)
  {
    assert ([id] + ids)[1..] == ids;
    DistinctHead([id] + ids);
    assert id in ids ==> id in Ids(ids);
  }

  lemma {:induction false} RestoreOne(b: State, id: Id, ids: set<Id>, rest: seq<DataObject>)
    requires b.WellKeyed() && id in b.objects && id !in ids
    requires Distinct(IdsOf(rest)) && Filed(rest) == Restored(b, ids)
    ensures Distinct(IdsOf([b.objects[id]] + rest)) && Filed([b.objects[id]] + rest) == Restored(b, {id} + ids)
  {
    var all := [b.objects[id]] + rest;
    RestoredCons(b, id, ids);
    FiledKeys(rest);
    assert id !in Ids(IdsOf(rest));
    DistinctCons(id, IdsOf(rest));
    assert IdsOf(all) == [id] + IdsOf(rest);
    assert all[1..] == rest;
  }

  lemma {:induction false} LeftBy(deleted: seq<Id>, tip: State)
    requires deleted != [] && Distinct(deleted)
    ensures deleted[0] !in Ids(deleted[1..]) - tip.objects.Keys && Distinct(deleted[1..])
    ensures Ids(deleted) - tip.objects.Keys ==
              if deleted[0] in tip.objects then Ids(deleted[1..]) - tip.objects.Keys
              else {deleted[0]} + (Ids(deleted[1..]) - tip.objects.Keys)
  {
    DistinctHead(deleted);
    assert deleted[0] in deleted[1..] <==> deleted[0] in Ids(deleted[1..]);
  }

  lemma {:induction false} NowAbsentFiles(b: State, tip: State, deleted: seq<Id>)
    requires b.WellKeyed() && Ids(deleted) <= b.objects.Keys && Distinct(deleted)
    ensures NowAbsent(Base(b), tip, deleted).Ok?
    ensures var adds := NowAbsent(Base(b), tip, deleted).value;
            && Distinct(IdsOf(adds))
            && Filed(adds) == Restored(b, Ids(deleted) - tip.objects.Keys)
    decreases |deleted|
  {
    if deleted != [] {
      var id, tail := deleted[0], deleted[1..];
      LeftBy(deleted, tip);
      DistinctHead(deleted);
      NowAbsentFiles(b, tip, tail);
      if id !in tip.objects {
        RestoreOne(b, id, Ids(tail) - tip.objects.Keys, NowAbsent(Base(b), tip, tail).value);
      }
    }
  }

  /** What a revert leaves: the tip without the commit's net adds, with its net deletes. */
  ghost function RevertedObjects(b: State, p: PatchState, tip: State): map<Id, DataObject> {
    (tip.objects - p.diff.objects.Keys) + Restored(b, Ids(p.deletedObjects) - tip.objects.Keys)
  }

  /**
   For every commit that has a patch over its parent's state `b`, every tip and
   every map order: the revert is refused exactly when there is nothing to undo,
   and otherwise it replays on the tip and undoes the commit's net changes.
   */
  lemma {:induction false} RevertReplays(b: State, p: PatchState, s: State, tip: State, commit: Id, parent: Id, order: seq<DataObject>)
    requires b.WellKeyed() && Tracks(b, p, s) && Enumerates(order, p.diff.objects)
    ensures var r := Revert(p, tip, commit, parent, order);
            && (r == Err(EmptyRevert) <==> p.diff.objects.Keys !! tip.objects.Keys && Ids(p.deletedObjects) <= tip.objects.Keys)
            && (r != Err(EmptyRevert) ==> r.Ok? && r.value.commit == commit && r.value.parent == parent)
            && (r.Ok? ==> Play(tip, r.value.actions) == Ok(State(RevertedObjects(b, p, tip), tip.vectors)))
  {
    var adds, deletes := RevertParts(b, p, s, tip, order);
    NothingToUndo(deletes, adds);
    PlayUndo(tip, deletes, adds, commit, parent);
  }

  /** The tip still has something that the patch adds, or lacks something that it deletes. */
  ghost predicate SomethingToUndo(p: PatchState, tip: State) {
    !(p.diff.objects.Keys !! tip.objects.Keys && Ids(p.deletedObjects) <= tip.objects.Keys)
  }

  /** A revert is refused exactly when there is nothing to undo, whatever was deleted twice. */
  lemma {:induction false} RevertRefused(b: State, p: PatchState, tip: State, commit: Id, parent: Id, order: seq<DataObject>)
    requires b.WellKeyed() && p.base == Base(b) && p.WellFormed() && Enumerates(order, p.diff.objects)
    ensures Revert(p, tip, commit, parent, order).Ok? <==> SomethingToUndo(p, tip)
  {
    assert forall d :: d in p.deletedObjects ==> p.base.Exists(d);
    NowAbsentNone(b, tip, p.deletedObjects);
    FiledKeys(order);
    NothingToUndo(StillPresent(tip, order), []);
  }

  lemma {:induction false} NowAbsentNone(b: State, tip: State, deleted: seq<Id>)
    requires b.WellKeyed() && forall d :: d in deleted ==> d in b.objects
    ensures NowAbsent(Base(b), tip, deleted).Ok?
    ensures NowAbsent(Base(b), tip, deleted).value == [] <==> Ids(deleted) <= tip.objects.Keys
    decreases |deleted|
  {
    if deleted != [] {
      NowAbsentNone(b, tip, deleted[1..]);
      DistinctHead(deleted);
    }
  }

  /** The objects that a revert adds and deletes. */
  lemma {:induction false} RevertParts(b: State, p: PatchState, s: State, tip: State, order: seq<DataObject>)
      returns (adds: seq<DataObject>, deletes: seq<Id>)
    requires b.WellKeyed() && Tracks(b, p, s) && Enumerates(order, p.diff.objects)
    ensures NowAbsent(p.base, tip, p.deletedObjects) == Ok(adds) && deletes == StillPresent(tip, order)
    ensures Distinct(IdsOf(adds)) && Filed(adds) == Restored(b, Ids(p.deletedObjects) - tip.objects.Keys)
    ensures Filed(adds).Keys == Ids(p.deletedObjects) - tip.objects.Keys
    ensures Distinct(deletes) && Ids(deletes) == p.diff.objects.Keys * tip.objects.Keys
    ensures tip.objects - Ids(deletes) == tip.objects - p.diff.objects.Keys
  {
    assert forall d :: d in Ids(p.deletedObjects) ==> p.base.Exists(d);
    assert Ids(p.deletedObjects) <= b.objects.Keys;
    NowAbsentFiles(b, tip, p.deletedObjects);
    adds, deletes := NowAbsent(p.base, tip, p.deletedObjects).value, StillPresent(tip, order);
    FiledKeys(order);
  }

  lemma {:induction false} NothingToUndo(deletes: seq<Id>, adds: seq<DataObject>)
    ensures deletes == [] <==> Ids(deletes) == {}
    ensures adds == [] <==> Filed(adds).Keys == {}
  {
    FiledKeys(adds);
    if deletes != [] {
      assert deletes[0] in Ids(deletes);
    }
    if adds != [] {
      assert IdsOf(adds)[0] in Ids(IdsOf(adds));
    }
  }

  /** Deletes of what is there and then adds of what is not. */
  lemma {:induction false} PlayUndo(tip: State, deletes: seq<Id>, adds: seq<DataObject>, commit: Id, parent: Id)
    requires Distinct(deletes) && Ids(deletes) <= tip.objects.Keys
    requires Distinct(IdsOf(adds)) && Filed(adds).Keys !! tip.objects.Keys - Ids(deletes)
    ensures Play(tip, [Commit(commit, parent)] + (Deletes(deletes) + Adds(adds)))
         == Ok(State((tip.objects - Ids(deletes)) + Filed(adds), tip.vectors))
  {
    var t1 := tip.(objects := tip.objects - Ids(deletes));
    FiledKeys(adds);
    PlayDeletes(tip, deletes);
    PlayAppend(tip, Deletes(deletes), Adds(adds));
    PlayAdds(t1, adds);
    var all := [Commit(commit, parent)] + (Deletes(deletes) + Adds(adds));
    assert all[1..] == Deletes(deletes) + Adds(adds);
  }

  /** Reverting the commit at the tip brings back the objects of its parent. */
  lemma {:induction false} RevertTipRestores(b: State, p: PatchState, s: State)
    requires b.WellKeyed() && Tracks(b, p, s)
    ensures RevertedObjects(b, p, s) == b.objects
  {
    var r := RevertedObjects(b, p, s);
    forall k ensures k in r <==> k in b.objects {
      assert k in p.diff.objects ==> !p.base.Exists(k);
      assert k in p.deletedObjects ==> p.base.Exists(k);
    }
    assert r.Keys == b.objects.Keys;
    forall k | k in b.objects ensures r[k] == b.objects[k] {
      assert k in p.diff.objects ==> !p.base.Exists(k);
    }
  }

  // ---------------------------------------------------------------------------
  // Diff

  function DiffAdds(p: PatchState, parent: View, deleted: set<Id>, order: seq<DataObject>): Result<PatchState>
    decreases |order|
  {
    if order == [] then Ok(p)
    else if parent.Exists(order[0].id) then DiffAdds(p, parent, deleted, order[1..])
    else if order[0].id in deleted then Err(AddConflict)
    else
      match PatchStep(p, Add(order[0]))
      case Err(e) => Err(e)
      case Ok(q) => DiffAdds(q, parent, deleted, order[1..])
  }

  function DiffDeletes(p: PatchState, parent: View, deleted: seq<Id>): Result<PatchState>
    decreases |deleted|
  {
    if deleted == [] then Ok(p)
    else if !parent.Exists(deleted[0]) then Err(DeleteConflict)
    else
      match PatchStep(p, Delete(deleted[0]))
      case Err(e) => Err(e)
      case Ok(q) => DiffDeletes(q, parent, deleted[1..])
  }

  /** `order` is the order in which the child's `SelectAll` returns its objects. */
  function Diff(parent: PatchState, child: PatchState, order: seq<DataObject>): Result<PatchState> {
    var view := parent.AsView();
    match DiffAdds(NewPatchState(view), view, Ids(child.deletedObjects), order)
    case Err(e) => Err(e)
    case Ok(p) =>
      match DiffDeletes(p, view, child.deletedObjects)
      case Err(e) => Err(e)
      case Ok(q) =>
        if child.deletedObjects == [] && (forall o :: o in order ==> view.Exists(o.id)) then Err(EmptyDiff) else Ok(q)
  }

  /** The objects the child adds that the parent has not added too. */
  ghost function NewAdds(parent: PatchState, child: PatchState): map<Id, DataObject> {
    child.diff.objects - parent.diff.objects.Keys
  }

  /** Two patches over the same snapshot, as for two branches and their common ancestor. */
  ghost predicate SharedBase(b: State, parent: PatchState, child: PatchState) {
    parent.base == Base(b) && child.base == Base(b) && parent.WellFormed() && child.WellFormed()
  }

  lemma {:induction false} DiffAddsSkips(p: PatchState, parent: View, deleted: set<Id>, known: seq<DataObject>, rest: seq<DataObject>)
    requires forall o :: o in known ==> parent.Exists(o.id)
    ensures DiffAdds(p, parent, deleted, known + rest) == DiffAdds(p, parent, deleted, rest)
    decreases |known|
  {
    if known == [] {
      assert known + rest == rest;
    } else {
      assert (known + rest)[1..] == known[1..] + rest;
      assert known[0] in known;
      DiffAddsSkips(p, parent, deleted, known[1..], rest);
    }
  }

  lemma {:induction false} WithoutCons<K, V>(k: K, v: V, m: map<K, V>, s: set<K>)
    ensures (map[k := v] + m) - s == if k in s then m - s else map[k := v] + (m - s)
  {
  }

  lemma {:induction false} AddFirst(m: map<Id, DataObject>, id: Id, o: DataObject, more: map<Id, DataObject>)
    requires id !in m
    ensures m[id := o] + more == m + (map[id := o] + more)
    ensures m[id := o].Keys == m.Keys + {id}
  {
  }

  lemma {:induction false} DiffAddsCollects(p: PatchState, parent: View, deleted: set<Id>, order: seq<DataObject>)
    requires p.base == parent && parent.Patched?
    requires Distinct(IdsOf(order)) && Ids(IdsOf(order)) !! p.diff.objects.Keys
    requires forall o :: o in order ==> !parent.base.Exists(o.id) && o.id !in deleted
    ensures DiffAdds(p, parent, deleted, order) ==
            Ok(p.(diff := p.diff.(objects := p.diff.objects + (Filed(order) - parent.diff.objects.Keys))))
    decreases |order|
  {
    var mine := parent.diff.objects.Keys;
    if order == [] {
      assert p.diff.objects + (map[] - mine) == p.diff.objects;
    } else {
      var o, rest := order[0], order[1..];
      assert IdsOf(order)[1..] == IdsOf(rest);
      DistinctHead(IdsOf(order));
      assert o in order && (forall x :: x in rest ==> x in order);
      WithoutCons(o.id, o, Filed(rest), mine);
      if parent.Exists(o.id) {
        DiffAddsCollects(p, parent, deleted, rest);
      } else {
        assert o.id in Ids(IdsOf(order));
        var q := p.(diff := p.diff.(objects := p.diff.objects[o.id := o]));
        assert PatchStep(p, Add(o)) == Ok(q);
        AddFirst(p.diff.objects, o.id, o, Filed(rest) - mine);
        DiffAddsCollects(q, parent, deleted, rest);
      }
    }
  }

  lemma {:induction false} DiffDeletesAll(p: PatchState, parent: View, deleted: seq<Id>)
    requires p.base == parent
    requires forall d :: d in deleted ==> parent.Exists(d) && d !in p.diff.objects
    ensures DiffDeletes(p, parent, deleted) == Ok(p.(deletedObjects := p.deletedObjects + deleted))
    decreases |deleted|
  {
    if deleted == [] {
      assert p.deletedObjects + deleted == p.deletedObjects;
    } else {
      assert deleted[0] in deleted;
      DiffDeletesAll(PatchStep(p, Delete(deleted[0])).value, parent, deleted[1..]);
      assert p.deletedObjects + [deleted[0]] + deleted[1..] == p.deletedObjects + deleted;
    }
  }

  lemma {:induction false} FiledMembers(order: seq<DataObject>)
    ensures forall o :: o in order ==> o.id in Filed(order)
  {
    FiledKeys(order);
    forall o | o in order ensures o.id in Filed(order) {
      var i :| 0 <= i < |order| && order[i] == o;
      assert IdsOf(order)[i] == o.id;
    }
  }

  lemma {:induction false} FiledNonEmpty(order: seq<DataObject>)
    ensures forall k :: k in Filed(order) ==> exists o :: o in order && o.id == k
  {
    FiledKeys(order);
    forall k | k in Filed(order) ensures exists o :: o in order && o.id == k {
      var i :| 0 <= i < |order| && IdsOf(order)[i] == k;
      assert order[i] in order;
    }
  }

  lemma {:induction false} DiffPhases(b: State, parent: PatchState, child: PatchState, known: seq<DataObject>, added: seq<DataObject>)
    requires SharedBase(b, parent, child)
    requires Enumerates(known, b.objects) && Enumerates(added, child.diff.objects)
    ensures DiffAdds(NewPatchState(parent.AsView()), parent.AsView(), Ids(child.deletedObjects), known + added) ==
            Ok(PatchState(parent.AsView(), State(NewAdds(parent, child), {}), [], []))
  {
    var view := parent.AsView();
    var start := NewPatchState(view);
    FiledMembers(known);
    FiledMembers(added);
    forall o | o in known ensures view.Exists(o.id) {
      assert o.id in b.objects;
    }
    DiffAddsSkips(start, view, Ids(child.deletedObjects), known, added);
    DiffAddsCollects(start, view, Ids(child.deletedObjects), added);
    assert map[] + NewAdds(parent, child) == NewAdds(parent, child);
  }

  lemma {:induction false} DiffIsDirty(b: State, parent: PatchState, child: PatchState, known: seq<DataObject>, added: seq<DataObject>)
    requires SharedBase(b, parent, child)
    requires Enumerates(known, b.objects) && Enumerates(added, child.diff.objects)
    ensures (forall o :: o in known + added ==> parent.AsView().Exists(o.id)) <==> NewAdds(parent, child) == map[]
  {
    var view, news := parent.AsView(), NewAdds(parent, child);
    FiledMembers(known);
    FiledMembers(added);
    FiledNonEmpty(added);
    if news != map[] {
      var k :| k in news;
      var o :| o in added && o.id == k;
      assert o in known + added && !view.Exists(o.id);
    } else {
      forall o | o in known + added ensures view.Exists(o.id) {
        assert o in known || o in added;
        assert o.id in child.diff.objects && o.id !in news ==> o.id in parent.diff.objects;
      }
    }
  }

  /**
   With a shared base, `Diff` fails only when there is nothing to merge: neither
   of its conflict errors can occur.  Otherwise it holds the child's deletes and
   the child's adds that are new to the parent, whatever the map order.
   */
  lemma {:induction false} DiffOfSharedBase(b: State, parent: PatchState, child: PatchState, order: seq<DataObject>)
    requires SharedBase(b, parent, child) && Selects(order, child.AsView())
    ensures Diff(parent, child, order) ==
            if NewAdds(parent, child) == map[] && child.deletedObjects == [] then Err(EmptyDiff)
            else Ok(PatchState(parent.AsView(), State(NewAdds(parent, child), {}), child.deletedObjects, []))
  {
    var n :| 0 <= n <= |order| && Selects(order[..n], Base(b)) && Enumerates(order[n..], child.diff.objects);
    assert order == order[..n] + order[n..];
    DiffOfParts(b, parent, child, order[..n], order[n..]);
  }

  /** The same, with the base's objects before those of the child's own. */
  lemma {:induction false} DiffOfParts(b: State, parent: PatchState, child: PatchState, known: seq<DataObject>, added: seq<DataObject>)
    requires SharedBase(b, parent, child) && Selects(known, Base(b)) && Enumerates(added, child.diff.objects)
    ensures Diff(parent, child, known + added) ==
            if NewAdds(parent, child) == map[] && child.deletedObjects == [] then Err(EmptyDiff)
            else Ok(PatchState(parent.AsView(), State(NewAdds(parent, child), {}), child.deletedObjects, []))
  {
    DiffPhases(b, parent, child, known, added);
    DiffDeletesAll(PatchState(parent.AsView(), State(NewAdds(parent, child), {}), [], []), parent.AsView(), child.deletedObjects);
    assert [] + child.deletedObjects == child.deletedObjects;
    DiffIsDirty(b, parent, child, known, added);
  }

  /**
   When the merge commit replays.  It replays on the parent's tip if and only if
   the child deletes nothing twice and the two sides deleted different base
   objects; it then leaves the parent's objects minus the child's deletes plus
   the child's new adds, and the parent's vectors.
   */
  lemma {:induction false} MergeReplays(b: State, parent: PatchState, child: PatchState, order: seq<DataObject>,
                     commit: Id, onto: Id, adds: seq<DataObject>)
    requires SharedBase(b, parent, child) && Selects(order, child.AsView())
    requires Diff(parent, child, order).Ok? && Enumerates(adds, NewAdds(parent, child))
    ensures var d := Diff(parent, child, order).value;
            var tip := parent.Applied(b);
            var r := Play(tip, CommitActions(d, commit, onto, adds, []));
            && (r.Ok? <==> Distinct(child.deletedObjects) && Ids(child.deletedObjects) !! Ids(parent.deletedObjects))
            && (r.Ok? ==> r.value == State((tip.objects - Ids(child.deletedObjects)) + NewAdds(parent, child), tip.vectors))
  {
    DiffOfSharedBase(b, parent, child, order);
    var d := Diff(parent, child, order).value;
    var tip := parent.Applied(b);
    PlayCommit(d, tip, commit, onto, adds, []);
    assert forall k :: k in child.diff.objects ==> !child.base.Exists(k);
    assert forall k :: k in child.deletedObjects ==> child.base.Exists(k);
    assert forall k :: k in parent.diff.objects ==> !parent.base.Exists(k);
    assert tip.vectors - Ids([]) + {} == tip.vectors;
    assert Ids(child.deletedObjects) <= tip.objects.Keys <==> Ids(child.deletedObjects) !! Ids(parent.deletedObjects);
  }

  /** Both sides deleting the same object is such a case: `Diff` accepts it and its commit does not replay. */
  lemma {:induction false} MergeMissesDeleteConflict(o: DataObject)
    ensures var b := State(map[o.id := o], {});
            var side := PatchPlay(NewPatchState(Base(b)), [Delete(o.id)]);
            && side.Ok?
            && Diff(side.value, side.value, [o]).Ok?
            && Play(side.value.Applied(b), CommitActions(Diff(side.value, side.value, [o]).value, 2, 1, [], [])).Err?
  {
    var b := State(map[o.id := o], {});
    SquashExact(b, [Delete(o.id)]);
    var p := PatchState(Base(b), EMPTY, [o.id], []);
    assert [] + [o.id] == [o.id];
    assert PatchPlay(NewPatchState(Base(b)), [Delete(o.id)]) == Ok(p);
    assert Enumerates([o], b.objects);
    assert [o][..1] == [o] && [o][1..] == [] && Selects([o][..1], Base(b)) && Enumerates([o][1..], EMPTY.objects);
    assert Selects([o], p.AsView());
    DiffOfSharedBase(b, p, p, [o]);
    assert o.id in Ids([o.id]);
    MergeReplays(b, p, p, [o], 2, 1, []);
  }

  // ---------------------------------------------------------------------------
  // The merge as a three-way merge of states

  /** What one side deleted since the base. */
  ghost function NetDeletes(b: State, s: State): set<Id> {
    b.objects.Keys - s.objects.Keys
  }

  /** The parent's objects, without what the child deleted and with what only the child added. */
  ghost function ThreeWay(b: State, parent: State, child: State): State {
    State((parent.objects - NetDeletes(b, child)) + (child.objects - (b.objects.Keys + parent.objects.Keys)),
          parent.vectors)
  }

  lemma {:induction false} TracksNet(b: State, p: PatchState, s: State)
    requires Tracks(b, p, s)
    ensures Ids(p.deletedObjects) == NetDeletes(b, s)
    ensures p.diff.objects == s.objects - b.objects.Keys
  {
    assert forall k :: k in p.diff.objects ==> !p.base.Exists(k);
    assert forall k :: k in p.deletedObjects ==> p.base.Exists(k);
  }

  lemma {:induction false} NewAddsNet(b: State, parent: PatchState, ps: State, child: PatchState, cs: State)
    requires Tracks(b, parent, ps) && Tracks(b, child, cs)
    ensures NewAdds(parent, child) == cs.objects - (b.objects.Keys + ps.objects.Keys)
  {
    TracksNet(b, parent, ps);
    TracksNet(b, child, cs);
  }

  /** A successful `Diff` of the two sides merges their states, if and only if they deleted different objects. */
  lemma {:induction false} MergeIsThreeWay(b: State, parent: PatchState, ps: State, child: PatchState, cs: State, order: seq<DataObject>,
                        commit: Id, onto: Id, adds: seq<DataObject>)
    requires Tracks(b, parent, ps) && Tracks(b, child, cs) && Selects(order, child.AsView())
    requires Diff(parent, child, order).Ok? && Enumerates(adds, Diff(parent, child, order).value.diff.objects)
    ensures Diff(parent, child, order).value.diff.vectors == {}
    ensures var r := Play(ps, CommitActions(Diff(parent, child, order).value, commit, onto, adds, []));
            && (r.Ok? <==> NetDeletes(b, cs) !! NetDeletes(b, ps))
            && (r.Ok? ==> r.value == ThreeWay(b, ps, cs))
  {
    DiffOfSharedBase(b, parent, child, order);
    var d := Diff(parent, child, order).value;
    assert d.diff.objects == NewAdds(parent, child);
    MergeReplays(b, parent, child, order, commit, onto, adds);
    TracksNet(b, parent, ps);
    TracksNet(b, child, cs);
    NewAddsNet(b, parent, ps, child, cs);
  }

  /** There is something to merge exactly when the child deleted something or added something the parent lacks. */
  lemma {:induction false} MergeIsEmpty(b: State, parent: PatchState, ps: State, child: PatchState, cs: State, order: seq<DataObject>)
    requires Tracks(b, parent, ps) && Tracks(b, child, cs) && Selects(order, child.AsView())
    ensures Diff(parent, child, order).Ok? || Diff(parent, child, order) == Err(EmptyDiff)
    ensures Diff(parent, child, order) == Err(EmptyDiff) <==>
              NetDeletes(b, cs) == {} && cs.objects.Keys <= b.objects.Keys + ps.objects.Keys
  {
    DiffOfSharedBase(b, parent, child, order);
    TracksNet(b, parent, ps);
    TracksNet(b, child, cs);
    if child.deletedObjects != [] { assert child.deletedObjects[0] in Ids(child.deletedObjects); }
    var news := NewAdds(parent, child);
    assert news.Keys == cs.objects.Keys - (b.objects.Keys + ps.objects.Keys);
    assert news == map[] <==> news.Keys == {};
  }
}
