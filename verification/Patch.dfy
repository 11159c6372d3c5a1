/**
 Patches: the difference between a base view and a patched one.

 `PatchState` and the functions on it say what the operations of a patch compute;
 class `Patch` is the mutable patch itself.  The theorems are about when playing
 actions into a patch is the same as replaying them, and about when the commit
 object made from a patch replays.
 */
module Patches {
  import opened Wrappers
  import opened Actions
  import opened Snapshots

  /** What a patch can be based on: a snapshot, or another patch. */
  datatype View = Base(state: State) | Patched(base: View, diff: State) {

    function Lookup(id: Id): Option<DataObject> {
      match this
      case Base(s) => if id in s.objects then Some(s.objects[id]) else None
      case Patched(b, d) => if id in d.objects then Some(d.objects[id]) else b.Lookup(id)
    }

    predicate Exists(id: Id) {
      Lookup(id) != None
    }

    predicate HasVector(id: Id) {
      match this
      case Base(s) => id in s.vectors
      case Patched(b, d) => id in d.vectors || b.HasVector(id)
    }
  }

  /** An order in which `SelectAll` can return the objects of `v`: layer by layer. */
  ghost predicate Selects(order: seq<DataObject>, v: View)
    decreases v
  {
    match v
    case Base(s) => Enumerates(order, s.objects)
    case Patched(b, d) =>
      exists n :: 0 <= n <= |order| && Selects(order[..n], b) && Enumerates(order[n..], d.objects)
  }

  datatype PatchState = PatchState(base: View, diff: State, deletedObjects: seq<Id>, deletedVectors: seq<Id>) {

    function AsView(): View {
      Patched(base, diff)
    }

    /** What every patch satisfies however its methods are called. */
    ghost predicate WellFormed() {
      && (forall k :: k in diff.objects ==> diff.objects[k].id == k && !base.Exists(k))
      && (forall v :: v in diff.vectors ==> !base.HasVector(v))
      && (forall d :: d in deletedObjects ==> base.Exists(d))
      && (forall d :: d in deletedVectors ==> base.HasVector(d))
    }

    /** The state a patch over snapshot `b` stands for. */
    ghost function Applied(b: State): State {
      State((b.objects - Ids(deletedObjects)) + diff.objects,
            (b.vectors - Ids(deletedVectors)) + diff.vectors)
    }
  }

  function NewPatchState(base: View): PatchState {
    PatchState(base, EMPTY, [], [])
  }

  function PatchStep(p: PatchState, a: Action): Result<PatchState> {
    match a
    case Commit(_, _) => Ok(p)
    case Add(o) =>
      if p.base.Exists(o.id) then Err(Error.Exists) else InDiff(p, Step(p.diff, a))
    case Delete(id) =>
      if id in p.diff.objects then InDiff(p, Step(p.diff, a))
      else if !p.base.Exists(id) then Err(NotFound)
      else Ok(p.(deletedObjects := p.deletedObjects + [id]))
    case AddVector(id) =>
      if p.AsView().HasVector(id) then Err(Error.Exists) else InDiff(p, Step(p.diff, a))
    case DeleteVector(id) =>
      if id in p.diff.vectors then InDiff(p, Step(p.diff, a))
      else if !p.base.HasVector(id) then Err(NotFound)
      else Ok(p.(deletedVectors := p.deletedVectors + [id]))
  }

  function InDiff(p: PatchState, r: Result<State>): Result<PatchState> {
    match r
    case Ok(d) => Ok(p.(diff := d))
    case Err(e) => Err(e)
  }

  function PatchPlay(p: PatchState, actions: seq<Action>): Result<PatchState>
    decreases |actions|
  {
    if actions == [] then Ok(p)
    else
      match PatchStep(p, actions[0])
      case Ok(q) => PatchPlay(q, actions[1..])
      case Err(e) => Err(e)
  }

  lemma {:induction false} PatchStepKeeps(p: PatchState, a: Action)
    requires p.WellFormed() && PatchStep(p, a).Ok?
    ensures PatchStep(p, a).value.WellFormed()
    ensures PatchStep(p, a).value.base == p.base
  {
  }

  /** Whatever is played into a patch, it stays well formed over the same base. */
  lemma {:induction false} PatchPlayKeeps(p: PatchState, actions: seq<Action>)
    requires p.WellFormed() && PatchPlay(p, actions).Ok?
    ensures PatchPlay(p, actions).value.WellFormed()
    ensures PatchPlay(p, actions).value.base == p.base
    decreases |actions|
  {
    if actions != [] {
      PatchStepKeeps(p, actions[0]);
      PatchPlayKeeps(PatchStep(p, actions[0]).value, actions[1..]);
    }
  }

  lemma {:induction false} PatchPlayAppend(p: PatchState, a: seq<Action>, b: seq<Action>)
    ensures PatchPlay(p, a + b) ==
            match PatchPlay(p, a) case Ok(q) => PatchPlay(q, b) case Err(e) => Err(e)
    decreases |a|
  {
    if a == [] {
      assert a + b == b;
    } else {
      assert (a + b)[1..] == a[1..] + b;
      match PatchStep(p, a[0])
      case Ok(q) => PatchPlayAppend(q, a[1..], b);
      case Err(_) =>
    }
  }

  // ---------------------------------------------------------------------------
  // Squashing: playing actions into a patch against replaying them on its base.

  /** No action adds an object or a vector that the base already has. */
  ghost predicate NeverReAdds(b: State, actions: seq<Action>) {
    forall a :: a in actions ==>
      && (a.Add? ==> a.added.id !in b.objects)
      && (a.AddVector? ==> a.id !in b.vectors)
  }

  /** Patch `p` over `b` has recorded exactly the way from `b` to `s`. */
  ghost predicate Tracks(b: State, p: PatchState, s: State) {
    && p.base == Base(b)
    && p.WellFormed()
    && Distinct(p.deletedObjects)
    && Distinct(p.deletedVectors)
    && s == p.Applied(b)
  }

  lemma {:induction false} NewPatchTracks(b: State)
    ensures Tracks(b, NewPatchState(Base(b)), b)
  {
    var p := NewPatchState(Base(b));
    assert b.objects - Ids([]) + map[] == b.objects;
    assert b.vectors - Ids([]) + {} == b.vectors;
    assert p.Applied(b) == b;
  }

  lemma {:induction false} DistinctSnoc(ids: seq<Id>, id: Id)
    ensures Distinct(ids + [id]) <==> Distinct(ids) && id !in ids
    ensures Ids(ids + [id]) == Ids(ids) + {id}
  {
    var r := ids + [id];
    assert forall i :: 0 <= i < |ids| ==> r[i] == ids[i];
    assert r[|ids|] == id;
  }

  lemma {:induction false} SquashObjectStep(b: State, p: PatchState, s: State, a: Action)
    requires a.Add? || a.Delete?
    requires Tracks(b, p, s) && Step(s, a).Ok?
    ensures PatchStep(p, a).Ok? <==> NeverReAdds(b, [a])
    ensures PatchStep(p, a).Ok? ==> Tracks(b, PatchStep(p, a).value, Step(s, a).value)
  {
    assert a in [a];
    if PatchStep(p, a).Ok? {
      PatchStepKeeps(p, a);
      if a.Add? {
        AppliedAdd(b, p, a.added);
      } else {
        AppliedDelete(b, p, a.id);
      }
    }
  }

  /** An object that the base lacks is added to what the patch stands for. */
  lemma {:induction false} AppliedAdd(b: State, p: PatchState, o: DataObject)
    requires p.base == Base(b)
    ensures p.(diff := p.diff.(objects := p.diff.objects[o.id := o])).Applied(b).objects == p.Applied(b).objects[o.id := o]
  {
  }

  lemma {:induction false} AppliedDelete(b: State, p: PatchState, id: Id)
    requires p.base == Base(b) && p.WellFormed() && Distinct(p.deletedObjects) && PatchStep(p, Delete(id)).Ok?
    requires id in p.Applied(b).objects
    ensures PatchStep(p, Delete(id)).value.Applied(b).objects == p.Applied(b).objects - {id}
    ensures Distinct(PatchStep(p, Delete(id)).value.deletedObjects)
  {
    DistinctSnoc(p.deletedObjects, id);
    assert id in p.deletedObjects <==> id in Ids(p.deletedObjects);
  }

  lemma {:induction false} SquashVectorStep(b: State, p: PatchState, s: State, a: Action)
    requires a.AddVector? || a.DeleteVector?
    requires Tracks(b, p, s) && Step(s, a).Ok?
    ensures PatchStep(p, a).Ok? <==> NeverReAdds(b, [a])
    ensures PatchStep(p, a).Ok? ==> Tracks(b, PatchStep(p, a).value, Step(s, a).value)
  {
    assert a in [a];
    assert p.AsView().HasVector(a.id) <==> a.id in p.diff.vectors || a.id in b.vectors;
    if PatchStep(p, a).Ok? {
      PatchStepKeeps(p, a);
      var q := PatchStep(p, a).value;
      if a.DeleteVector? && a.id !in p.diff.vectors {
        DistinctSnoc(p.deletedVectors, a.id);
      }
      assert Step(s, a).value.vectors == q.Applied(b).vectors;
    }
  }

  lemma {:induction false} SquashFrom(b: State, p: PatchState, s: State, actions: seq<Action>)
    requires Tracks(b, p, s) && Play(s, actions).Ok?
    ensures PatchPlay(p, actions).Ok? <==> NeverReAdds(b, actions)
    ensures PatchPlay(p, actions).Ok? ==> Tracks(b, PatchPlay(p, actions).value, Play(s, actions).value)
    decreases |actions|
  {
    if actions != [] {
      var a, rest := actions[0], actions[1..];
      if a.Add? || a.Delete? {
        SquashObjectStep(b, p, s, a);
      } else if a.AddVector? || a.DeleteVector? {
        SquashVectorStep(b, p, s, a);
      }
      assert actions == [a] + rest;
      if PatchStep(p, a).Ok? {
        SquashFrom(b, PatchStep(p, a).value, Step(s, a).value, rest);
        assert NeverReAdds(b, actions) <==> NeverReAdds(b, rest);
      } else {
        assert a in actions && !NeverReAdds(b, [a]);
      }
    }
  }

  /**
   Squashing is exact.  Actions that replay on a base play into a patch over it
   if and only if they never add back something the base has, and then the patch
   stands for the state that the replay reaches.
   */
  lemma {:induction false} SquashExact(b: State, actions: seq<Action>)
    requires Play(b, actions).Ok?
    ensures var r := PatchPlay(NewPatchState(Base(b)), actions);
            && (r.Ok? <==> NeverReAdds(b, actions))
            && (r.Ok? ==> Tracks(b, r.value, Play(b, actions).value))
  {
    NewPatchTracks(b);
    SquashFrom(b, NewPatchState(Base(b)), b, actions);
  }

  lemma {:induction false} DeletesGrow(p: PatchState, actions: seq<Action>)
    requires PatchPlay(p, actions).Ok?
    ensures p.deletedObjects <= PatchPlay(p, actions).value.deletedObjects
    ensures p.deletedVectors <= PatchPlay(p, actions).value.deletedVectors
    decreases |actions|
  {
    if actions != [] {
      DeletesGrow(PatchStep(p, actions[0]).value, actions[1..]);
    }
  }

  lemma {:induction false} AcceptedStep(b: State, p: PatchState, s: State, a: Action)
    requires Tracks(b, p, s) && PatchStep(p, a).Ok?
    requires Distinct(PatchStep(p, a).value.deletedObjects) && Distinct(PatchStep(p, a).value.deletedVectors)
    ensures Step(s, a).Ok?
  {
    match a
    case Delete(id) =>
      if id !in p.diff.objects {
        DistinctSnoc(p.deletedObjects, id);
      }
    case DeleteVector(id) =>
      if id !in p.diff.vectors {
        DistinctSnoc(p.deletedVectors, id);
      }
    case AddVector(id) => assert p.AsView().HasVector(id) <==> id in p.diff.vectors || id in b.vectors;
    case _ =>
  }

  /** Actions that a patch accepts without deleting something twice replay on its base. */
  lemma {:induction false} AcceptedReplays(b: State, p: PatchState, s: State, actions: seq<Action>)
    requires Tracks(b, p, s) && PatchPlay(p, actions).Ok?
    requires Distinct(PatchPlay(p, actions).value.deletedObjects) && Distinct(PatchPlay(p, actions).value.deletedVectors)
    ensures Play(s, actions).Ok?
    decreases |actions|
  {
    if actions != [] {
      var a, rest := actions[0], actions[1..];
      var q := PatchStep(p, a).value;
      DeletesGrow(q, rest);
      AcceptedStep(b, p, s, a);
      if a.Add? || a.Delete? {
        SquashObjectStep(b, p, s, a);
      } else if a.AddVector? || a.DeleteVector? {
        SquashVectorStep(b, p, s, a);
      }
      AcceptedReplays(b, q, Step(s, a).value, rest);
    }
  }

  // ---------------------------------------------------------------------------
  // Commit objects made from patches.

  function CommitActions(p: PatchState, commit: Id, parent: Id, order: seq<DataObject>, vectorOrder: seq<Id>): seq<Action> {
    [Commit(commit, parent)] + (Deletes(p.deletedObjects) + (Adds(order)
      + (DeleteVectors(p.deletedVectors) + AddVectors(vectorOrder))))
  }

  /** The states on which the commit object of `p` replays. */
  ghost predicate Fits(p: PatchState, t: State) {
    && Distinct(p.deletedObjects)
    && Ids(p.deletedObjects) <= t.objects.Keys
    && p.diff.objects.Keys !! t.objects.Keys - Ids(p.deletedObjects)
    && Distinct(p.deletedVectors)
    && Ids(p.deletedVectors) <= t.vectors
    && p.diff.vectors !! t.vectors - Ids(p.deletedVectors)
  }

  /**
   For every order of the maps, the commit object of a patch replays on a state
   exactly when the patch fits it, and yields the patch applied to that state.
   */
  lemma {:induction false} PlayCommit(p: PatchState, t: State, commit: Id, parent: Id, order: seq<DataObject>, vectorOrder: seq<Id>)
    requires Enumerates(order, p.diff.objects) && EnumeratesIds(vectorOrder, p.diff.vectors)
    ensures var r := Play(t, CommitActions(p, commit, parent, order, vectorOrder));
            && (r.Ok? <==> Fits(p, t))
            && (r.Ok? ==> r.value == p.Applied(t))
  {
    FiledKeys(order);
    var d, a := Deletes(p.deletedObjects), Adds(order);
    var dv, av := DeleteVectors(p.deletedVectors), AddVectors(vectorOrder);
    var all := CommitActions(p, commit, parent, order, vectorOrder);
    assert all[1..] == d + (a + (dv + av));
    PlayAppend(t, d, a + (dv + av));
    PlayDeletes(t, p.deletedObjects);
    if Play(t, d).Ok? {
      var t1 := Play(t, d).value;
      PlayAppend(t1, a, dv + av);
      PlayAdds(t1, order);
      if Play(t1, a).Ok? {
        var t2 := Play(t1, a).value;
        PlayAppend(t2, dv, av);
        PlayDeleteVectors(t2, p.deletedVectors);
        if Play(t2, dv).Ok? {
          PlayAddVectors(Play(t2, dv).value, vectorOrder);
        }
      }
    }
  }

  /** The commit object made from a patch replays on the patch's own base unless it deletes something twice. */
  lemma {:induction false} CommitReplaysOnBase(b: State, p: PatchState, commit: Id, parent: Id, order: seq<DataObject>, vectorOrder: seq<Id>)
    requires p.base == Base(b) && p.WellFormed()
    requires Enumerates(order, p.diff.objects) && EnumeratesIds(vectorOrder, p.diff.vectors)
    ensures var r := Play(b, CommitActions(p, commit, parent, order, vectorOrder));
            && (r.Ok? <==> Distinct(p.deletedObjects) && Distinct(p.deletedVectors))
            && (r.Ok? ==> r.value == p.Applied(b))
  {
    PlayCommit(p, b, commit, parent, order, vectorOrder);
    assert forall k :: k in p.diff.objects ==> !p.base.Exists(k);
    assert forall v :: v in p.diff.vectors ==> !p.base.HasVector(v);
  }

  /** Squashing and replaying the squashed commit object reaches what the actions reach. */
  lemma {:induction false} SquashRoundTrip(b: State, actions: seq<Action>, commit: Id, parent: Id, order: seq<DataObject>, vectorOrder: seq<Id>)
    requires Play(b, actions).Ok? && NeverReAdds(b, actions)
    ensures PatchPlay(NewPatchState(Base(b)), actions).Ok?
    ensures var p := PatchPlay(NewPatchState(Base(b)), actions).value;
            Enumerates(order, p.diff.objects) && EnumeratesIds(vectorOrder, p.diff.vectors) ==>
              Play(b, CommitActions(p, commit, parent, order, vectorOrder)) == Play(b, actions)
  {
    SquashExact(b, actions);
    var p := PatchPlay(NewPatchState(Base(b)), actions).value;
    if Enumerates(order, p.diff.objects) && EnumeratesIds(vectorOrder, p.diff.vectors) {
      CommitReplaysOnBase(b, p, commit, parent, order, vectorOrder);
    }
  }
}
