/**
 Commit objects and the actions they record, and what it means to replay them.

 A pool's state is the set of live data objects and the set of data objects that
 have a vector.  `Step` and `Play` give the meaning of an action list on such a
 state; everything else about the commit log is stated in terms of them.
 */
module Actions {

  /** A ksuid.  `NIL` is the zero ksuid, which is the parent of a first commit. */
  type Id = nat
  const NIL: Id := 0

  /** A data object: its id, and the remaining metadata kept opaque. */
  datatype DataObject = DataObject(id: Id, meta: int)

  datatype Action =
    | Commit(commit: Id, parent: Id)
    | Add(added: DataObject)
    | Delete(id: Id)
    | AddVector(id: Id)
    | DeleteVector(id: Id)

  datatype CommitObject = CommitObject(commit: Id, parent: Id, actions: seq<Action>)

  datatype Error =
    | WriteConflict | Exists | NotFound
    | EmptyRevert | EmptyDiff | DeleteConflict | AddConflict
    | NoPath | NoCommonAncestor | NoRollup

  datatype Result<+T> = Ok(value: T) | Err(error: Error)

  datatype State = State(objects: map<Id, DataObject>, vectors: set<Id>) {
    /** Every object is filed under its own id. */
    ghost predicate WellKeyed() {
      forall k :: k in objects ==> objects[k].id == k
    }
  }

  const EMPTY: State := State(map[], {})

  function Step(s: State, a: Action): Result<State> {
    match a
    case Commit(_, _) => Ok(s)
    case Add(o) =>
      if o.id in s.objects then Err(WriteConflict) else Ok(s.(objects := s.objects[o.id := o]))
    case Delete(id) =>
      if id in s.objects then Ok(s.(objects := s.objects - {id})) else Err(WriteConflict)
    case AddVector(id) =>
      if id in s.vectors then Err(WriteConflict) else Ok(s.(vectors := s.vectors + {id}))
    case DeleteVector(id) =>
      if id in s.vectors then Ok(s.(vectors := s.vectors - {id})) else Err(WriteConflict)
  }

  function Play(s: State, actions: seq<Action>): Result<State>
    decreases |actions|
  {
    if actions == [] then Ok(s)
    else
      match Step(s, actions[0])
      case Ok(t) => Play(t, actions[1..])
      case Err(e) => Err(e)
  }

  lemma {:induction false} PlayAppend(s: State, a: seq<Action>, b: seq<Action>)
    ensures Play(s, a + b) == match Play(s, a) case Ok(t) => Play(t, b) case Err(e) => Err(e)
    decreases |a|
  {
    if a == [] {
      assert a + b == b;
    } else {
      assert (a + b)[1..] == a[1..] + b;
      match Step(s, a[0])
      case Ok(t) => PlayAppend(t, a[1..], b);
      case Err(_) =>
    }
  }

  lemma {:induction false} PlayWellKeyed(s: State, actions: seq<Action>)
    requires s.WellKeyed()
    ensures Play(s, actions).Ok? ==> Play(s, actions).value.WellKeyed()
    decreases |actions|
  {
    if actions != [] && Step(s, actions[0]).Ok? {
      PlayWellKeyed(Step(s, actions[0]).value, actions[1..]);
    }
  }

  // Action lists that delete or add one thing after another.

  function Ids(ids: seq<Id>): (r: set<Id>) {
    set i | i in ids
  }

  ghost predicate Distinct(ids: seq<Id>) {
    forall i, j :: 0 <= i < j < |ids| ==> ids[i] != ids[j]
  }

  function IdsOf(objects: seq<DataObject>): (r: seq<Id>)
    ensures |r| == |objects|
    ensures forall i :: 0 <= i < |r| ==> r[i] == objects[i].id
  {
    seq(|objects|, i requires 0 <= i < |objects| => objects[i].id)
  }

  function Filed(objects: seq<DataObject>): map<Id, DataObject> {
    if objects == [] then map[]
    else map[objects[0].id := objects[0]] + Filed(objects[1..])
  }

  function Adds(objects: seq<DataObject>): (r: seq<Action>)
    ensures |r| == |objects|
  {
    seq(|objects|, i requires 0 <= i < |objects| => Add(objects[i]))
  }

  function Deletes(ids: seq<Id>): (r: seq<Action>)
    ensures |r| == |ids|
  {
    seq(|ids|, i requires 0 <= i < |ids| => Delete(ids[i]))
  }

  function AddVectors(ids: seq<Id>): (r: seq<Action>)
    ensures |r| == |ids|
  {
    seq(|ids|, i requires 0 <= i < |ids| => AddVector(ids[i]))
  }

  function DeleteVectors(ids: seq<Id>): (r: seq<Action>)
    ensures |r| == |ids|
  {
    seq(|ids|, i requires 0 <= i < |ids| => DeleteVector(ids[i]))
  }

  /** An order in which a Go map with these entries can be ranged over. */
  ghost predicate Enumerates(order: seq<DataObject>, m: map<Id, DataObject>) {
    Distinct(IdsOf(order)) && Filed(order) == m
  }

  ghost predicate EnumeratesIds(order: seq<Id>, s: set<Id>) {
    Distinct(order) && Ids(order) == s
  }

  lemma {:induction false} FiledKeys(objects: seq<DataObject>)
    ensures Filed(objects).Keys == Ids(IdsOf(objects))
  {
    if objects != [] {
      FiledKeys(objects[1..]);
      assert IdsOf(objects) == [objects[0].id] + IdsOf(objects[1..]);
    }
  }

  lemma {:induction false} DistinctHead(ids: seq<Id>)
    requires ids != []
    ensures Distinct(ids) <==> ids[0] !in ids[1..] && Distinct(ids[1..])
    ensures Ids(ids) == {ids[0]} + Ids(ids[1..])
  {
    var tail := ids[1..];
    if Distinct(ids) {
      assert forall i :: 0 <= i < |tail| ==> tail[i] == ids[i + 1];
    }
    if ids[0] !in tail && Distinct(tail) {
      forall i, j | 0 <= i < j < |ids| ensures ids[i] != ids[j] {
        assert ids[j] == tail[j - 1];
        if i > 0 { assert ids[i] == tail[i - 1]; }
      }
    }
  }

  /** A list of deletes replays exactly when its ids are distinct and all present. */
  lemma {:induction false} PlayDeletes(s: State, ids: seq<Id>)
    ensures Play(s, Deletes(ids)).Ok? <==> Distinct(ids) && Ids(ids) <= s.objects.Keys
    ensures Play(s, Deletes(ids)).Ok? ==>
              Play(s, Deletes(ids)).value == s.(objects := s.objects - Ids(ids))
    decreases |ids|
  {
    if ids == [] {
      assert s.objects - Ids(ids) == s.objects;
    } else {
      DistinctHead(ids);
      assert Deletes(ids)[1..] == Deletes(ids[1..]);
      if ids[0] in s.objects {
        var t := s.(objects := s.objects - {ids[0]});
        PlayDeletes(t, ids[1..]);
        assert t.objects - Ids(ids[1..]) == s.objects - Ids(ids);
      }
    }
  }

  /** A list of adds replays exactly when its ids are distinct and all absent. */
  lemma {:induction false} FileFirst(m: map<Id, DataObject>, o: DataObject, tail: seq<DataObject>)
    requires o.id !in m
    ensures m[o.id := o].Keys == m.Keys + {o.id}
    ensures m[o.id := o] + Filed(tail) == m + Filed([o] + tail)
  {
    assert ([o] + tail)[1..] == tail;
  }

  lemma {:induction false} PlayAdds(s: State, objects: seq<DataObject>)
    ensures Play(s, Adds(objects)).Ok? <==>
              Distinct(IdsOf(objects)) && Ids(IdsOf(objects)) !! s.objects.Keys
    ensures Play(s, Adds(objects)).Ok? ==>
              Play(s, Adds(objects)).value == s.(objects := s.objects + Filed(objects))
    decreases |objects|
  {
    if objects == [] {
      assert s.objects + Filed(objects) == s.objects;
    } else {
      var o, tail, ids := objects[0], objects[1..], IdsOf(objects);
      DistinctHead(ids);
      assert ids[1..] == IdsOf(tail);
      assert Adds(objects)[1..] == Adds(tail) && [o] + tail == objects;
      if o.id !in s.objects {
        var t := s.(objects := s.objects[o.id := o]);
        PlayAdds(t, tail);
        FileFirst(s.objects, o, tail);
      } else {
        assert o.id in Ids(ids);
      }
    }
  }

  lemma {:induction false} PlayDeleteVectors(s: State, ids: seq<Id>)
    ensures Play(s, DeleteVectors(ids)).Ok? <==> Distinct(ids) && Ids(ids) <= s.vectors
    ensures Play(s, DeleteVectors(ids)).Ok? ==>
              Play(s, DeleteVectors(ids)).value == s.(vectors := s.vectors - Ids(ids))
    decreases |ids|
  {
    if ids == [] {
      assert s.vectors - Ids(ids) == s.vectors;
    } else {
      DistinctHead(ids);
      assert DeleteVectors(ids)[1..] == DeleteVectors(ids[1..]);
      if ids[0] in s.vectors {
        var t := s.(vectors := s.vectors - {ids[0]});
        PlayDeleteVectors(t, ids[1..]);
        assert t.vectors - Ids(ids[1..]) == s.vectors - Ids(ids);
      }
    }
  }

  lemma {:induction false} PlayAddVectors(s: State, ids: seq<Id>)
    ensures Play(s, AddVectors(ids)).Ok? <==> Distinct(ids) && Ids(ids) !! s.vectors
    ensures Play(s, AddVectors(ids)).Ok? ==>
              Play(s, AddVectors(ids)).value == s.(vectors := s.vectors + Ids(ids))
    decreases |ids|
  {
    if ids == [] {
      assert s.vectors + Ids(ids) == s.vectors;
    } else {
      DistinctHead(ids);
      assert AddVectors(ids)[1..] == AddVectors(ids[1..]);
      if ids[0] !in s.vectors {
        var t := s.(vectors := s.vectors + {ids[0]});
        PlayAddVectors(t, ids[1..]);
        assert t.vectors + Ids(ids[1..]) == s.vectors + Ids(ids);
      } else {
        assert ids[0] in Ids(ids);
      }
    }
  }
}
