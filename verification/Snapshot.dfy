/** The mutable snapshot: the state of a pool at some commit, updated action by action. */
module Snapshots {
  import opened Wrappers
  import opened Actions

  /** How an updating call reports the outcome `r` of a step taken from `before`. */
  ghost predicate Reports(before: State, r: Result<State>, err: Option<Error>, after: State) {
    match r
    case Ok(t) => err == None && after == t
    case Err(e) => err == Some(e) && after == before
  }

  class Snapshot {
    var objects: map<Id, DataObject>
    var vectors: set<Id>

    ghost function Contents(): State
      reads this
    {
      State(objects, vectors)
    }

    constructor ()
      ensures Contents() == EMPTY
    {
      objects, vectors := map[], {};
    }

    method AddDataObject(o: DataObject) returns (err: Option<Error>)
      modifies this
      ensures Reports(old(Contents()), Step(old(Contents()), Add(o)), err, Contents())
    {
      if o.id in objects {
        return Some(WriteConflict);
      }
      objects := objects[o.id := o];
      err := None;
    }

    method DeleteObject(id: Id) returns (err: Option<Error>)
      modifies this
      ensures Reports(old(Contents()), Step(old(Contents()), Delete(id)), err, Contents())
    {
      if id !in objects {
        return Some(WriteConflict);
      }
      objects := objects - {id};
      err := None;
    }

    method AddVector(id: Id) returns (err: Option<Error>)
      modifies this
      ensures Reports(old(Contents()), Step(old(Contents()), Action.AddVector(id)), err, Contents())
    {
      if id in vectors {
        return Some(WriteConflict);
      }
      vectors := vectors + {id};
      err := None;
    }

    method DeleteVector(id: Id) returns (err: Option<Error>)
      modifies this
      ensures Reports(old(Contents()), Step(old(Contents()), Action.DeleteVector(id)), err, Contents())
    {
      if id !in vectors {
        return Some(WriteConflict);
      }
      vectors := vectors - {id};
      err := None;
    }

    method PlayAction(a: Action) returns (err: Option<Error>)
      modifies this
      ensures Reports(old(Contents()), Step(old(Contents()), a), err, Contents())
    {
      match a
      case Add(o) => err := AddDataObject(o);
      case Delete(id) => err := DeleteObject(id);
      case AddVector(id) => err := AddVector(id);
      case DeleteVector(id) => err := DeleteVector(id);
      case Commit(_, _) => err := None;
    }

    method PlayAll(actions: seq<Action>) returns (err: Option<Error>)
      modifies this
      ensures match Play(old(Contents()), actions)
              case Ok(t) => err == None && Contents() == t
              case Err(e) => err == Some(e)
    {
      err := None;
      for k := 0 to |actions|
        invariant err == None
        invariant Play(old(Contents()), actions) == Play(Contents(), actions[k..])
      {
        assert actions[k..][1..] == actions[k + 1..];
        err := PlayAction(actions[k]);
        if err != None {
          return;
        }
      }
    }

    /** A new snapshot with the same contents; the receiver is left alone. */
    method Copy() returns (out: Snapshot)
      ensures fresh(out) && out.Contents() == Contents()
    {
      out := new Snapshot();
      out.objects := objects;
      out.vectors := vectors;
    }

    /** Writes the snapshot as adds only, in whatever order the maps are ranged over. */
    method Serialize() returns (out: seq<Action>)
      requires Contents().WellKeyed()
      ensures Play(EMPTY, out) == Ok(Contents())
    {
      out := [];
      var left := objects.Keys;
      assert objects - left == map[];
      while left != {}
        invariant left <= objects.Keys
        invariant Play(EMPTY, out) == Ok(State(objects - left, {}))
      {
        var k :| k in left;
        PlayAppend(EMPTY, out, [Add(objects[k])]);
        assert (objects - left)[k := objects[k]] == objects - (left - {k});
        out := out + [Add(objects[k])];
        left := left - {k};
      }
      assert objects - left == objects;
      left := vectors;
      assert vectors - left == {};
      while left != {}
        invariant left <= vectors
        invariant Play(EMPTY, out) == Ok(State(objects, vectors - left))
      {
        var v :| v in left;
        PlayAppend(EMPTY, out, [Action.AddVector(v)]);
        assert vectors - left + {v} == vectors - (left - {v});
        out := out + [Action.AddVector(v)];
        left := left - {v};
      }
      assert vectors - left == vectors;
    }
  }

  /** Rebuilds a snapshot from what `Serialize` wrote. */
  method DecodeSnapshot(actions: seq<Action>) returns (snap: Snapshot, err: Option<Error>)
    ensures fresh(snap)
    ensures match Play(EMPTY, actions)
            case Ok(t) => err == None && snap.Contents() == t
            case Err(e) => err == Some(e)
  {
    snap := new Snapshot();
    err := snap.PlayAll(actions);
  }
}
