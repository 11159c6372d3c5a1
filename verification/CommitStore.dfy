/**
 The commit object store: paths to the root, snapshots with their caches, and the
 patches and merge commits computed from them.
 */
module CommitStore {
  import opened Wrappers
  import opened Actions
  import opened Snapshots
  import opened Patches
  import opened PatchObjects
  import Merges

  /** The commit objects, and for each a rank above its parent's. */
  datatype Repo = Repo(objects: map<Id, CommitObject>, rank: map<Id, nat>) {

    ghost predicate Acyclic() {
      forall c :: c in objects ==>
        && c != NIL && objects[c].commit == c && c in rank
        && (objects[c].parent != NIL ==> objects[c].parent in rank && rank[objects[c].parent] < rank[c])
    }

    ghost function Height(at: Id): nat {
      if at in rank then rank[at] + 1 else 0
    }

    /** The commits from `at` to the root, leaf first. */
    ghost function Path(at: Id): Option<seq<Id>>
      requires Acyclic()
      decreases if at == NIL then 0 else Height(at)
    {
      if at == NIL then Some([])
      else if at !in objects then None
      else
        match Path(objects[at].parent)
        case None => None
        case Some(p) => Some([at] + p)
    }

    /** The state reached by replaying the whole path of `at` from the root. */
    ghost function Replay(at: Id): Option<State>
      requires Acyclic()
      decreases if at == NIL then 0 else Height(at)
    {
      if at == NIL then Some(EMPTY)
      else if at !in objects then None
      else
        match Replay(objects[at].parent)
        case None => None
        case Some(s) =>
          match Play(s, objects[at].actions)
          case Ok(t) => Some(t)
          case Err(_) => None
    }

    function With(o: CommitObject): Repo {
      Repo(objects[o.commit := o], rank[o.commit := if o.parent in rank then rank[o.parent] + 1 else 0])
    }

    function Without(c: Id): Repo {
      this.(objects := objects - {c})
    }

    /** The object's actions replay on its parent's state. */
    ghost predicate Clean(o: CommitObject)
      requires Acyclic()
    {
      Replay(o.parent).Some? && Play(Replay(o.parent).value, o.actions).Ok?
    }

    /** The commits from `from` up to and including `to`, or to the root if `to` is not met. */
    ghost function PathRange(from: Id, to: Id): Option<seq<Id>>
      requires Acyclic()
      decreases if from == NIL then 0 else Height(from)
    {
      if from == NIL then Some([])
      else if from !in objects then None
      else if from == to then Some([from])
      else
        match PathRange(objects[from].parent, to)
        case None => None
        case Some(p) => Some([from] + p)
    }

    /** The actions of leaf-first commits in the order they were made. */
    ghost function ActionsOf(ids: seq<Id>): seq<Action>
      requires forall i :: i in ids ==> i in objects
      decreases |ids|
    {
      if ids == [] then [] else ActionsOf(ids[1..]) + objects[ids[0]].actions
    }

    /** The patch of one commit over its parent's state. */
    ghost function PatchOf(commit: Id): Result<PatchState>
      requires Acyclic()
    {
      if commit !in objects then Err(NotFound)
      else
        match Replay(objects[commit].parent)
        case None => Err(NotFound)
        case Some(b) => PatchPlay(NewPatchState(Base(b)), objects[commit].actions)
    }

    /** The patch over `base` of everything after `baseID` on the way to `commit`. */
    ghost function PatchBetween(base: State, baseID: Id, commit: Id): Result<PatchState>
      requires Acyclic()
    {
      match PathRange(commit, baseID)
      case None => Err(NotFound)
      case Some(ids) =>
        PathRangeMembers(commit, baseID);
        if ids == [] then Ok(NewPatchState(Base(base)))
        else PatchPlay(NewPatchState(Base(base)), ActionsOf(ids[..|ids| - 1]))
    }

    /** A commit that replays has a patch exactly when it never adds back what its parent's state has. */
    lemma {:induction false} PatchOfTracks(commit: Id)
      requires Acyclic() && commit in objects && Replay(commit).Some?
      ensures Replay(objects[commit].parent).Some?
      ensures var b := Replay(objects[commit].parent).value;
              && (PatchOf(commit).Ok? <==> NeverReAdds(b, objects[commit].actions))
              && (PatchOf(commit).Ok? ==> Tracks(b, PatchOf(commit).value, Replay(commit).value))
    {
      SquashExact(Replay(objects[commit].parent).value, objects[commit].actions);
    }

    /** The same for everything between an ancestor and a commit. */
    lemma {:induction false} PatchBetweenTracks(baseID: Id, commit: Id)
      requires Acyclic() && Path(commit).Some? && baseID in Path(commit).value && Replay(commit).Some?
      ensures Replay(baseID).Some? && PathRange(commit, baseID).Some? && PathRange(commit, baseID).value != []
      ensures forall i :: i in PathRange(commit, baseID).value ==> i in objects
      ensures var b, ids := Replay(baseID).value, PathRange(commit, baseID).value;
              var p := PatchBetween(b, baseID, commit);
              && (p.Ok? <==> NeverReAdds(b, ActionsOf(ids[..|ids| - 1])))
              && (p.Ok? ==> Tracks(b, p.value, Replay(commit).value))
    {
      ReplayFromBase(commit, baseID);
      var ids := PathRange(commit, baseID).value;
      SquashExact(Replay(baseID).value, ActionsOf(ids[..|ids| - 1]));
    }

    lemma {:induction false} PatchBetweenWellFormed(base: State, baseID: Id, commit: Id)
      requires Acyclic()
      ensures var p := PatchBetween(base, baseID, commit);
              p.Ok? ==> p.value.WellFormed() && p.value.base == Base(base)
    {
      if PatchBetween(base, baseID, commit).Ok? {
        PathRangeMembers(commit, baseID);
        var ids := PathRange(commit, baseID).value;
        if ids != [] {
          PatchPlayKeeps(NewPatchState(Base(base)), ActionsOf(ids[..|ids| - 1]));
        }
      }
    }

    /** `base` is on both paths, and nothing nearer the child's tip is. */
    ghost predicate NearestCommon(parentTip: Id, childTip: Id, base: Id)
      requires Acyclic()
    {
      && Path(parentTip).Some? && Path(childTip).Some?
      && base in Path(parentTip).value
      && var p := Path(childTip).value;
         exists n :: 0 <= n < |p| && p[n] == base && forall i :: 0 <= i < n ==> p[i] !in Path(parentTip).value
    }

    lemma {:induction false} NearestIsUnique(parentTip: Id, childTip: Id, x: Id, y: Id)
      requires Acyclic() && NearestCommon(parentTip, childTip, x) && NearestCommon(parentTip, childTip, y)
      ensures x == y
    {
      var p := Path(childTip).value;
      var n :| 0 <= n < |p| && p[n] == x && forall i :: 0 <= i < n ==> p[i] !in Path(parentTip).value;
      var m :| 0 <= m < |p| && p[m] == y && forall i :: 0 <= i < m ==> p[i] !in Path(parentTip).value;
    }

    /** The base replays, both branches have a patch over it, and the child's brings something new. */
    ghost predicate Mergeable(parentTip: Id, childTip: Id, base: Id)
      requires Acyclic()
    {
      && Replay(base).Some?
      && PatchBetween(Replay(base).value, base, childTip).Ok?
      && PatchBetween(Replay(base).value, base, parentTip).Ok?
      && SomethingToMerge(PatchBetween(Replay(base).value, base, parentTip).value, PatchBetween(Replay(base).value, base, childTip).value)
    }

    lemma {:induction false} PatchHasPath(commit: Id)
      requires Acyclic()
      ensures PatchOf(commit).Ok? ==> commit != NIL && Path(commit).Some?
    {
      if PatchOf(commit).Ok? {
        ReplayHasPath(objects[commit].parent);
      }
    }

    lemma {:induction false} ReplayHasPath(at: Id)
      requires Acyclic() && Replay(at).Some?
      ensures Path(at).Some?
      decreases if at == NIL then 0 else Height(at)
    {
      if at != NIL {
        ReplayHasPath(objects[at].parent);
      }
    }

    lemma {:induction false} PathTail(at: Id)
      requires Acyclic() && at != NIL && Path(at).Some?
      ensures at in objects
      ensures if |Path(at).value| == 1 then objects[at].parent == NIL else Path(at).value[1] == objects[at].parent
    {
      var parent := objects[at].parent;
      assert Path(at).value == [at] + Path(parent).value;
      PathMembers(parent);
    }

    /** A new commit changes no path and no state that there was. */
    lemma {:induction false} WithKeeps(o: CommitObject, at: Id)
      requires Acyclic() && With(o).Acyclic() && o.commit !in objects && Path(at).Some?
      ensures With(o).Path(at) == Path(at) && With(o).Replay(at) == Replay(at)
      decreases if at == NIL then 0 else Height(at)
    {
      if at != NIL {
        WithKeeps(o, objects[at].parent);
      }
    }

    /** Nor does the removal of one that nothing is built on, its own apart. */
    lemma {:induction false} WithoutKeeps(c: Id, at: Id)
      requires Acyclic() && Without(c).Acyclic() && Path(at).Some? && at != c
      requires forall d :: d in objects ==> objects[d].parent != c
      ensures Without(c).Path(at) == Path(at) && Without(c).Replay(at) == Replay(at)
      decreases if at == NIL then 0 else Height(at)
    {
      if at != NIL {
        WithoutKeeps(c, objects[at].parent);
      }
    }

    /** If the oldest commits already fail to play, so do all of them. */
    lemma {:induction false} PatchFailsEarly(p: PatchState, ids: seq<Id>, k: nat)
      requires k <= |ids| && forall i :: i in ids ==> i in objects
      requires PatchPlay(p, ActionsOf(ids[k..])).Err?
      ensures PatchPlay(p, ActionsOf(ids)) == PatchPlay(p, ActionsOf(ids[k..]))
      decreases k
    {
      if k == 0 {
        assert ids[0..] == ids;
      } else {
        assert ids[k - 1..][1..] == ids[k..] && ids[k - 1] in ids;
        PatchPlayAppend(p, ActionsOf(ids[k..]), objects[ids[k - 1]].actions);
        PatchFailsEarly(p, ids, k - 1);
      }
    }

    lemma {:induction false} ReplayWellKeyed(at: Id)
      requires Acyclic() && Replay(at).Some?
      ensures Replay(at).value.WellKeyed()
      decreases if at == NIL then 0 else Height(at)
    {
      if at != NIL {
        ReplayWellKeyed(objects[at].parent);
        PlayWellKeyed(Replay(objects[at].parent).value, objects[at].actions);
      }
    }

    lemma {:induction false} PathMembers(at: Id)
      requires Acyclic() && Path(at).Some?
      ensures forall i :: i in Path(at).value ==> i in objects && i != NIL
      ensures at != NIL ==> Path(at).value != [] && Path(at).value[0] == at
      decreases if at == NIL then 0 else Height(at)
    {
      if at != NIL {
        PathMembers(objects[at].parent);
      }
    }

    lemma {:induction false} PathRangeMembers(from: Id, to: Id)
      requires Acyclic() && PathRange(from, to).Some?
      ensures forall i :: i in PathRange(from, to).value ==> i in objects
      ensures from != NIL ==> PathRange(from, to).value != []
      decreases if from == NIL then 0 else Height(from)
    {
      if from != NIL && from != to {
        PathRangeMembers(objects[from].parent, to);
      }
    }

    /** A path range is the path cut after `to`. */
    lemma {:induction false} PathRangeIsCutPath(at: Id, to: Id)
      requires Acyclic() && Path(at).Some?
      ensures PathRange(at, to) == Some(Until(Path(at).value, to))
      decreases if at == NIL then 0 else Height(at)
    {
      if at != NIL {
        PathRangeIsCutPath(objects[at].parent, to);
        var p := Path(at).value;
        assert p[1..] == Path(objects[at].parent).value;
      }
    }

    /** The actions between a base commit and a later one lead from the base's state to the later one's. */
    lemma {:induction false} ReplayFromBase(at: Id, base: Id)
      requires Acyclic() && Path(at).Some? && base in Path(at).value && Replay(at).Some?
      ensures Replay(base).Some?
      ensures PathRange(at, base).Some? && PathRange(at, base).value != []
      ensures forall i :: i in PathRange(at, base).value ==> i in objects
      ensures var ids := PathRange(at, base).value;
              Play(Replay(base).value, ActionsOf(ids[..|ids| - 1])) == Ok(Replay(at).value)
      decreases if at == NIL then 0 else Height(at)
    {
      PathMembers(at);
      PathRangeIsCutPath(at, base);
      PathRangeMembers(at, base);
      var ids := PathRange(at, base).value;
      if at == base {
        assert ids[..0] == [];
      } else {
        var parent := objects[at].parent;
        ReplayFromBase(parent, base);
        var up := PathRange(parent, base).value;
        assert ids == [at] + up;
        OneMoreCommit(at, up, Replay(base).value);
      }
    }

    /** The actions of a path with one more commit in front. */
    lemma {:induction false} OneMoreCommit(at: Id, up: seq<Id>, s: State)
      requires at in objects && up != [] && forall i :: i in up ==> i in objects
      requires Play(s, ActionsOf(up[..|up| - 1])).Ok?
      ensures forall i :: i in [at] + up ==> i in objects
      ensures var ids := [at] + up;
              Play(s, ActionsOf(ids[..|ids| - 1])) == Play(Play(s, ActionsOf(up[..|up| - 1])).value, objects[at].actions)
    {
      var ids, front := [at] + up, up[..|up| - 1];
      assert ids[..|ids| - 1] == [at] + front;
      assert ([at] + front)[1..] == front;
      PlayAppend(s, ActionsOf(front), objects[at].actions);
    }
  }

  function Until(path: seq<Id>, to: Id): seq<Id>
    decreases |path|
  {
    if path == [] then []
    else if path[0] == to then [to]
    else [path[0]] + Until(path[1..], to)
  }

  /** Commits played back from the last, which is nearest the root, to the first. */
  ghost function PlayBack(s: State, commits: seq<CommitObject>): Option<State>
    decreases |commits|
  {
    if commits == [] then Some(s)
    else
      var last := |commits| - 1;
      match Play(s, commits[last].actions)
      case Ok(t) => PlayBack(t, commits[..last])
      case Err(_) => None
  }

  /** An arbitrary order in which to range over a map. */
  method AnyOrder(m: map<Id, DataObject>) returns (order: seq<DataObject>)
    requires forall k :: k in m ==> m[k].id == k
    ensures Enumerates(order, m)
  {
    order := [];
    var done: map<Id, DataObject> := map[];
    while m.Keys - done.Keys != {}
      invariant done.Keys <= m.Keys && (forall k :: k in done ==> done[k] == m[k])
      invariant Enumerates(order, done)
      decreases m.Keys - done.Keys
    {
      var k :| k in m.Keys - done.Keys;
      EnumeratesCons(order, done, m[k]);
      order := [m[k]] + order;
      done := map[k := m[k]] + done;
    }
    forall k | k in m ensures k in done {
      assert k !in m.Keys - done.Keys;
    }
    assert done == m;
  }

  lemma {:induction false} EnumeratesCons(order: seq<DataObject>, m: map<Id, DataObject>, o: DataObject)
    requires Enumerates(order, m) && o.id !in m
    ensures Enumerates([o] + order, map[o.id := o] + m)
  {
    var next := [o] + order;
    FiledKeys(order);
    assert next[1..] == order && IdsOf(next)[1..] == IdsOf(order);
    assert o.id in IdsOf(order) ==> o.id in Ids(IdsOf(order));
    DistinctHead(IdsOf(next));
  }

  /** The first commit of `b` that is also in `a`. */
  method CommonAncestor(a: seq<Id>, b: seq<Id>) returns (id: Id)
    requires NIL !in b
    ensures id == NIL ==> forall i :: i in b ==> i !in a
    ensures id != NIL ==> id in a && exists n :: 0 <= n < |b| && b[n] == id && forall i :: 0 <= i < n ==> b[i] !in a
  {
    var m := {};
    for k := 0 to |a|
      invariant m == Ids(a[..k])
    {
      m := m + {a[k]};
    }
    assert a[..|a|] == a;
    for k := 0 to |b|
      invariant forall i :: 0 <= i < k ==> b[i] !in a
    {
      if b[k] in m {
        return b[k];
      }
    }
    id := NIL;
  }

  /** Plays commits into `snap` from the last to the first. */
  method PlayCommits(snap: Snapshot, commits: seq<CommitObject>) returns (err: Option<Error>)
    modifies snap
    ensures match PlayBack(old(snap.Contents()), commits)
            case Some(t) => err == None && snap.Contents() == t
            case None => err != None
  {
    err := None;
    var k := |commits|;
    assert commits[..k] == commits;
    while k > 0
      invariant 0 <= k <= |commits|
      invariant err == None
      invariant PlayBack(old(snap.Contents()), commits) == PlayBack(snap.Contents(), commits[..k])
    {
      k := k - 1;
      assert commits[..k + 1][..k] == commits[..k];
      err := snap.PlayAll(commits[k].actions);
      if err != None {
        return;
      }
    }
  }

  method Rebuild(base: Option<Snapshot>, commits: seq<CommitObject>) returns (snap: Snapshot, err: Option<Error>)
    ensures fresh(snap)
    ensures match PlayBack(if base == None then EMPTY else base.value.Contents(), commits)
            case Some(t) => err == None && snap.Contents() == t
            case None => err != None
  {
    if base == None {
      snap := new Snapshot();
    } else {
      snap := base.value.Copy();
    }
    err := PlayCommits(snap, commits);
  }

  class Store {
    var objects: map<Id, CommitObject>        // commit objects in storage
    var stored: map<Id, seq<Action>>          // serialized snapshots in storage
    var snapshots: map<Id, Snapshot>          // in-memory cache of snapshots
    var paths: map<Id, seq<Id>>               // in-memory cache of paths
    ghost var rank: map<Id, nat>

    ghost function Log(): Repo
      reads this`objects, this`rank
    {
      Repo(objects, rank)
    }

    ghost predicate SnapshotsRight()
      requires Log().Acyclic()
      reads this`objects, this`rank, this`snapshots, snapshots.Values
    {
      forall c :: c in snapshots ==> Log().Replay(c) == Some(snapshots[c].Contents())
    }

    ghost predicate StoredRight()
      requires Log().Acyclic()
      reads this`objects, this`rank, this`stored
    {
      forall c :: c in stored ==> Log().Replay(c).Some? && Play(EMPTY, stored[c]) == Ok(Log().Replay(c).value)
    }

    ghost predicate PathsRight()
      requires Log().Acyclic()
      reads this`objects, this`rank, this`paths
    {
      forall c :: c in paths ==> Log().Path(c) == Some(paths[c])
    }

    /** Every cache entry is the replay, or the path, of the commit it is filed under. */
    ghost predicate Valid()
      reads this, snapshots.Values
    {
      Log().Acyclic() && SnapshotsRight() && StoredRight() && PathsRight()
    }

    constructor ()
      ensures Valid() && objects == map[]
    {
      objects, stored, snapshots, paths, rank := map[], map[], map[], map[], map[];
    }

    /** Stores a commit object under a new id; what was cached stays right. */
    method Put(o: CommitObject)
      requires Valid() && o.commit != NIL && o.commit !in objects && o.commit !in rank
      requires o.parent == NIL || o.parent in objects
      modifies this`objects, this`rank
      ensures Valid() && Log() == old(Log()).With(o)
    {
      ghost var log := Log();
      objects := objects[o.commit := o];
      rank := rank[o.commit := if o.parent in rank then rank[o.parent] + 1 else 0];
      assert Log() == log.With(o);
      forall c | log.Replay(c).Some? ensures Log().Replay(c) == log.Replay(c) {
        log.ReplayHasPath(c);
        log.WithKeeps(o, c);
      }
      forall c | log.Path(c).Some? ensures Log().Path(c) == log.Path(c) {
        log.WithKeeps(o, c);
      }
    }

    /** Removes a commit object that nothing is built on and nothing is cached of. */
    method Remove(commit: Id)
      requires Valid() && commit in objects && forall c :: c in objects ==> objects[c].parent != commit
      requires commit !in snapshots && commit !in stored && commit !in paths
      modifies this`objects
      ensures Valid() && Log() == old(Log()).Without(commit)
    {
      ghost var log := Log();
      objects := objects - {commit};
      assert Log() == log.Without(commit);
      forall c | c != commit && log.Replay(c).Some? ensures Log().Replay(c) == log.Replay(c) {
        log.ReplayHasPath(c);
        log.WithoutKeeps(commit, c);
      }
      forall c | c != commit && log.Path(c).Some? ensures Log().Path(c) == log.Path(c) {
        log.WithoutKeeps(commit, c);
      }
    }

    /** Files a snapshot in the bounded cache, which may evict anything. */
    method Remember(at: Id, snap: Snapshot)
      requires Valid() && Log().Replay(at) == Some(snap.Contents())
      modifies this`snapshots
      ensures Valid()
      ensures forall c :: c in snapshots ==> snapshots[c] == snap || (c in old(snapshots) && snapshots[c] == old(snapshots)[c])
    {
      var kept: set<Id> := *;
      var next := (map c | c in snapshots && c in kept :: snapshots[c])[at := snap];
      assert forall c :: c in next ==> (c == at && next[c] == snap) || (c in snapshots && next[c] == snapshots[c]);
      snapshots := next;
      assert SnapshotsRight();
    }

    /** A snapshot read back from storage, if there is one that can be read. */
    method GetStored(at: Id) returns (snap: Option<Snapshot>)
      requires Valid()
      ensures snap.Some? ==> fresh(snap.value) && Log().Replay(at) == Some(snap.value.Contents())
    {
      if * {
        return None;
      }
      if at !in stored {
        return None;
      }
      var s, err := DecodeSnapshot(stored[at]);
      snap := if err == None then Some(s) else None;
    }

    /** Stores a snapshot; a failure to write is only logged. */
    method PutStored(at: Id, snap: Snapshot)
      requires Valid() && Log().Replay(at) == Some(snap.Contents())
      modifies this`stored
      ensures Valid()
    {
      Log().ReplayWellKeyed(at);
      if * {
        var bytes := snap.Serialize();
        stored := stored[at := bytes];
      }
    }

    /**
     The snapshot at a commit is the replay of its whole path from the root,
     whatever is cached or stored, and fails exactly when that replay does.  The
     caches stay right and no cached snapshot is changed.
     */
    method Snapshot(leaf: Id) returns (r: Result<Snapshot>)
      requires Valid()
      modifies this`snapshots, this`stored
      ensures Valid()
      ensures r.Ok? <==> Log().Replay(leaf).Some?
      ensures r.Ok? ==> Log().Replay(leaf) == Some(r.value.Contents())
      ensures r.Ok? ==> r.value in old(snapshots.Values) || fresh(r.value)
    {
      if leaf in snapshots {
        return Ok(snapshots[leaf]);
      }
      var read := GetStored(leaf);
      if read.Some? {
        Remember(leaf, read.value);
        return Ok(read.value);
      }
      r := BuildSnapshot(leaf);
    }

    /** Replays from the nearest snapshot below the root, leaving that snapshot as it is. */
    method BuildSnapshot(leaf: Id) returns (r: Result<Snapshot>)
      requires Valid()
      modifies this`snapshots, this`stored
      ensures Valid()
      ensures r.Ok? <==> Log().Replay(leaf).Some?
      ensures r.Ok? ==> fresh(r.value) && Log().Replay(leaf) == Some(r.value.Contents())
    {
      var base, commits, err := Climb(leaf);
      if err != None {
        return Err(err.value);
      }
      var snap, failed := Rebuild(base, commits);
      if failed != None {
        return Err(failed.value);
      }
      Keep(leaf, snap);
      r := Ok(snap);
    }

    /** Stores and caches a snapshot that was built. */
    method Keep(leaf: Id, snap: Snapshot)
      requires Valid() && Log().Replay(leaf) == Some(snap.Contents())
      modifies this`snapshots, this`stored
      ensures Valid()
    {
      PutStored(leaf, snap);
      Remember(leaf, snap);
    }

    /** Walks up from `leaf` to the nearest commit with a snapshot, collecting the commits on the way. */
    method Climb(leaf: Id) returns (base: Option<Snapshot>, commits: seq<CommitObject>, err: Option<Error>)
      requires Valid()
      modifies this`snapshots
      ensures Valid()
      ensures err != None ==> Log().Replay(leaf) == None
      ensures err == None ==> Log().Replay(leaf) == PlayBack(if base == None then EMPTY else base.value.Contents(), commits)
      ensures forall c :: c in snapshots ==> snapshots[c] in old(snapshots.Values) || fresh(snapshots[c])
    {
      base, commits, err := None, [], None;
      var at := leaf;
      while at != NIL
        invariant snapshots == old(snapshots)
        invariant match Log().Replay(at)
                  case None => Log().Replay(leaf) == None
                  case Some(s) => Log().Replay(leaf) == PlayBack(s, commits)
        decreases if at == NIL then 0 else Log().Height(at)
      {
        if at in snapshots {
          base := Some(snapshots[at]);
          return;
        }
        var read := GetStored(at);
        if read.Some? {
          Remember(at, read.value);
          base := read;
          return;
        }
        if at !in objects {
          err := Some(NotFound);
          return;
        }
        ghost var more := commits + [objects[at]];
        assert more[..|more| - 1] == commits;
        commits := commits + [objects[at]];
        at := objects[at].parent;
      }
    }

    /** The path of a commit to the root, leaf first. */
    method Path(leaf: Id) returns (r: Result<seq<Id>>)
      requires Valid()
      modifies this`paths
      ensures Valid()
      ensures r.Ok? <==> leaf != NIL && Log().Path(leaf).Some?
      ensures r.Ok? ==> Some(r.value) == Log().Path(leaf)
    {
      if leaf == NIL {
        return Err(NoPath);
      }
      if leaf in paths {
        return Ok(paths[leaf]);
      }
      r := PathRange(leaf, NIL);
      if r.Ok? {
        PathToNilIsPath(leaf);
        paths := paths[leaf := r.value];
      } else {
        PathToNilIsPath(leaf);
      }
    }

    lemma {:induction false} PathToNilIsPath(at: Id)
      requires Log().Acyclic()
      ensures Log().PathRange(at, NIL) == Log().Path(at)
      decreases if at == NIL then 0 else Log().Height(at)
    {
      if at != NIL && at in objects {
        PathToNilIsPath(objects[at].parent);
      }
    }

    method PathRange(from: Id, to: Id) returns (r: Result<seq<Id>>)
      requires Valid()
      ensures match Log().PathRange(from, to)
              case Some(p) => r == Ok(p)
              case None => r.Err?
    {
      var path: seq<Id> := [];
      var at := from;
      assert forall p: seq<Id> :: [] + p == p;
      while at != NIL
        invariant match Log().PathRange(at, to)
                  case None => Log().PathRange(from, to) == None
                  case Some(p) => Log().PathRange(from, to) == Some(path + p)
        decreases if at == NIL then 0 else Log().Height(at)
      {
        if at in paths {
          Log().PathRangeIsCutPath(at, to);
          var cached := CutAfter(paths[at], to);
          return Ok(path + cached);
        }
        if at !in objects {
          return Err(NotFound);
        }
        assert forall p: seq<Id> :: path + ([at] + p) == (path + [at]) + p;
        path := path + [at];
        if at == to {
          return Ok(path);
        }
        at := objects[at].parent;
      }
      assert path + [] == path;
      r := Ok(path);
    }

    /** The copying loop over a cached path. */
    method CutAfter(cached: seq<Id>, to: Id) returns (path: seq<Id>)
      ensures path == Until(cached, to)
    {
      path := [];
      assert cached[0..] == cached;
      for k := 0 to |cached|
        invariant Until(cached, to) == path + Until(cached[k..], to)
      {
        assert cached[k..][1..] == cached[k + 1..];
        path := path + [cached[k]];
        if cached[k] == to {
          return;
        }
      }
    }

    /** The changes a commit made to its parent's state, as a patch. */
    method PatchOfCommit(commit: Id) returns (r: Result<Patch>)
      requires Valid()
      modifies this`snapshots, this`stored, this`paths
      ensures Valid()
      ensures r.Ok? <==> Log().PatchOf(commit).Ok?
      ensures r.Ok? ==> fresh(r.value) && fresh(r.value.diff) && Log().PatchOf(commit) == Ok(r.value.Value())
    {
      var path := Path(commit);
      if path.Err? {
        Log().PatchHasPath(commit);
        return Err(path.error);
      }
      Log().PathMembers(commit);
      Log().PathTail(commit);
      var base := ParentState(path.value);
      if base.Err? {
        return Err(base.error);
      }
      var patch := new Patch(Base(base.value));
      var err := patch.PlayAll(objects[commit].actions);
      r := if err == None then Ok(patch) else Err(err.value);
    }

    /** The state of the commit after the first on a path, or the empty state behind the first commit of all. */
    method ParentState(path: seq<Id>) returns (r: Result<State>)
      requires Valid() && path != []
      modifies this`snapshots, this`stored
      ensures Valid()
      ensures var at := if |path| == 1 then NIL else path[1];
              (r.Ok? <==> Log().Replay(at).Some?) && (r.Ok? ==> Log().Replay(at) == Some(r.value))
    {
      if |path| == 1 {
        return Ok(EMPTY);
      }
      var parent := Snapshot(path[1]);
      r := match parent
           case Ok(snap) => Ok(State(snap.objects, snap.vectors))
           case Err(e) => Err(e);
    }

    /** The changes made after `baseID` on the way to `commit`, as one patch over `base`. */
    method PatchOfPath(base: Snapshot, baseID: Id, commit: Id) returns (r: Result<Patch>)
      requires Valid()
      ensures r.Ok? <==> Log().PatchBetween(base.Contents(), baseID, commit).Ok?
      ensures r.Ok? ==> fresh(r.value) && fresh(r.value.diff)
      ensures r.Ok? ==> Log().PatchBetween(base.Contents(), baseID, commit) == Ok(r.value.Value())
    {
      var path := PathRange(commit, baseID);
      if path.Err? {
        return Err(path.error);
      }
      Log().PathRangeMembers(commit, baseID);
      var patch := new Patch(Base(State(base.objects, base.vectors)));
      if |path.value| < 2 {
        return Ok(patch);
      }
      var ids := path.value[..|path.value| - 1];
      var err := PlayPath(patch, ids);
      r := if err == None then Ok(patch) else Err(err.value);
    }

    /** Plays the commits of a leaf-first path into a patch, oldest first. */
    method PlayPath(patch: Patch, ids: seq<Id>) returns (err: Option<Error>)
      requires forall i :: i in ids ==> i in objects
      modifies patch, patch.diff
      ensures match PatchPlay(old(patch.Value()), Log().ActionsOf(ids))
              case Ok(q) => err == None && patch.Value() == q
              case Err(e) => err == Some(e)
    {
      err := None;
      var k := |ids|;
      assert ids[k..] == [];
      while k > 0
        invariant 0 <= k <= |ids|
        invariant err == None
        invariant PatchPlay(old(patch.Value()), Log().ActionsOf(ids[k..])) == Ok(patch.Value())
      {
        k := k - 1;
        var later := ids[k + 1..];
        assert ids[k..][1..] == later && ids[k] in ids;
        PatchPlayAppend(old(patch.Value()), Log().ActionsOf(later), objects[ids[k]].actions);
        err := patch.PlayAll(objects[ids[k]].actions);
        if err != None {
          Log().PatchFailsEarly(old(patch.Value()), ids, k);
          return;
        }
      }
      assert ids[0..] == ids;
    }

    /**
     The commit that merges `childTip` into `parentTip`.  When both tips replay,
     the merge is taken relative to their nearest common ancestor, and the commit
     replays on the parent's tip if and only if the two branches deleted
     different objects since then; it then yields the three-way merge.
     */
    method BuildMergeObject(childTip: Id, parentTip: Id, commit: Id) returns (r: Result<CommitObject>, ghost base: Id)
      requires Valid()
      modifies this`snapshots, this`stored, this`paths
      ensures Valid()
      ensures r.Ok? ==> r.value.commit == commit && r.value.parent == parentTip
      ensures r.Ok? ==> Log().NearestCommon(parentTip, childTip, base)
      ensures r.Ok? <==>
                && childTip != NIL && parentTip != NIL
                && exists base :: Log().NearestCommon(parentTip, childTip, base) && Log().Mergeable(parentTip, childTip, base)
      ensures r.Ok? && Log().Replay(parentTip).Some? && Log().Replay(childTip).Some? ==>
                && Log().Replay(base).Some?
                && MergeResult(Log().Replay(base).value, Log().Replay(parentTip).value, Log().Replay(childTip).value, r.value.actions)
                && (Log().Clean(r.value) <==>
                      Merges.NetDeletes(Log().Replay(base).value, Log().Replay(childTip).value)
                      !! Merges.NetDeletes(Log().Replay(base).value, Log().Replay(parentTip).value))
    {
      base := NIL;
      var childPath := Path(childTip);
      if childPath.Err? { return Err(childPath.error), base; }
      var parentPath := Path(parentTip);
      if parentPath.Err? { return Err(parentPath.error), base; }
      Log().PathMembers(childTip);
      var baseID := CommonAncestor(parentPath.value, childPath.value);
      base := baseID;
      if baseID == NIL { return Err(NoCommonAncestor), base; }
      assert Log().NearestCommon(parentTip, childTip, base);
      forall other | Log().NearestCommon(parentTip, childTip, other) ensures other == base {
        Log().NearestIsUnique(parentTip, childTip, base, other);
      }
      r := MergeFrom(baseID, childTip, parentTip, commit);
    }

    /** The rest of the merge, once the common ancestor is known. */
    method MergeFrom(baseID: Id, childTip: Id, parentTip: Id, commit: Id) returns (r: Result<CommitObject>)
      requires Valid() && Log().NearestCommon(parentTip, childTip, baseID)
      modifies this`snapshots, this`stored
      ensures Valid()
      ensures r.Ok? <==> Log().Mergeable(parentTip, childTip, baseID)
      ensures r.Ok? ==> r.value.commit == commit && r.value.parent == parentTip
      ensures r.Ok? && Log().Replay(parentTip).Some? && Log().Replay(childTip).Some? ==>
                Log().Replay(baseID).Some? && MergeResult(Log().Replay(baseID).value, Log().Replay(parentTip).value,
                                                           Log().Replay(childTip).value, r.value.actions)
    {
      var base := Snapshot(baseID);
      if base.Err? { return Err(base.error); }
      var child := PatchOfPath(base.value, baseID, childTip);
      if child.Err? { return Err(child.error); }
      var parent := PatchOfPath(base.value, baseID, parentTip);
      if parent.Err? { return Err(parent.error); }
      Log().PatchBetweenWellFormed(base.value.Contents(), baseID, childTip);
      Log().PatchBetweenWellFormed(base.value.Contents(), baseID, parentTip);
      Log().ReplayWellKeyed(baseID);
      ghost var ps, cs := EMPTY, EMPTY;
      if Log().Replay(parentTip).Some? && Log().Replay(childTip).Some? {
        Log().PatchBetweenTracks(baseID, parentTip);
        Log().PatchBetweenTracks(baseID, childTip);
        ps, cs := Log().Replay(parentTip).value, Log().Replay(childTip).value;
      }
      r := MergePatches(base.value, parent.value, child.value, parentTip, commit, ps, cs);
    }
  }

  /** The child deleted something, or added something that the parent did not add too. */
  ghost predicate SomethingToMerge(parent: PatchState, child: PatchState) {
    Merges.NewAdds(parent, child) != map[] || child.deletedObjects != []
  }

  /** Replaying the actions on the parent's state is the three-way merge, exactly when nothing was deleted twice. */
  ghost predicate MergeResult(b: State, parent: State, child: State, actions: seq<Action>) {
    && (Play(parent, actions).Ok? <==> Merges.NetDeletes(b, child) !! Merges.NetDeletes(b, parent))
    && (Play(parent, actions).Ok? ==> Play(parent, actions).value == Merges.ThreeWay(b, parent, child))
  }

  method MergePatches(base: Snapshot, parent: Patch, child: Patch, parentTip: Id, commit: Id, ghost ps: State, ghost cs: State)
    returns (r: Result<CommitObject>)
    requires base.Contents().WellKeyed()
    requires Merges.SharedBase(base.Contents(), parent.Value(), child.Value())
    ensures r.Ok? <==> SomethingToMerge(parent.Value(), child.Value())
    ensures r.Ok? ==> r.value.commit == commit && r.value.parent == parentTip
    ensures r.Ok? && Tracks(base.Contents(), parent.Value(), ps) && Tracks(base.Contents(), child.Value(), cs) ==>
              MergeResult(base.Contents(), ps, cs, r.value.actions)
  {
    var known := AnyOrder(base.objects);
    var added := AnyOrder(child.diff.objects);
    var order := known + added;
    assert order[..|known|] == known && order[|known|..] == added;
    assert Selects(order, child.Value().AsView());
    ghost var b, p, c := base.Contents(), parent.Value(), child.Value();
    Merges.DiffOfSharedBase(b, p, c, order);
    var diff := Diff(parent, child, order);
    if diff.Err? { return Err(diff.error); }
    var adds := AnyOrder(diff.value.diff.objects);
    var o := diff.value.NewCommitObject(commit, parentTip, adds, []);
    if Tracks(b, p, ps) && Tracks(b, c, cs) {
      Merges.MergeIsThreeWay(b, p, ps, c, cs, order, commit, parentTip, adds);
    }
    r := Ok(o);
  }
}
