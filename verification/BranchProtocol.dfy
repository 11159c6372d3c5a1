/**
 The optimistic commit loop of a branch, run by any number of writers at once.

 Every writer repeats: read the branch's tip, build a commit object on it, put the
 object in the store, and move the branch to it on condition that the tip has not
 changed; when the condition fails it removes its object and tries again.  A run
 is any sequence of events, each one atomic access of one writer to the shared
 branch journal or commit store, so that all interleavings are covered.
 */
module BranchProtocol {
  import opened Wrappers
  import opened Actions
  import opened CommitStore

  type Name = string
  type WriterId = nat

  const MAX_COMMIT_RETRIES := 10

  datatype UpdateFailure = Constraint | OtherError

  datatype Phase =
    | Reading                                             // about to look the branch up
    | Creating(parent: Id)                                // about to build on the tip it read
    | Putting(parent: Id, built: CommitObject)            // about to put the object
    | Updating(parent: Id, built: CommitObject)           // about to move the branch
    | Removing(built: CommitObject, why: UpdateFailure)   // about to remove the object again
    | Committed(commit: Id)
    | Failed
    | GaveUp                                              // ErrCommitFailed

  /** `made` collects the ids of all commit objects that the writer has built. */
  datatype Writer = Writer(branch: Name, retries: nat, phase: Phase, made: set<Id>)

  /**
   `repo` is the commit store and `branches` the branch journal.  `published` are
   the commits that ever became a tip, `used` all ids handed out, `clean` those of
   them whose actions replayed on their parent when they were built, and `history`
   the tips of each branch since it was created; no step depends on these four.
   */
  datatype Lake = Lake(
    repo: Repo,
    branches: map<Name, Id>,
    writers: map<WriterId, Writer>,
    published: set<Id>,
    used: set<Id>,
    clean: set<Id>,
    history: map<Name, seq<Id>>)
  {
    predicate Known(p: Id) {
      p == NIL || p in published
    }

    function WithWriter(w: WriterId, x: Writer): Lake {
      this.(writers := writers[w := x])
    }
  }

  datatype Event =
    | Start(w: WriterId, branch: Name)
    | LookupOk(w: WriterId) | LookupFails(w: WriterId)
    | CreateOk(w: WriterId, built: CommitObject) | CreateFails(w: WriterId)
    | PutOk(w: WriterId) | PutFails(w: WriterId, written: bool)
    | UpdateOk(w: WriterId) | UpdateConstraint(w: WriterId) | UpdateFails(w: WriterId)
    | RemoveOk(w: WriterId) | RemoveFails(w: WriterId)
    | CreateBranch(name: Name, at: Id)
    | RemoveBranch(name: Name)

  ghost function Init(): Lake {
    Lake(Repo(map[], map[]), map[], map[], {}, {}, {}, map[])
  }

  /** An object that can be put on `parent`: a new id.  What its actions do is not looked at. */
  predicate BuildsOn(s: Lake, parent: Id, o: CommitObject) {
    o.commit != NIL && o.commit !in s.used && o.parent == parent
  }

  /** The lake after an event, or nothing if the event cannot happen. */
  ghost function Next(s: Lake, e: Event): Option<Lake>
    requires s.repo.Acyclic()
  {
    match e
    case Start(w, b) =>
      if w in s.writers then None
      else Some(s.WithWriter(w, Writer(b, 0, Reading, {})))
    case LookupOk(w) =>
      if w !in s.writers || !s.writers[w].phase.Reading? || s.writers[w].branch !in s.branches then None
      else Some(s.WithWriter(w, s.writers[w].(phase := Creating(s.branches[s.writers[w].branch]))))
    case LookupFails(w) =>
      if w !in s.writers || !s.writers[w].phase.Reading? then None
      else Some(s.WithWriter(w, s.writers[w].(phase := Failed)))
    case CreateOk(w, o) =>
      if w !in s.writers || !s.writers[w].phase.Creating? || !BuildsOn(s, s.writers[w].phase.parent, o) then None
      else
        var x := s.writers[w];
        Some(s.WithWriter(w, x.(phase := Putting(x.phase.parent, o), made := x.made + {o.commit}))
              .(used := s.used + {o.commit}, clean := if s.repo.Clean(o) then s.clean + {o.commit} else s.clean))
    case CreateFails(w) =>
      if w !in s.writers || !s.writers[w].phase.Creating? then None
      else Some(s.WithWriter(w, s.writers[w].(phase := Failed)))
    case PutOk(w) =>
      if w !in s.writers || !s.writers[w].phase.Putting? then None
      else
        var x := s.writers[w];
        Some(s.WithWriter(w, x.(phase := Updating(x.phase.parent, x.phase.built)))
              .(repo := s.repo.With(x.phase.built)))
    case PutFails(w, written) =>
      if w !in s.writers || !s.writers[w].phase.Putting? then None
      else
        var x := s.writers[w];
        Some(s.WithWriter(w, x.(phase := Failed))
              .(repo := if written then s.repo.With(x.phase.built) else s.repo))
    case UpdateOk(w) =>
      if w !in s.writers || !s.writers[w].phase.Updating? then None
      else
        var x := s.writers[w];
        var c := x.phase.built.commit;
        if x.branch !in s.branches || s.branches[x.branch] != x.phase.parent then None
        else Some(s.WithWriter(w, x.(phase := Committed(c)))
              .(branches := s.branches[x.branch := c],
                published := s.published + {c},
                history := s.history[x.branch := (if x.branch in s.history then s.history[x.branch] else []) + [c]]))
    case UpdateConstraint(w) =>
      if w !in s.writers || !s.writers[w].phase.Updating? then None
      else
        var x := s.writers[w];
        if x.branch !in s.branches || s.branches[x.branch] == x.phase.parent then None
        else Some(s.WithWriter(w, x.(phase := Removing(x.phase.built, Constraint))))
    case UpdateFails(w) =>
      if w !in s.writers || !s.writers[w].phase.Updating? then None
      else Some(s.WithWriter(w, s.writers[w].(phase := Removing(s.writers[w].phase.built, OtherError))))
    case RemoveOk(w) =>
      if w !in s.writers || !s.writers[w].phase.Removing? then None
      else
        var x := s.writers[w];
        var next :=
          if x.phase.why.OtherError? then x.(phase := Failed)
          else x.(retries := x.retries + 1, phase := if x.retries + 1 < MAX_COMMIT_RETRIES then Reading else GaveUp);
        Some(s.WithWriter(w, next).(repo := s.repo.Without(x.phase.built.commit)))
    case RemoveFails(w) =>
      if w !in s.writers || !s.writers[w].phase.Removing? then None
      else Some(s.WithWriter(w, s.writers[w].(phase := Failed)))
    case CreateBranch(name, at) =>
      if name in s.branches || !s.Known(at) then None
      else Some(s.(branches := s.branches[name := at], history := s.history[name := [at]]))
    case RemoveBranch(name) =>
      if name !in s.branches then None
      else Some(s.(branches := s.branches - {name}))
  }

  // ---------------------------------------------------------------------------
  // What every step keeps

  /** Published commits are stored and form complete paths. */
  ghost predicate PublishedOk(repo: Repo, published: set<Id>) {
    && repo.Acyclic()
    && (forall c :: c in published ==> c in repo.objects && (repo.objects[c].parent == NIL || repo.objects[c].parent in published))
  }

  /** Whether a commit was clean when it was built is whether it is clean now. */
  ghost predicate Judged(repo: Repo, clean: set<Id>, o: CommitObject)
    requires repo.Acyclic()
  {
    o.commit in clean <==> repo.Clean(o)
  }

  ghost predicate AllJudged(repo: Repo, published: set<Id>, clean: set<Id>)
    requires PublishedOk(repo, published)
  {
    forall c :: c in published ==> Judged(repo, clean, repo.objects[c])
  }

  /** Where a writer stands: what it owns in the store, and that only a committed object is published. */
  ghost predicate WriterOk(s: Lake, x: Writer) {
    var mine := x.made * s.repo.objects.Keys;
    && x.made <= s.used
    && (x.retries < MAX_COMMIT_RETRIES || x.phase.GaveUp?)
    && (!x.phase.Committed? ==> x.made !! s.published)
    && match x.phase
       case Reading => mine == {}
       case Creating(p) => mine == {} && s.Known(p)
       case Putting(p, o) => mine == {} && s.Known(p) && o.commit in x.made && o.commit !in s.repo.rank && o.parent == p
       case Updating(p, o) => mine == {o.commit} && s.Known(p) && s.repo.objects[o.commit] == o && o.parent == p
       case Removing(o, _) => mine == {o.commit}
       case Committed(c) => mine == {c} && c in s.published
       case Failed => true
       case GaveUp => mine == {} && x.retries == MAX_COMMIT_RETRIES
  }

  /** What a writer has built and not yet published is judged. */
  ghost predicate WriterJudged(s: Lake, x: Writer)
    requires s.repo.Acyclic()
  {
    x.phase.Putting? || x.phase.Updating? ==> Judged(s.repo, s.clean, x.phase.built)
  }

  /** The commit `tip`, entry `i` of `tips`, was built on the entry before it. */
  ghost predicate Succeeds(s: Lake, tip: Id, tips: seq<Id>, i: nat)
    requires 0 < i <= |tips|
  {
    tip in s.published && tip in s.repo.objects && s.repo.objects[tip].parent == tips[i - 1]
  }

  /** The tips of a branch since its creation: each one was built on the one before it. */
  ghost predicate Serial(s: Lake, tips: seq<Id>) {
    && tips != []
    && s.Known(tips[0])
    && forall i :: 0 < i < |tips| ==> Succeeds(s, tips[i], tips, i)
  }

  ghost predicate BranchesOk(s: Lake) {
    forall b :: b in s.branches ==>
      b in s.history && Serial(s, s.history[b]) && s.history[b][|s.history[b]| - 1] == s.branches[b]
  }

  ghost predicate Separate(s: Lake) {
    forall v, w :: v in s.writers && w in s.writers && v != w ==> s.writers[v].made !! s.writers[w].made
  }

  ghost predicate Structured(s: Lake) {
    && PublishedOk(s.repo, s.published)
    && s.repo.rank.Keys <= s.used && s.published <= s.used && NIL !in s.used
    && BranchesOk(s)
    && Separate(s)
    && forall w :: w in s.writers ==> WriterOk(s, s.writers[w])
  }

  ghost predicate Inv(s: Lake) {
    && Structured(s)
    && s.clean <= s.used
    && AllJudged(s.repo, s.published, s.clean)
    && forall w :: w in s.writers ==> WriterJudged(s, s.writers[w])
  }

  /** Replaying a published commit looks at published commits only. */
  lemma {:induction false} ReplayStable(r: Repo, q: Repo, published: set<Id>, c: Id)
    requires PublishedOk(r, published) && q.Acyclic() && (c == NIL || c in published)
    requires forall p :: p in published ==> p in q.objects && q.objects[p] == r.objects[p]
    ensures q.Replay(c) == r.Replay(c)
    decreases if c == NIL then 0 else r.Height(c)
  {
    if c != NIL {
      ReplayStable(r, q, published, r.objects[c].parent);
    }
  }

  lemma {:induction false} PutAcyclic(r: Repo, published: set<Id>, o: CommitObject)
    requires PublishedOk(r, published) && o.commit != NIL && o.commit !in r.objects && o.commit !in r.rank
    requires o.parent == NIL || o.parent in published
    ensures r.With(o).Acyclic()
  {
  }

  lemma {:induction false} WritersKept(s: Lake, t: Lake, w: WriterId)
    requires Structured(s) && PublishedOk(t.repo, t.published)
    requires t.writers.Keys == s.writers.Keys + {w} && forall v :: v in s.writers && v != w ==> t.writers[v] == s.writers[v]
    requires s.used <= t.used && s.published <= t.published
    requires forall v :: v in s.writers && v != w ==> s.writers[v].made !! t.published - s.published
    requires forall p :: p in s.published ==> p in t.repo.objects && t.repo.objects[p] == s.repo.objects[p]
    requires forall v, c :: v in s.writers && v != w && c in s.writers[v].made ==>
               && (c in s.repo.objects <==> c in t.repo.objects)
               && (c in s.repo.objects ==> t.repo.objects[c] == s.repo.objects[c])
               && (c in t.repo.rank ==> c in s.repo.rank)
    ensures forall v :: v in s.writers && v != w ==> WriterOk(t, t.writers[v])
  {
    forall v | v in s.writers && v != w ensures WriterOk(t, t.writers[v]) {
      WriterKept(s, t, s.writers[v]);
    }
  }

  /** A step of another writer leaves a writer where it stands. */
  lemma {:induction false} WriterKept(s: Lake, t: Lake, x: Writer)
    requires PublishedOk(s.repo, s.published) && PublishedOk(t.repo, t.published) && WriterOk(s, x)
    requires s.used <= t.used && s.published <= t.published && x.made !! t.published - s.published
    requires forall p :: p in s.published ==> p in t.repo.objects && t.repo.objects[p] == s.repo.objects[p]
    requires forall c :: c in x.made ==>
               && (c in s.repo.objects <==> c in t.repo.objects)
               && (c in s.repo.objects ==> t.repo.objects[c] == s.repo.objects[c])
               && (c in t.repo.rank ==> c in s.repo.rank)
    ensures WriterOk(t, x)
  {
    assert x.made * t.repo.objects.Keys == x.made * s.repo.objects.Keys;
  }

  lemma {:induction false} SerialKept(s: Lake, t: Lake, tips: seq<Id>)
    requires Serial(s, tips) && s.published <= t.published
    requires forall p :: p in s.published && p in s.repo.objects ==> p in t.repo.objects && t.repo.objects[p] == s.repo.objects[p]
    ensures Serial(t, tips)
  {
    forall i | 0 < i < |tips| ensures Succeeds(t, tips[i], tips, i) {
      assert Succeeds(s, tips[i], tips, i);
    }
  }

  lemma {:induction false} BranchesKept(s: Lake, t: Lake)
    requires BranchesOk(s) && s.published <= t.published && t.branches == s.branches && t.history == s.history
    requires forall p :: p in s.published && p in s.repo.objects ==> p in t.repo.objects && t.repo.objects[p] == s.repo.objects[p]
    ensures BranchesOk(t)
  {
    forall b | b in t.branches ensures Serial(t, t.history[b]) {
      SerialKept(s, t, s.history[b]);
    }
  }

  /** Steps that only move one writer on. */
  lemma {:induction false} LocalStepKeeps(s: Lake, w: WriterId, x: Writer)
    requires Structured(s) && WriterOk(s, x)
    requires x.made == if w in s.writers then s.writers[w].made else {}
    ensures Structured(s.WithWriter(w, x))
  {
    var t := s.WithWriter(w, x);
    BranchesKept(s, t);
    forall v | v in t.writers ensures WriterOk(t, t.writers[v]) {
      assert v != w ==> WriterOk(s, s.writers[v]);
    }
  }

  lemma {:induction false} CreateKeeps(s: Lake, w: WriterId, o: CommitObject)
    requires Structured(s) && Next(s, CreateOk(w, o)).Some?
    ensures Structured(Next(s, CreateOk(w, o)).value)
  {
    var t := Next(s, CreateOk(w, o)).value;
    assert WriterOk(s, s.writers[w]);
    WritersKept(s, t, w);
    BranchesKept(s, t);
    assert WriterOk(t, t.writers[w]) by {
      assert o.commit !in s.repo.objects;
      assert t.writers[w].made * s.repo.objects.Keys == {};
    }
    forall v | v in s.writers && v != w ensures t.writers[v].made !! t.writers[w].made {
      assert WriterOk(s, s.writers[v]);
    }
  }

  lemma {:induction false} PutPublished(s: Lake, w: WriterId)
    requires Structured(s) && w in s.writers && s.writers[w].phase.Putting?
    ensures PublishedOk(s.repo.With(s.writers[w].phase.built), s.published)
    ensures s.writers[w].phase.built.commit in s.writers[w].made && s.writers[w].phase.built.commit !in s.published
    ensures s.writers[w].phase.built.commit in s.used
  {
    var x := s.writers[w];
    assert WriterOk(s, x);
    PutAcyclic(s.repo, s.published, x.phase.built);
  }

  /** The writer owns what it has put. */
  lemma {:induction false} PutOwned(s: Lake, t: Lake, x: Writer, phase: Phase)
    requires WriterOk(s, x) && x.phase.Putting? && (phase == Failed || phase == Updating(x.phase.parent, x.phase.built))
    requires t.repo == s.repo.With(x.phase.built) && t.published == s.published && t.used == s.used
    ensures WriterOk(t, x.(phase := phase))
  {
    assert x.made * t.repo.objects.Keys == {x.phase.built.commit};
  }

  lemma {:induction false} PutKeeps(s: Lake, w: WriterId, phase: Phase)
    requires Structured(s) && w in s.writers && s.writers[w].phase.Putting?
    requires phase == Failed || phase == Updating(s.writers[w].phase.parent, s.writers[w].phase.built)
    ensures Structured(s.WithWriter(w, s.writers[w].(phase := phase)).(repo := s.repo.With(s.writers[w].phase.built)))
  {
    var x := s.writers[w];
    var t := s.WithWriter(w, x.(phase := phase)).(repo := s.repo.With(x.phase.built));
    PutPublished(s, w);
    assert WriterOk(s, x);
    WritersKept(s, t, w);
    BranchesKept(s, t);
    PutOwned(s, t, x, phase);
  }

  lemma {:induction false} RemoveKeeps(s: Lake, w: WriterId)
    requires Structured(s) && Next(s, RemoveOk(w)).Some?
    ensures Structured(Next(s, RemoveOk(w)).value)
  {
    var t := Next(s, RemoveOk(w)).value;
    var x := s.writers[w];
    assert WriterOk(s, x);
    WritersKept(s, t, w);
    BranchesKept(s, t);
    assert x.made * t.repo.objects.Keys == {};
    assert WriterOk(t, t.writers[w]);
  }

  lemma {:induction false} UpdateKeeps(s: Lake, w: WriterId)
    requires Structured(s) && Next(s, UpdateOk(w)).Some?
    ensures Structured(Next(s, UpdateOk(w)).value)
  {
    var t := Next(s, UpdateOk(w)).value;
    var x := s.writers[w];
    var c := x.phase.built.commit;
    assert WriterOk(s, x);
    assert c in x.made * s.repo.objects.Keys;
    assert PublishedOk(t.repo, t.published);
    WritersKept(s, t, w);
    assert WriterOk(t, t.writers[w]);
    UpdateExtends(s, t, x.branch, c);
  }

  lemma {:induction false} UpdateExtends(s: Lake, t: Lake, branch: Name, c: Id)
    requires BranchesOk(s) && t.repo == s.repo && t.published == s.published + {c} && branch in s.branches
    requires t.branches == s.branches[branch := c] && t.history == s.history[branch := s.history[branch] + [c]]
    requires c in s.repo.objects && s.repo.objects[c].parent == s.branches[branch]
    ensures BranchesOk(t)
  {
    forall b | b in t.branches
      ensures b in t.history && Serial(t, t.history[b]) && t.history[b][|t.history[b]| - 1] == t.branches[b]
    {
      SerialKept(s, t, s.history[b]);
      if b == branch {
        ExtendSerial(t, s.history[b], c);
      }
    }
  }

  lemma {:induction false} ExtendSerial(s: Lake, tips: seq<Id>, c: Id)
    requires Serial(s, tips) && c in s.published && c in s.repo.objects && s.repo.objects[c].parent == tips[|tips| - 1]
    ensures Serial(s, tips + [c])
  {
    var more := tips + [c];
    forall i | 0 < i < |more| ensures Succeeds(s, more[i], more, i) {
      if i < |tips| {
        assert Succeeds(s, tips[i], tips, i);
      }
    }
  }

  lemma {:induction false} BranchEventKeeps(s: Lake, e: Event)
    requires Structured(s) && (e.CreateBranch? || e.RemoveBranch?) && Next(s, e).Some?
    ensures Structured(Next(s, e).value)
  {
    var t := Next(s, e).value;
    forall w | w in t.writers ensures WriterOk(t, t.writers[w]) {
      assert WriterOk(s, s.writers[w]);
    }
    forall b | b in t.branches
      ensures b in t.history && Serial(t, t.history[b]) && t.history[b][|t.history[b]| - 1] == t.branches[b]
    {
      if b in s.branches {
        SerialKept(s, t, s.history[b]);
      }
    }
  }

  /** Events that only move one writer on. */
  predicate Local(e: Event) {
    !e.CreateBranch? && !e.RemoveBranch? && !e.CreateOk? && !e.PutOk? && !e.PutFails? && !e.UpdateOk? && !e.RemoveOk?
  }

  lemma {:induction false} LocalEventKeeps(s: Lake, e: Event)
    requires Structured(s) && Local(e) && Next(s, e).Some?
    ensures Structured(Next(s, e).value)
  {
    if e.Start? {
      LocalStepKeeps(s, e.w, Writer(e.branch, 0, Reading, {}));
    } else {
      assert WriterOk(s, s.writers[e.w]);
      if e.LookupOk? {
        TipsAreKnown(s, s.writers[e.w].branch);
      }
      LocalStepKeeps(s, e.w, Next(s, e).value.writers[e.w]);
    }
  }

  lemma {:induction false} PutEventKeeps(s: Lake, e: Event)
    requires Structured(s) && (e.PutOk? || e.PutFails?) && Next(s, e).Some?
    ensures Structured(Next(s, e).value)
  {
    if e.PutOk? {
      PutKeeps(s, e.w, Updating(s.writers[e.w].phase.parent, s.writers[e.w].phase.built));
    } else if e.written {
      PutKeeps(s, e.w, Failed);
    } else {
      assert WriterOk(s, s.writers[e.w]);
      LocalStepKeeps(s, e.w, s.writers[e.w].(phase := Failed));
    }
  }

  lemma {:induction false} StructureKept(s: Lake, e: Event)
    requires Structured(s) && Next(s, e).Some?
    ensures Structured(Next(s, e).value)
  {
    match e
    case CreateBranch(_, _) => BranchEventKeeps(s, e);
    case RemoveBranch(_) => BranchEventKeeps(s, e);
    case CreateOk(w, o) => CreateKeeps(s, w, o);
    case PutOk(_) => PutEventKeeps(s, e);
    case PutFails(_, _) => PutEventKeeps(s, e);
    case UpdateOk(w) => UpdateKeeps(s, w);
    case RemoveOk(w) => RemoveKeeps(s, w);
    case _ => LocalEventKeeps(s, e);
  }

  lemma {:induction false} TipsAreKnown(s: Lake, b: Name)
    requires BranchesOk(s) && b in s.branches
    ensures s.Known(s.branches[b])
  {
    var tips := s.history[b];
    if |tips| > 1 {
      assert Succeeds(s, tips[|tips| - 1], tips, |tips| - 1);
    }
  }

  /** Nothing published is ever changed or removed. */
  lemma {:induction false} StepPreservesPublished(s: Lake, e: Event)
    requires Structured(s) && Next(s, e).Some?
    ensures s.published <= Next(s, e).value.published
    ensures forall c :: c in s.published ==>
              c in Next(s, e).value.repo.objects && Next(s, e).value.repo.objects[c] == s.repo.objects[c]
  {
    PublishedGrows(s, e);
    match e
    case RemoveOk(w) => RemoveSparesPublished(s, w);
    case PutOk(w) => PutSparesPublished(s, w);
    case PutFails(w, _) => PutSparesPublished(s, w);
    case _ => StoreStays(s, e);
  }

  lemma {:induction false} PublishedGrows(s: Lake, e: Event)
    requires s.repo.Acyclic() && Next(s, e).Some?
    ensures s.published <= Next(s, e).value.published
  {
  }

  lemma {:induction false} StoreStays(s: Lake, e: Event)
    requires s.repo.Acyclic() && Next(s, e).Some? && !e.RemoveOk? && !e.PutOk? && !e.PutFails?
    ensures Next(s, e).value.repo == s.repo
  {
  }

  lemma {:induction false} RemoveSparesPublished(s: Lake, w: WriterId)
    requires Structured(s) && Next(s, RemoveOk(w)).Some?
    ensures s.writers[w].phase.built.commit !in s.published
  {
    assert WriterOk(s, s.writers[w]);
    assert s.writers[w].phase.built.commit in s.writers[w].made * s.repo.objects.Keys;
  }

  lemma {:induction false} PutSparesPublished(s: Lake, w: WriterId)
    requires Structured(s) && w in s.writers && s.writers[w].phase.Putting?
    ensures s.writers[w].phase.built.commit !in s.published
  {
    assert WriterOk(s, s.writers[w]);
  }

  /** Only a new object is judged by a step, and its id is new. */
  lemma {:induction false} JudgementsStay(s: Lake, e: Event, c: Id)
    requires s.repo.Acyclic() && Next(s, e).Some? && c in s.used
    ensures c in Next(s, e).value.clean <==> c in s.clean
  {
  }

  lemma {:induction false} StaysJudged(s: Lake, t: Lake, o: CommitObject)
    requires PublishedOk(s.repo, s.published) && t.repo.Acyclic() && s.Known(o.parent)
    requires forall p :: p in s.published ==> p in t.repo.objects && t.repo.objects[p] == s.repo.objects[p]
    requires Judged(s.repo, s.clean, o) && (o.commit in t.clean <==> o.commit in s.clean)
    ensures Judged(t.repo, t.clean, o)
  {
    ReplayStable(s.repo, t.repo, s.published, o.parent);
  }

  lemma {:induction false} PublishedJudged(s: Lake, e: Event, c: Id)
    requires Inv(s) && Next(s, e).Some? && Structured(Next(s, e).value) && c in Next(s, e).value.published
    ensures var t := Next(s, e).value; Judged(t.repo, t.clean, t.repo.objects[c])
  {
    var t := Next(s, e).value;
    StepPreservesPublished(s, e);
    if c in s.published {
      JudgementsStay(s, e, c);
      StaysJudged(s, t, s.repo.objects[c]);
    } else {
      NewlyPublished(s, e, c);
      assert WriterOk(s, s.writers[e.w]) && WriterJudged(s, s.writers[e.w]);
      assert c in s.writers[e.w].made * s.repo.objects.Keys;
    }
  }

  lemma {:induction false} NewlyPublished(s: Lake, e: Event, c: Id)
    requires s.repo.Acyclic() && Next(s, e).Some? && c in Next(s, e).value.published && c !in s.published
    ensures e.UpdateOk? && e.w in s.writers && s.writers[e.w].phase.Updating? && c == s.writers[e.w].phase.built.commit
    ensures Next(s, e).value.repo == s.repo && Next(s, e).value.clean == s.clean
  {
  }

  lemma {:induction false} CreateJudged(s: Lake, w: WriterId, o: CommitObject)
    requires Inv(s) && Next(s, CreateOk(w, o)).Some?
    ensures WriterJudged(Next(s, CreateOk(w, o)).value, Next(s, CreateOk(w, o)).value.writers[w])
  {
  }

  /** What a step leaves a writer about to publish, it had built before or builds now. */
  lemma {:induction false} BuiltBefore(s: Lake, e: Event, v: WriterId)
    requires s.repo.Acyclic() && Next(s, e).Some? && v in Next(s, e).value.writers
    ensures var x := Next(s, e).value.writers[v];
            (x.phase.Putting? || x.phase.Updating?) && !(e.CreateOk? && e.w == v) ==>
              v in s.writers && (s.writers[v].phase.Putting? || s.writers[v].phase.Updating?) && s.writers[v].phase.built == x.phase.built
  {
  }

  lemma {:induction false} BuiltJudged(s: Lake, e: Event, v: WriterId)
    requires Inv(s) && Next(s, e).Some? && Structured(Next(s, e).value) && v in Next(s, e).value.writers
    ensures WriterJudged(Next(s, e).value, Next(s, e).value.writers[v])
  {
    var t := Next(s, e).value;
    BuiltBefore(s, e, v);
    if e.CreateOk? && e.w == v {
      CreateJudged(s, v, e.built);
    } else if t.writers[v].phase.Putting? || t.writers[v].phase.Updating? {
      var x := s.writers[v];
      assert WriterOk(s, x) && WriterJudged(s, x);
      assert x.phase.Updating? ==> x.phase.built.commit in x.made * s.repo.objects.Keys;
      JudgementsStay(s, e, x.phase.built.commit);
      StepPreservesPublished(s, e);
      StaysJudged(s, t, x.phase.built);
    }
  }

  /** Every event keeps the invariant. */
  lemma {:induction false} StepKeeps(s: Lake, e: Event)
    requires Inv(s) && Next(s, e).Some?
    ensures Inv(Next(s, e).value)
  {
    var t := Next(s, e).value;
    StructureKept(s, e);
    forall c | c in t.published ensures Judged(t.repo, t.clean, t.repo.objects[c]) {
      PublishedJudged(s, e, c);
    }
    forall v | v in t.writers ensures WriterJudged(t, t.writers[v]) {
      BuiltJudged(s, e, v);
    }
    CleanUsed(s, e);
  }

  lemma {:induction false} CleanUsed(s: Lake, e: Event)
    requires s.repo.Acyclic() && s.clean <= s.used && Next(s, e).Some?
    ensures Next(s, e).value.clean <= Next(s, e).value.used
  {
  }

  // ---------------------------------------------------------------------------
  // Whole runs

  /** The lake after a sequence of events, or nothing if some event cannot happen. */
  ghost function Run(s: Lake, events: seq<Event>): Option<Lake>
    requires Inv(s)
    decreases |events|
  {
    if events == [] then Some(s)
    else
      match Next(s, events[0])
      case None => None
      case Some(t) => StepKeeps(s, events[0]); Run(t, events[1..])
  }

  /** An empty lake. */
  lemma {:induction false} InitHolds()
    ensures Inv(Init())
  {
  }

  lemma {:induction false} RunKeeps(s: Lake, events: seq<Event>)
    requires Inv(s) && Run(s, events).Some?
    ensures Inv(Run(s, events).value)
    decreases |events|
  {
    if events != [] {
      StepKeeps(s, events[0]);
      RunKeeps(Next(s, events[0]).value, events[1..]);
    }
  }

  /**
   History is never rewritten: through any run, every commit that was ever a tip
   keeps its object and its state.
   */
  lemma {:induction false} PublishedIsPermanent(s: Lake, events: seq<Event>, c: Id)
    requires Inv(s) && Run(s, events).Some? && c in s.published
    ensures var t := Run(s, events).value;
            && Inv(t) && c in t.published && c in t.repo.objects
            && t.repo.objects[c] == s.repo.objects[c]
            && t.repo.Replay(c) == s.repo.Replay(c)
    decreases |events|
  {
    RunKeeps(s, events);
    if events != [] {
      var u := Next(s, events[0]).value;
      StepKeeps(s, events[0]);
      StepPreservesPublished(s, events[0]);
      ReplayStable(s.repo, u.repo, s.published, c);
      PublishedIsPermanent(u, events[1..], c);
    }
  }

  lemma {:induction false} PathsArePublished(s: Lake, c: Id)
    requires Inv(s) && s.Known(c)
    ensures s.repo.Path(c).Some?
    ensures forall p :: p in s.repo.Path(c).value ==> p in s.published
    decreases if c == NIL then 0 else s.repo.Height(c)
  {
    if c != NIL {
      PathsArePublished(s, s.repo.objects[c].parent);
    }
  }

  /** Removing a commit object after a failed update never touches a commit on any branch's path. */
  lemma {:induction false} RemovalIsSafe(s: Lake, w: WriterId, b: Name)
    requires Inv(s) && w in s.writers && s.writers[w].phase.Removing? && b in s.branches
    ensures s.repo.Path(s.branches[b]).Some?
    ensures s.writers[w].phase.built.commit !in s.repo.Path(s.branches[b]).value
  {
    TipsAreKnown(s, b);
    PathsArePublished(s, s.branches[b]);
    assert WriterOk(s, s.writers[w]);
    assert s.writers[w].phase.built.commit in s.writers[w].made * s.repo.objects.Keys;
  }

  lemma {:induction false} EarlierTipsAreAncestors(s: Lake, tips: seq<Id>, i: nat, j: nat)
    requires Inv(s) && Serial(s, tips) && i <= j < |tips|
    ensures s.Known(tips[j]) && s.repo.Path(tips[j]).Some?
    ensures tips[i] == NIL || tips[i] in s.repo.Path(tips[j]).value
    decreases j
  {
    if j > 0 {
      assert Succeeds(s, tips[j], tips, j);
    }
    PathsArePublished(s, tips[j]);
    if i < j {
      EarlierTipsAreAncestors(s, tips, i, j - 1);
      assert s.repo.Path(tips[j]).value == [tips[j]] + s.repo.Path(tips[j - 1]).value;
    } else if tips[j] != NIL {
      s.repo.PathMembers(tips[j]);
    }
  }

  ghost predicate Removes(events: seq<Event>, b: Name) {
    RemoveBranch(b) in events
  }

  lemma {:induction false} StepExtendsHistory(s: Lake, e: Event, b: Name)
    requires s.repo.Acyclic() && b in s.branches && b in s.history
    requires Next(s, e).Some? && e != RemoveBranch(b)
    ensures b in Next(s, e).value.branches && b in Next(s, e).value.history
    ensures s.history[b] <= Next(s, e).value.history[b]
  {
  }

  lemma {:induction false} HistoryGrows(s: Lake, events: seq<Event>, b: Name)
    requires Inv(s) && Run(s, events).Some? && b in s.branches && !Removes(events, b)
    ensures var t := Run(s, events).value;
            b in t.branches && b in t.history && s.history[b] <= t.history[b]
    decreases |events|
  {
    if events != [] {
      var t := Next(s, events[0]).value;
      StepKeeps(s, events[0]);
      assert events[0] in events && forall e :: e in events[1..] ==> e in events;
      StepExtendsHistory(s, events[0], b);
      HistoryGrows(t, events[1..], b);
    }
  }

  /** A known commit replays exactly when every commit on its path was clean when it was built. */
  lemma {:induction false} ReplaysIffClean(s: Lake, c: Id)
    requires Inv(s) && s.Known(c)
    ensures s.repo.Path(c).Some?
    ensures s.repo.Replay(c).Some? <==> forall p :: p in s.repo.Path(c).value ==> p in s.clean
    decreases if c == NIL then 0 else s.repo.Height(c)
  {
    if c != NIL {
      var parent := s.repo.objects[c].parent;
      ReplaysIffClean(s, parent);
      assert Judged(s.repo, s.clean, s.repo.objects[c]);
      assert s.repo.Path(c).value == [c] + s.repo.Path(parent).value;
    }
  }

  /** What the invariant says about the branches of a lake. */
  ghost predicate BranchesServe(t: Lake) {
    && t.repo.Acyclic()
    && forall b :: b in t.branches ==>
         && t.repo.Path(t.branches[b]).Some?
         && (t.repo.Replay(t.branches[b]).Some? <==> forall p :: p in t.repo.Path(t.branches[b]).value ==> p in t.clean)
         && b in t.history && Serial(t, t.history[b]) && t.history[b][|t.history[b]| - 1] == t.branches[b]
  }

  lemma {:induction false} InvServes(t: Lake)
    requires Inv(t)
    ensures BranchesServe(t)
  {
    forall b | b in t.branches
      ensures t.repo.Path(t.branches[b]).Some?
      ensures t.repo.Replay(t.branches[b]).Some? <==> forall p :: p in t.repo.Path(t.branches[b]).value ==> p in t.clean
    {
      TipsAreKnown(t, b);
      ReplaysIffClean(t, t.branches[b]);
    }
  }

  /**
   In every run from an empty lake, whatever the interleaving: the tips of each branch since its
   creation form a chain in which each was built on the one before, and the tip replays from the
   root exactly when every commit on its path was clean when it was built.
   */
  lemma {:induction false} RunsAreSerial(events: seq<Event>)
    ensures Inv(Init())
    ensures Run(Init(), events).Some? ==> BranchesServe(Run(Init(), events).value)
  {
    InitHolds();
    if Run(Init(), events).Some? {
      RunKeeps(Init(), events);
      InvServes(Run(Init(), events).value);
    }
  }

  /** In a run in which every object was clean when it was built, every tip replays. */
  lemma {:induction false} CleanRunsReplay(events: seq<Event>, b: Name)
    requires Run(Init(), events).Some? && Run(Init(), events).value.clean == Run(Init(), events).value.used
    requires b in Run(Init(), events).value.branches
    ensures var t := Run(Init(), events).value; t.repo.Acyclic() && t.repo.Replay(t.branches[b]).Some?
  {
    var t := Run(Init(), events).value;
    RunKeeps(Init(), events);
    TipsAreKnown(t, b);
    ReplaysIffClean(t, t.branches[b]);
    PathsArePublished(t, t.branches[b]);
  }

  /** A tip that does not replay leaves every later tip of its branch without a replay, until the branch is removed. */
  lemma {:induction false} UncleanTipSpoilsBranch(s: Lake, events: seq<Event>, b: Name)
    requires Inv(s) && Run(s, events).Some? && b in s.branches && !Removes(events, b)
    requires s.repo.Replay(s.branches[b]).None?
    ensures var t := Run(s, events).value; Inv(t) && b in t.branches && t.repo.Replay(t.branches[b]).None?
  {
    var t, tip := Run(s, events).value, s.branches[b];
    EarlierTipStaysAncestor(s, events, b);
    TipsAreKnown(s, b);
    PublishedIsPermanent(s, events, tip);
    TipsAreKnown(t, b);
    if t.repo.Replay(t.branches[b]).Some? {
      AncestorsReplay(t.repo, t.branches[b], tip);
    }
  }

  lemma {:induction false} AncestorsReplay(repo: Repo, c: Id, a: Id)
    requires repo.Acyclic() && repo.Path(c).Some? && a in repo.Path(c).value && repo.Replay(c).Some?
    ensures repo.Replay(a).Some?
    decreases if c == NIL then 0 else repo.Height(c)
  {
    if c != a {
      AncestorsReplay(repo, repo.objects[c].parent, a);
    }
  }

  /** A tip seen at any moment stays an ancestor of the branch's tip for as long as the branch is not removed. */
  lemma {:induction false} EarlierTipStaysAncestor(s: Lake, events: seq<Event>, b: Name)
    requires Inv(s) && Run(s, events).Some? && b in s.branches && !Removes(events, b)
    ensures var t := Run(s, events).value;
            Inv(t) && Descends(t, b, s.branches[b])
  {
    var t := Run(s, events).value;
    RunKeeps(s, events);
    var n := OldTipInHistory(s, events, b);
    PastTipsAreAncestors(t, b, n, s.branches[b]);
  }

  /** The branch has a path to the root, and the commit is on it. */
  ghost predicate Descends(t: Lake, b: Name, c: Id) {
    && t.repo.Acyclic() && b in t.branches
    && t.repo.Path(t.branches[b]).Some?
    && (c == NIL || c in t.repo.Path(t.branches[b]).value)
  }

  /** A tip keeps its place in the history of its branch. */
  lemma {:induction false} OldTipInHistory(s: Lake, events: seq<Event>, b: Name) returns (n: nat)
    requires Inv(s) && Run(s, events).Some? && b in s.branches && !Removes(events, b)
    ensures var t := Run(s, events).value;
            b in t.branches && b in t.history && n < |t.history[b]| && t.history[b][n] == s.branches[b]
  {
    TipIsLast(s, b);
    HistoryGrows(s, events, b);
    n := |s.history[b]| - 1;
  }

  lemma {:induction false} TipIsLast(s: Lake, b: Name)
    requires Inv(s) && b in s.branches
    ensures b in s.history && s.history[b] != [] && s.history[b][|s.history[b]| - 1] == s.branches[b]
  {
  }

  lemma {:induction false} PastTipsAreAncestors(t: Lake, b: Name, n: nat, tip: Id)
    requires Inv(t) && b in t.branches && b in t.history && n < |t.history[b]| && t.history[b][n] == tip
    ensures Descends(t, b, tip)
  {
    EarlierTipsAreAncestors(t, t.history[b], n, |t.history[b]| - 1);
  }

  /** The new tip's state is the built actions replayed on the tip they were built on, if those replay. */
  lemma {:induction false} UpdateAppliesActions(s: Lake, w: WriterId)
    requires Inv(s) && Next(s, UpdateOk(w)).Some?
    ensures var t := Next(s, UpdateOk(w)).value;
            var x := s.writers[w];
            && t.repo.Acyclic() && x.branch in s.branches && x.branch in t.branches
            && (t.repo.Replay(t.branches[x.branch]).Some? <==> s.repo.Clean(x.phase.built))
            && (s.repo.Clean(x.phase.built) ==>
                  Play(s.repo.Replay(s.branches[x.branch]).value, x.phase.built.actions) == Ok(t.repo.Replay(t.branches[x.branch]).value))
  {
    assert WriterOk(s, s.writers[w]);
    assert s.writers[w].phase.built.commit in s.writers[w].made * s.repo.objects.Keys;
  }

  lemma {:induction false} StepKeepsGaveUp(s: Lake, e: Event, w: WriterId)
    requires s.repo.Acyclic() && Next(s, e).Some? && w in s.writers && s.writers[w].phase.GaveUp?
    ensures w in Next(s, e).value.writers && Next(s, e).value.writers[w] == s.writers[w]
  {
  }

  lemma {:induction false} GaveUpOwnsNothing(s: Lake, w: WriterId)
    requires Inv(s) && w in s.writers && s.writers[w].phase.GaveUp?
    ensures s.writers[w].retries == MAX_COMMIT_RETRIES
    ensures s.writers[w].made !! s.repo.objects.Keys
  {
    assert WriterOk(s, s.writers[w]);
    forall c | c in s.writers[w].made ensures c !in s.repo.objects {
      assert c !in s.writers[w].made * s.repo.objects.Keys;
    }
  }

  /** A writer that has given up left no commit object behind, then or later. */
  lemma {:induction false} GivingUpLeavesNothing(s: Lake, events: seq<Event>, w: WriterId)
    requires Inv(s) && Run(s, events).Some? && w in s.writers && s.writers[w].phase.GaveUp?
    ensures var t := Run(s, events).value;
            && w in t.writers && t.writers[w] == s.writers[w]
            && t.writers[w].retries == MAX_COMMIT_RETRIES
            && t.writers[w].made !! t.repo.objects.Keys
    decreases |events|
  {
    if events == [] {
      GaveUpOwnsNothing(s, w);
    } else {
      StepKeeps(s, events[0]);
      StepKeepsGaveUp(s, events[0], w);
      GivingUpLeavesNothing(Next(s, events[0]).value, events[1..], w);
    }
  }
}
