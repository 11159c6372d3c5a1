/** Stitching the results for each tag into one dynamic vector, with nested dynamic vectors flattened. */
module Stitching {
  import opened TagMaps
  import opened Vectors

  /** What a vector contributes to a flattened dynamic vector. */
  function Pieces(v: Vec): seq<Vec> {
    if v.Dynamic? then v.members else [v]
  }

  function ConcatFirst(vs: seq<Vec>, t: nat): seq<Vec>
    requires t <= |vs|
    decreases t
  {
    if t == 0 then [] else ConcatFirst(vs, t - 1) + Pieces(vs[t - 1])
  }

  function Concat(vs: seq<Vec>): seq<Vec> {
    ConcatFirst(vs, |vs|)
  }

  /** Where the pieces of a vector start. */
  function Offset(vs: seq<Vec>, t: nat): nat
    requires t <= |vs|
  {
    |ConcatFirst(vs, t)|
  }

  /** The tag within a nested dynamic vector; zero for the others. */
  function InnerTag(v: Vec, k: nat): nat {
    if v.Dynamic? && k < |v.tags| then v.tags[k] else 0
  }

  function NewTag(tags: seq<nat>, vs: seq<Vec>, i: nat): nat
    requires InRange(tags, |vs|) && i < |tags|
  {
    Offset(vs, tags[i]) + InnerTag(vs[tags[i]], Rank(tags, i))
  }

  function NewTags(tags: seq<nat>, vs: seq<Vec>): (r: seq<nat>)
    requires InRange(tags, |vs|)
    ensures |r| == |tags|
  {
    FirstNewTags(tags, vs, |tags|)
  }

  function FirstNewTags(tags: seq<nat>, vs: seq<Vec>, n: nat): (r: seq<nat>)
    requires InRange(tags, |vs|) && n <= |tags|
    ensures |r| == n
  {
    if n == 0 then [] else FirstNewTags(tags, vs, n - 1) + [NewTag(tags, vs, n - 1)]
  }

  lemma {:induction false} FirstNewTagsAt(tags: seq<nat>, vs: seq<Vec>, n: nat, i: nat)
    requires InRange(tags, |vs|) && i < n <= |tags|
    ensures FirstNewTags(tags, vs, n)[i] == NewTag(tags, vs, i)
    decreases n
  {
    if i < n - 1 {
      FirstNewTagsAt(tags, vs, n - 1, i);
    }
  }

  lemma {:induction false} NewTagsAt(tags: seq<nat>, vs: seq<Vec>, i: nat)
    requires InRange(tags, |vs|) && i < |tags|
    ensures NewTags(tags, vs)[i] == NewTag(tags, vs, i)
  {
    FirstNewTagsAt(tags, vs, |tags|, i);
  }

  predicate AnyDynamic(vs: seq<Vec>) {
    exists i :: 0 <= i < |vs| && vs[i].Dynamic?
  }

  function Stitch(tags: seq<nat>, vs: seq<Vec>): Vec
    requires InRange(tags, |vs|)
  {
    if AnyDynamic(vs) then Dynamic(NewTags(tags, vs), Concat(vs)) else Dynamic(tags, vs)
  }

  // ---------------------------------------------------------------------------
  // The pieces lie one after the other

  lemma {:induction false} ConcatPrefix(vs: seq<Vec>, t: nat, u: nat)
    requires t <= u <= |vs|
    ensures ConcatFirst(vs, t) <= ConcatFirst(vs, u)
    decreases u
  {
    if t < u {
      ConcatPrefix(vs, t, u - 1);
    }
  }

  lemma {:induction false} OffsetsOrdered(vs: seq<Vec>, t: nat, u: nat)
    requires t < u <= |vs|
    ensures Offset(vs, t) + |Pieces(vs[t])| <= Offset(vs, u)
    decreases u - t
  {
    if t < u - 1 {
      OffsetsOrdered(vs, t, u - 1);
    }
  }

  lemma {:induction false} PieceAt(vs: seq<Vec>, t: nat, m: nat)
    requires t < |vs| && m < |Pieces(vs[t])|
    ensures Offset(vs, t) + m < |Concat(vs)| && Concat(vs)[Offset(vs, t) + m] == Pieces(vs[t])[m]
  {
    assert ConcatFirst(vs, t + 1) == ConcatFirst(vs, t) + Pieces(vs[t]);
    ConcatPrefix(vs, t + 1, |vs|);
  }

  /** A place determines the vector and the piece. */
  lemma {:induction false} PlaceUnique(vs: seq<Vec>, t: nat, m: nat, t': nat, m': nat)
    requires t < |vs| && m < |Pieces(vs[t])| && t' < |vs| && m' < |Pieces(vs[t'])|
    ensures Offset(vs, t) + m == Offset(vs, t') + m' <==> t == t' && m == m'
  {
    if t < t' {
      OffsetsOrdered(vs, t, t');
    } else if t' < t {
      OffsetsOrdered(vs, t', t);
    }
  }

  lemma {:induction false} Locate(vs: seq<Vec>, p: nat, u: nat) returns (t: nat, m: nat)
    requires p <= |vs| && u < |ConcatFirst(vs, p)|
    ensures t < p && m < |Pieces(vs[t])| && u == Offset(vs, t) + m
    decreases p
  {
    if u < Offset(vs, p - 1) {
      t, m := Locate(vs, p - 1, u);
    } else {
      t, m := p - 1, u - Offset(vs, p - 1);
    }
  }

  // ---------------------------------------------------------------------------
  // Slots of the flattened vector

  /** The results for the tags of a dynamic vector. */
  ghost predicate Results(tags: seq<nat>, vs: seq<Vec>) {
    Dense(tags, vs) && forall t :: 0 <= t < |vs| ==> Valid(vs[t])
  }

  /** How many of the first `c` slots of a result belong to its piece `m`. */
  function PieceCount(v: Vec, c: nat, m: nat): nat {
    if v.Dynamic? then (if c <= |v.tags| then |First(v.tags, c, m)| else 0) else c
  }

  lemma {:induction false} InnerTagOf(tags: seq<nat>, vs: seq<Vec>, p: nat)
    requires Results(tags, vs) && p < |tags|
    ensures Rank(tags, p) < Len(vs[tags[p]])
    ensures InnerTag(vs[tags[p]], Rank(tags, p)) < |Pieces(vs[tags[p]])|
  {
    RankInMember(tags, vs, p);
  }

  lemma {:induction false} PieceCountStep(v: Vec, c: nat, m: nat)
    requires Valid(v) && c < Len(v) && m < |Pieces(v)|
    ensures PieceCount(v, c + 1, m) == PieceCount(v, c, m) + if InnerTag(v, c) == m then 1 else 0
  {
  }

  /** A slot has a flattened tag exactly if it has the tag and the nested tag that make it up. */
  lemma {:induction false} NewTagIs(tags: seq<nat>, vs: seq<Vec>, q: nat, t: nat, m: nat)
    requires Results(tags, vs) && q < |tags| && t < |vs| && m < |Pieces(vs[t])|
    ensures NewTags(tags, vs)[q] == Offset(vs, t) + m <==> tags[q] == t && InnerTag(vs[t], Rank(tags, q)) == m
  {
    NewTagsAt(tags, vs, q);
    InnerTagOf(tags, vs, q);
    PlaceUnique(vs, t, m, tags[q], InnerTag(vs[tags[q]], Rank(tags, q)));
  }

  /** `newTags` has `place` exactly at the slots of tag `t` whose slot in `v` belongs to piece `m`. */
  ghost predicate Marks(newTags: seq<nat>, place: nat, tags: seq<nat>, t: nat, v: Vec, m: nat) {
    && |newTags| == |tags|
    && forall q :: 0 <= q < |tags| ==> (newTags[q] == place <==> tags[q] == t && InnerTag(v, Rank(tags, q)) == m)
  }

  /** Marked slots are counted through the tag and then through the nested tags. */
  lemma {:induction false} MarkedCount(newTags: seq<nat>, place: nat, tags: seq<nat>, t: nat, v: Vec, m: nat, p: nat)
    requires Marks(newTags, place, tags, t, v, m) && p <= |tags|
    requires Valid(v) && m < |Pieces(v)| && |Slots(tags, t)| == Len(v)
    ensures |First(newTags, p, place)| == PieceCount(v, |First(tags, p, t)|, m)
    decreases p
  {
    if p > 0 {
      var q := p - 1;
      MarkedCount(newTags, place, tags, t, v, m, q);
      if tags[q] == t {
        RankSlot(tags, q);
        PieceCountStep(v, Rank(tags, q), m);
      }
    }
  }

  lemma {:induction false} FlattenedCount(tags: seq<nat>, vs: seq<Vec>, p: nat, t: nat, m: nat)
    requires Results(tags, vs) && p <= |tags| && t < |vs| && m < |Pieces(vs[t])|
    ensures |First(NewTags(tags, vs), p, Offset(vs, t) + m)| == PieceCount(vs[t], |First(tags, p, t)|, m)
  {
    forall q | 0 <= q < |tags|
      ensures NewTags(tags, vs)[q] == Offset(vs, t) + m <==> tags[q] == t && InnerTag(vs[t], Rank(tags, q)) == m
    {
      NewTagIs(tags, vs, q, t, m);
    }
    MarkedCount(NewTags(tags, vs), Offset(vs, t) + m, tags, t, vs[t], m, p);
  }

  lemma {:induction false} FlattenedRank(tags: seq<nat>, vs: seq<Vec>, i: nat)
    requires Results(tags, vs) && i < |tags|
    ensures var t, k := tags[i], Rank(tags, i);
            && k < Len(vs[t])
            && InnerTag(vs[t], k) < |Pieces(vs[t])|
            && Rank(NewTags(tags, vs), i) == PieceCount(vs[t], k, InnerTag(vs[t], k))
  {
    InnerTagOf(tags, vs, i);
    var m := InnerTag(vs[tags[i]], Rank(tags, i));
    NewTagsAt(tags, vs, i);
    RankIs(NewTags(tags, vs), i, Offset(vs, tags[i]) + m);
    FlattenedCount(tags, vs, i, tags[i], m);
  }

  lemma {:induction false} RankIs(tags: seq<nat>, i: nat, t: nat)
    requires i < |tags| && tags[i] == t
    ensures Rank(tags, i) == |First(tags, i, t)|
  {
  }

  lemma {:induction false} FlattenedDense(tags: seq<nat>, vs: seq<Vec>)
    requires Results(tags, vs)
    ensures Results(NewTags(tags, vs), Concat(vs))
  {
    var newTags, all := NewTags(tags, vs), Concat(vs);
    forall i | 0 <= i < |tags| ensures newTags[i] < |all| {
      NewTagsAt(tags, vs, i);
      InnerTagOf(tags, vs, i);
      PieceAt(vs, tags[i], InnerTag(vs[tags[i]], Rank(tags, i)));
    }
    forall u | 0 <= u < |all| ensures Valid(all[u]) && |Slots(newTags, u)| == Len(all[u]) {
      var t, m := Locate(vs, |vs|, u);
      PieceAt(vs, t, m);
      FlattenedCount(tags, vs, |tags|, t, m);
    }
  }

  /** Slot by slot, stitching delivers the result for the slot's tag. */
  lemma {:induction false} StitchShows(tags: seq<nat>, vs: seq<Vec>)
    requires Results(tags, vs)
    ensures var r := Stitch(tags, vs);
            && Valid(r) && Len(r) == |tags|
            && forall i :: 0 <= i < |tags| ==>
                 Rank(tags, i) < Len(vs[tags[i]]) && At(r, i) == At(vs[tags[i]], Rank(tags, i))
  {
    forall i | 0 <= i < |tags| ensures Rank(tags, i) < Len(vs[tags[i]]) {
      RankInMember(tags, vs, i);
    }
    if AnyDynamic(vs) {
      FlattenedDense(tags, vs);
      forall i | 0 <= i < |tags| ensures At(Stitch(tags, vs), i) == At(vs[tags[i]], Rank(tags, i)) {
        FlattenedSlot(tags, vs, i);
      }
    }
  }

  lemma {:induction false} FlattenedSlot(tags: seq<nat>, vs: seq<Vec>, i: nat)
    requires Results(tags, vs) && Results(NewTags(tags, vs), Concat(vs)) && i < |tags|
    ensures Rank(tags, i) < Len(vs[tags[i]])
    ensures At(Dynamic(NewTags(tags, vs), Concat(vs)), i) == At(vs[tags[i]], Rank(tags, i))
  {
    NewTagsAt(tags, vs, i);
    FlattenedRank(tags, vs, i);
    PieceAt(vs, tags[i], InnerTag(vs[tags[i]], Rank(tags, i)));
  }

  /** No member of a dynamic vector is dynamic. */
  predicate NotNested(v: Vec) {
    v.Dynamic? ==> forall t :: 0 <= t < |v.members| ==> !v.members[t].Dynamic?
  }

  lemma {:induction false} StitchFlattens(tags: seq<nat>, vs: seq<Vec>)
    requires InRange(tags, |vs|) && forall t :: 0 <= t < |vs| ==> NotNested(vs[t])
    ensures NotNested(Stitch(tags, vs))
  {
    forall u | 0 <= u < |Concat(vs)| ensures !Concat(vs)[u].Dynamic? {
      var t, m := Locate(vs, |vs|, u);
      PieceAt(vs, t, m);
    }
  }

  // ---------------------------------------------------------------------------
  // The loops of stitch

  /** What turns a tag into the place of its first piece. */
  function Shifts(vs: seq<Vec>): (r: seq<int>)
    ensures |r| == |vs|
  {
    seq(|vs|, t requires 0 <= t < |vs| => Offset(vs, t) - t)
  }

  /** Nested tags that are taken from the front. */
  datatype Queue = Queue(tags: seq<nat>)

  function Nested(v: Vec): Queue {
    Queue(if v.Dynamic? then v.tags else [])
  }

  function Dropped(q: Queue, k: nat): Queue {
    Queue(if k <= |q.tags| then q.tags[k..] else [])
  }

  /** The nested tags that are left when one was used for every slot so far. */
  function Left(vs: seq<Vec>, tags: seq<nat>, p: nat): (r: seq<Queue>)
    requires p <= |tags|
    ensures |r| == |vs|
  {
    seq(|vs|, t requires 0 <= t < |vs| => LeftOf(vs[t], tags, p, t))
  }

  function LeftOf(v: Vec, tags: seq<nat>, p: nat, t: nat): Queue
    requires p <= |tags|
  {
    Dropped(Nested(v), |First(tags, p, t)|)
  }

  function FirstOf(q: Queue): nat {
    if q.tags != [] then q.tags[0] else 0
  }

  function RestOf(q: Queue): Queue {
    if q.tags != [] then Queue(q.tags[1..]) else q
  }

  lemma {:induction false} LeftOfStep(v: Vec, tags: seq<nat>, i: nat, t: nat)
    requires i < |tags|
    ensures LeftOf(v, tags, i + 1, t) == if tags[i] == t then RestOf(LeftOf(v, tags, i, t)) else LeftOf(v, tags, i, t)
  {
  }

  lemma {:induction false} FirstLeft(tags: seq<nat>, vs: seq<Vec>, i: nat)
    requires InRange(tags, |vs|) && i < |tags|
    ensures NewTag(tags, vs, i) == Offset(vs, tags[i]) + FirstOf(LeftOf(vs[tags[i]], tags, i, tags[i]))
  {
    RankIs(tags, i, tags[i]);
  }

  lemma {:induction false} ColumnStep(vs: seq<Vec>, tags: seq<nat>, t: nat)
    requires t < |vs|
    ensures Left(vs, tags, 0)[..t + 1] == Left(vs, tags, 0)[..t] + [Nested(vs[t])]
    ensures Shifts(vs)[..t + 1] == Shifts(vs)[..t] + [Offset(vs, t) - t]
  {
    var left := Left(vs, tags, 0);
    assert left[t] == Nested(vs[t]);
  }

  lemma {:induction false} LeftAfter(vs: seq<Vec>, tags: seq<nat>, i: nat, left: seq<Queue>)
    requires InRange(tags, |vs|) && i < |tags| && left == Left(vs, tags, i)
    ensures left[tags[i] := RestOf(left[tags[i]])] == Left(vs, tags, i + 1)
  {
    var after, next := left[tags[i] := RestOf(left[tags[i]])], Left(vs, tags, i + 1);
    forall u | 0 <= u < |vs| ensures after[u] == next[u] {
      LeftOfStep(vs[u], tags, i, u);
    }
  }

  /** The first loop of stitch: the nested tags, the shifts and the pieces. */
  method Flatten(tags: seq<nat>, vs: seq<Vec>) returns (nestedTags: seq<Queue>, shifts: seq<int>, newVecs: seq<Vec>)
    ensures nestedTags == Left(vs, tags, 0) && shifts == Shifts(vs) && newVecs == Concat(vs)
  {
    nestedTags, shifts, newVecs := [], [], [];
    var lastShift := 0;
    for t := 0 to |vs|
      invariant nestedTags == Left(vs, tags, 0)[..t]
      invariant shifts == Shifts(vs)[..t]
      invariant newVecs == ConcatFirst(vs, t)
      invariant lastShift == Offset(vs, t) - t
    {
      ColumnStep(vs, tags, t);
      shifts := shifts + [lastShift];
      nestedTags := nestedTags + [Nested(vs[t])];
      newVecs := newVecs + Pieces(vs[t]);
      lastShift := lastShift + |Pieces(vs[t])| - 1;
    }
  }

  /** The nested tags that are left and the new tags so far. */
  datatype Progress = Progress(left: seq<Queue>, newTags: seq<nat>)

  function ProgressAt(tags: seq<nat>, vs: seq<Vec>, i: nat): Progress
    requires InRange(tags, |vs|) && i <= |tags|
  {
    Progress(Left(vs, tags, i), FirstNewTags(tags, vs, i))
  }

  /** A slot takes the next of the nested tags of its tag. */
  function Take(p: Progress, shift: int, t: nat): Progress
    requires t < |p.left| && t + shift >= 0
  {
    Progress(p.left[t := RestOf(p.left[t])], p.newTags + [t + shift + FirstOf(p.left[t])])
  }

  lemma {:induction false} TakeStep(tags: seq<nat>, vs: seq<Vec>, i: nat, left: seq<Queue>, shift: int)
    requires InRange(tags, |vs|) && i < |tags|
    requires left == Left(vs, tags, i) && shift == Shifts(vs)[tags[i]]
    ensures tags[i] < |left| && tags[i] + shift >= 0
    ensures tags[i] + shift + FirstOf(left[tags[i]]) == NewTag(tags, vs, i)
  {
    FirstLeft(tags, vs, i);
  }

  lemma {:induction false} ProgressStep(tags: seq<nat>, vs: seq<Vec>, i: nat)
    requires InRange(tags, |vs|) && i < |tags|
    ensures var t := tags[i];
            && t + Shifts(vs)[t] >= 0
            && Take(ProgressAt(tags, vs, i), Shifts(vs)[t], t) == ProgressAt(tags, vs, i + 1)
  {
    TakeStep(tags, vs, i, Left(vs, tags, i), Shifts(vs)[tags[i]]);
    LeftAfter(vs, tags, i, Left(vs, tags, i));
  }

  /** stitch as it runs: shifts for the tags, then nested tags taken from the front one by one. */
  method StitchInPlace(tags: seq<nat>, vs: seq<Vec>) returns (newTags: seq<nat>, newVecs: seq<Vec>)
    requires InRange(tags, |vs|)
    ensures newTags == NewTags(tags, vs) && newVecs == Concat(vs)
  {
    var nested, shifts;
    nested, shifts, newVecs := Flatten(tags, vs);
    var p := Progress(nested, []);
    for i := 0 to |tags|
      invariant p == ProgressAt(tags, vs, i)
    {
      ProgressStep(tags, vs, i);
      p := Take(p, shifts[tags[i]], tags[i]);
    }
    newTags := p.newTags;
  }
}
