/** Evaluation over heterogeneous vectors: rip them into vectors of one type each, evaluate, stitch the results. */
module Applying {
  import opened Wrappers
  import Zcode
  import opened Types
  import opened TagMaps
  import opened Vectors
  import opened Stitching

  function Under(v: Vec): (r: Vec)
    ensures Valid(v) ==> Valid(r) && Len(r) == Len(v)
  {
    if v.NamedVec? then Under(v.base) else v
  }

  predicate OverUnion(v: Vec) {
    Under(v).UnionVec?
  }

  /** What Apply puts in the place of a union when it is to rip unions. */
  function Deunion(v: Vec): (r: Vec)
    ensures Valid(v) ==> Valid(r) && Len(r) == Len(v)
  {
    if OverUnion(v) then Dynamic(Under(v).tags, Under(v).members) else v
  }

  function Deunions(rip: bool, vs: seq<Vec>): (r: seq<Vec>)
    ensures |r| == |vs|
    ensures forall k :: 0 <= k < |vs| ==> r[k] == if rip then Deunion(vs[k]) else vs[k]
  {
    seq(|vs|, k requires 0 <= k < |vs| => if rip then Deunion(vs[k]) else vs[k])
  }

  /** The first dynamic vector, or the number of vectors. */
  function FindDynamic(vs: seq<Vec>): (k: nat)
    ensures k <= |vs|
    ensures k < |vs| ==> vs[k].Dynamic?
    ensures k == |vs| ==> forall i :: 0 <= i < |vs| ==> !vs[i].Dynamic?
  {
    if vs == [] || vs[0].Dynamic? then 0 else 1 + FindDynamic(vs[1..])
  }

  /** Valid vectors of one length. */
  predicate Uniform(vs: seq<Vec>, n: nat) {
    forall k :: 0 <= k < |vs| ==> Valid(vs[k]) && Len(vs[k]) == n
  }

  lemma {:induction false} SlotsInRange(tags: seq<nat>, t: nat)
    ensures InRange(Slots(tags, t), |tags|)
  {
    forall k | 0 <= k < |Slots(tags, t)| ensures Slots(tags, t)[k] < |tags| {
      SlotRank(tags, t, k);
    }
  }

  /**
   Labels for the input vectors: equal ones stand for one object, once unions are replaced.
   Different labels may stand for equal vectors.
   */
  ghost predicate Labelled(rip: bool, vs: seq<Vec>, ids: seq<nat>) {
    && |ids| == |vs|
    && forall k, l :: 0 <= k < |vs| && 0 <= l < |vs| && ids[k] == ids[l] ==> Deunions(rip, vs)[k] == Deunions(rip, vs)[l]
  }

  /** A dynamic vector among valid ones of its length, and the labels of all of them. */
  predicate Rips(vs: seq<Vec>, ids: seq<nat>, first: nat) {
    && |ids| == |vs| && first < |vs| && vs[first].Dynamic? && Uniform(vs, Len(vs[first]))
    && forall k :: 0 <= k < |vs| && ids[k] == ids[first] ==> vs[k] == vs[first]
  }

  /** The vectors for one tag of the first dynamic vector: its member wherever that object is, and views of its slots of the others. */
  function Rip(vs: seq<Vec>, ids: seq<nat>, first: nat, j: nat): (r: seq<Vec>)
    requires Rips(vs, ids, first) && j < |vs[first].members|
    ensures |r| == |vs|
    ensures InRange(Slots(vs[first].tags, j), Len(vs[first]))
    ensures forall k :: 0 <= k < |vs| ==>
              r[k] == if ids[k] == ids[first] then vs[first].members[j] else NewView(Slots(vs[first].tags, j), vs[k])
  {
    var d := vs[first];
    SlotsInRange(d.tags, j);
    seq(|vs|, k requires 0 <= k < |vs| => if ids[k] == ids[first] then d.members[j] else NewView(Slots(d.tags, j), vs[k]))
  }

  /** The labels after a rip: the member is one object in all its places, and every view is a new one. */
  function Relabel(ids: seq<nat>, first: nat): (r: seq<nat>)
    requires first < |ids|
    ensures |r| == |ids|
    ensures forall k :: 0 <= k < |ids| ==> r[k] == if ids[k] == ids[first] then 0 else k + 1
  {
    seq(|ids|, k requires 0 <= k < |ids| => if ids[k] == ids[first] then 0 else k + 1)
  }

  lemma {:induction false} RipUniform(vs: seq<Vec>, ids: seq<nat>, first: nat, j: nat)
    requires Rips(vs, ids, first) && j < |vs[first].members|
    ensures Uniform(Rip(vs, ids, first, j), Len(vs[first].members[j]))
  {
    var d, ripped := vs[first], Rip(vs, ids, first, j);
    forall k | 0 <= k < |vs| ensures Valid(ripped[k]) && Len(ripped[k]) == Len(d.members[j]) {
      ViewShows(Slots(d.tags, j), vs[k]);
    }
  }

  lemma {:induction false} RipLabelled(rip: bool, vs: seq<Vec>, ids: seq<nat>, first: nat, j: nat)
    requires Rips(vs, ids, first) && j < |vs[first].members|
    ensures Labelled(rip, Rip(vs, ids, first, j), Relabel(ids, first))
  {
  }

  // ---------------------------------------------------------------------------
  // Ripping comes to an end

  /** How many unions and dynamic vectors can still be ripped. */
  function Weight(v: Vec): nat {
    match v
    case UnionVec(_, _, members, _) => 1 + Weights(members)
    case Dynamic(_, members) => 1 + Weights(members)
    case NamedVec(_, base) => Weight(base)
    case _ => 0
  }

  function Weights(vs: seq<Vec>): nat {
    if vs == [] then 0 else Weight(vs[0]) + Weights(vs[1..])
  }

  lemma {:induction false} WeightsMonotone(a: seq<Vec>, b: seq<Vec>)
    requires |a| == |b| && forall k :: 0 <= k < |a| ==> Weight(a[k]) <= Weight(b[k])
    ensures Weights(a) <= Weights(b)
    ensures (exists k :: 0 <= k < |a| && Weight(a[k]) < Weight(b[k])) ==> Weights(a) < Weights(b)
    decreases |a|
  {
    if a != [] {
      WeightsMonotone(a[1..], b[1..]);
      if k :| 0 < k < |a| && Weight(a[k]) < Weight(b[k]) {
        assert Weight(a[1..][k - 1]) < Weight(b[1..][k - 1]);
      }
    }
  }

  lemma {:induction false} MemberLighter(vs: seq<Vec>, j: nat)
    requires j < |vs|
    ensures Weight(vs[j]) <= Weights(vs)
    decreases |vs|
  {
    if j > 0 {
      MemberLighter(vs[1..], j - 1);
    }
  }

  lemma {:induction false} DeunionWeight(v: Vec)
    ensures Weight(Deunion(v)) <= Weight(v)
  {
    UnderWeight(v);
  }

  lemma {:induction false} UnderWeight(v: Vec)
    ensures Weight(Under(v)) == Weight(v)
  {
    if v.NamedVec? {
      UnderWeight(v.base);
    }
  }

  lemma {:induction false} ViewWeight(index: seq<nat>, v: Vec)
    requires Valid(v) && InRange(index, Len(v))
    ensures Weight(NewView(index, v)) <= Weight(v)
    decreases v
  {
    match v
    case UnionVec(_, tags, members, _) => ViewsWeight(index, tags, members);
    case Dynamic(tags, members) => ViewsWeight(index, tags, members);
    case _ =>
  }

  lemma {:induction false} ViewsWeight(index: seq<nat>, tags: seq<nat>, members: seq<Vec>)
    requires InRange(index, |tags|) && Dense(tags, members) && forall t :: 0 <= t < |members| ==> Valid(members[t])
    ensures Weights(MemberViews(index, tags, members)) <= Weights(members)
    decreases members
  {
    var views := MemberViews(index, tags, members);
    forall t | 0 <= t < |members| ensures Weight(views[t]) <= Weight(members[t]) {
      SelectedInMember(tags, members, index, t);
      ViewWeight(Selected(tags, index, t), members[t]);
    }
    WeightsMonotone(views, members);
  }

  lemma {:induction false} RipLighter(vs: seq<Vec>, ids: seq<nat>, first: nat, j: nat)
    requires Rips(vs, ids, first) && j < |vs[first].members|
    ensures Weights(Rip(vs, ids, first, j)) < Weights(vs)
  {
    var d, ripped := vs[first], Rip(vs, ids, first, j);
    MemberLighter(d.members, j);
    forall k | 0 <= k < |vs| ensures Weight(ripped[k]) <= Weight(vs[k]) {
      ViewWeight(Slots(d.tags, j), vs[k]);
    }
    assert Weight(ripped[first]) < Weight(vs[first]);
    WeightsMonotone(ripped, vs);
  }

  lemma {:induction false} DeunionsLighter(rip: bool, vs: seq<Vec>)
    ensures Weights(Deunions(rip, vs)) <= Weights(vs)
  {
    forall k | 0 <= k < |vs| ensures Weight(Deunions(rip, vs)[k]) <= Weight(vs[k]) {
      DeunionWeight(vs[k]);
    }
    WeightsMonotone(Deunions(rip, vs), vs);
  }

  // ---------------------------------------------------------------------------
  // Apply

  type Evaluator = seq<Vec> -> Vec

  function Apply(rip: bool, eval: Evaluator, vs: seq<Vec>, ids: seq<nat>, ghost n: nat): Vec
    requires Uniform(vs, n) && Labelled(rip, vs, ids)
    decreases Weights(vs), 1
  {
    DeunionsLighter(rip, vs);
    var us := Deunions(rip, vs);
    var first := FindDynamic(us);
    if first == |us| then eval(us)
    else Stitch(us[first].tags, Evaluated(rip, eval, us, ids, first))
  }

  /** The results for every tag of the first dynamic vector. */
  function Evaluated(rip: bool, eval: Evaluator, vs: seq<Vec>, ids: seq<nat>, first: nat): (r: seq<Vec>)
    requires Rips(vs, ids, first)
    ensures |r| == |vs[first].members|
    decreases Weights(vs), 0
  {
    seq(|vs[first].members|, j requires 0 <= j < |vs[first].members| =>
      RipUniform(vs, ids, first, j);
      RipLighter(vs, ids, first, j);
      RipLabelled(rip, vs, ids, first, j);
      Apply(rip, eval, Rip(vs, ids, first, j), Relabel(ids, first), Len(vs[first].members[j])))
  }

  // ---------------------------------------------------------------------------
  // Slot by slot

  /** The value of a slot that the evaluator is to see: with `rip`, what a union value holds. */
  function Bare(rip: bool, v: Vec, i: nat): Slot
    requires Valid(v) && i < Len(v)
    decreases v
  {
    match v
    case Dynamic(tags, members) =>
      RankInMember(tags, members, i);
      Bare(rip, members[tags[i]], Rank(tags, i))
    case UnionVec(_, tags, members, _) =>
      RankInMember(tags, members, i);
      if rip then Bare(rip, members[tags[i]], Rank(tags, i)) else At(v, i)
    case NamedVec(_, base) => if rip && OverUnion(base) then Bare(rip, base, i) else At(v, i)
    case _ => At(v, i)
  }

  function BareSlots(rip: bool, vs: seq<Vec>, n: nat, i: nat): (r: seq<Slot>)
    requires Uniform(vs, n) && i < n
    ensures |r| == |vs|
    ensures forall k :: 0 <= k < |vs| ==> r[k] == Bare(rip, vs[k], i)
  {
    seq(|vs|, k requires 0 <= k < |vs| => Bare(rip, vs[k], i))
  }

  function SlotsOf(vs: seq<Vec>, n: nat, i: nat): (r: seq<Slot>)
    requires Uniform(vs, n) && i < n
    ensures |r| == |vs|
    ensures forall k :: 0 <= k < |vs| ==> r[k] == At(vs[k], i)
  {
    seq(|vs|, k requires 0 <= k < |vs| => At(vs[k], i))
  }

  /** What Apply calls the evaluator on. */
  predicate Ripped(rip: bool, vs: seq<Vec>, n: nat) {
    Uniform(vs, n) && forall k :: 0 <= k < |vs| ==> !vs[k].Dynamic? && (rip ==> !OverUnion(vs[k]))
  }

  /** The result has length `n` and each slot is `f` of the slots that the evaluator is to see. */
  ghost predicate Computes(r: Vec, rip: bool, f: seq<Slot> -> Slot, vs: seq<Vec>, n: nat)
    requires Uniform(vs, n)
  {
    Valid(r) && Len(r) == n && forall i :: 0 <= i < n ==> At(r, i) == f(BareSlots(rip, vs, n, i))
  }

  /** On these vectors the evaluator works slot by slot and keeps the length. */
  ghost predicate Evaluates(r: Vec, f: seq<Slot> -> Slot, vs: seq<Vec>, n: nat)
    requires Uniform(vs, n)
  {
    Valid(r) && Len(r) == n && forall i :: 0 <= i < n ==> At(r, i) == f(SlotsOf(vs, n, i))
  }

  /** So it does on any `m` vectors. */
  ghost predicate Slotwise(rip: bool, eval: Evaluator, f: seq<Slot> -> Slot, m: nat) {
    forall vs, n: nat :: |vs| == m && Ripped(rip, vs, n) ==> Evaluates(eval(vs), f, vs, n)
  }

  /** Without ripping, the evaluator is to see the slots as they are. */
  lemma {:induction false} BareIsAt(v: Vec, i: nat)
    requires Valid(v) && i < Len(v)
    ensures Bare(false, v, i) == At(v, i)
    decreases v
  {
    if v.Dynamic? {
      RankInMember(v.tags, v.members, i);
      BareIsAt(v.members[v.tags[i]], Rank(v.tags, i));
    }
  }

  // ---------------------------------------------------------------------------
  // Views

  /** The value of a slot is in a union with a name on it, inside of other unions and dynamic vectors. */
  predicate Hides(v: Vec, i: nat)
    requires Valid(v) && i < Len(v)
    decreases v
  {
    match v
    case Dynamic(tags, members) =>
      RankInMember(tags, members, i);
      Hides(members[tags[i]], Rank(tags, i))
    case UnionVec(_, tags, members, _) =>
      RankInMember(tags, members, i);
      Hides(members[tags[i]], Rank(tags, i))
    case NamedVec(_, base) => OverUnion(base)
    case _ => false
  }

  lemma {:induction false} ViewHidesNothing(index: seq<nat>, v: Vec, k: nat)
    requires Valid(v) && InRange(index, Len(v)) && k < |index|
    ensures Valid(NewView(index, v)) && Len(NewView(index, v)) == |index| && !Hides(NewView(index, v), k)
    decreases v
  {
    ViewShows(index, v);
    match v
    case Dynamic(tags, members) => MemberViewHidesNothing(index, tags, members, k);
    case UnionVec(_, tags, members, _) => MemberViewHidesNothing(index, tags, members, k);
    case _ =>
  }

  /** Where a slot of the view of a union or a dynamic vector comes from. */
  lemma {:induction false} MemberView(index: seq<nat>, tags: seq<nat>, members: seq<Vec>, k: nat)
    requires InRange(index, |tags|) && Dense(tags, members) && k < |index|
    requires forall t :: 0 <= t < |members| ==> Valid(members[t])
    ensures var t, r := tags[index[k]], Rank(Pick(tags, index), k);
            && InRange(Selected(tags, index, t), Len(members[t]))
            && r < |Selected(tags, index, t)|
            && Selected(tags, index, t)[r] == Rank(tags, index[k])
            && Rank(tags, index[k]) < Len(members[t])
            && MemberViews(index, tags, members)[t] == NewView(Selected(tags, index, t), members[t])
  {
    SelectedInMember(tags, members, index, tags[index[k]]);
    SelectedFollows(tags, index, k);
    RankInMember(tags, members, index[k]);
  }

  lemma {:induction false} MemberViewHidesNothing(index: seq<nat>, tags: seq<nat>, members: seq<Vec>, k: nat)
    requires InRange(index, |tags|) && Dense(tags, members) && k < |index|
    requires forall t :: 0 <= t < |members| ==> Valid(members[t])
    ensures var tags', views := Pick(tags, index), MemberViews(index, tags, members);
            && Valid(views[tags'[k]]) && Rank(tags', k) < Len(views[tags'[k]])
            && !Hides(views[tags'[k]], Rank(tags', k))
    decreases members
  {
    var t := tags[index[k]];
    MemberView(index, tags, members, k);
    ViewHidesNothing(Selected(tags, index, t), members[t], Rank(Pick(tags, index), k));
  }

  /** What the evaluator is to see of a slot is the value or inside of it. */
  lemma {:induction false} BareInside(v: Vec, i: nat)
    requires Valid(v) && i < Len(v)
    ensures Bare(true, v, i).value == At(v, i).value || Bare(true, v, i).value < At(v, i).value
    ensures OverUnion(v) ==> Bare(true, v, i).value < At(v, i).value
    decreases v
  {
    match v
    case Dynamic(tags, members) =>
      RankInMember(tags, members, i);
      BareInside(members[tags[i]], Rank(tags, i));
    case UnionVec(_, tags, members, _) =>
      RankInMember(tags, members, i);
      BareInside(members[tags[i]], Rank(tags, i));
      assert At(v, i).value.items[1] == At(members[tags[i]], Rank(tags, i)).value;
    case NamedVec(_, base) => BareInside(base, i);
    case _ =>
  }

  /** Ripping a view is viewing what was ripped, exactly if nothing is hidden from it. */
  lemma {:induction false} BareOfView(rip: bool, index: seq<nat>, v: Vec, k: nat)
    requires Valid(v) && InRange(index, Len(v)) && k < |index|
    ensures Valid(NewView(index, v)) && Len(NewView(index, v)) == |index|
    ensures Bare(rip, NewView(index, v), k) == Bare(rip, v, index[k]) <==> !(rip && Hides(v, index[k]))
    decreases v, 1
  {
    ViewShows(index, v);
    if rip {
      match v
      case Dynamic(tags, members) => BareOfMemberView(index, tags, members, k);
      case UnionVec(_, tags, members, _) => BareOfMemberView(index, tags, members, k);
      case NamedVec(_, _) => BareInside(v, index[k]);
      case _ =>
    } else {
      BareIsAt(v, index[k]);
      BareIsAt(NewView(index, v), k);
    }
  }

  lemma {:induction false} BareOfMemberView(index: seq<nat>, tags: seq<nat>, members: seq<Vec>, k: nat)
    requires InRange(index, |tags|) && Dense(tags, members) && k < |index|
    requires forall t :: 0 <= t < |members| ==> Valid(members[t])
    ensures var tags', views := Pick(tags, index), MemberViews(index, tags, members);
            && Valid(views[tags'[k]]) && Rank(tags', k) < Len(views[tags'[k]])
            && Rank(tags, index[k]) < Len(members[tags[index[k]]])
            && (Bare(true, views[tags'[k]], Rank(tags', k)) == Bare(true, members[tags[index[k]]], Rank(tags, index[k]))
                <==> !Hides(members[tags[index[k]]], Rank(tags, index[k])))
    decreases members, 0
  {
    var t := tags[index[k]];
    MemberView(index, tags, members, k);
    BareOfView(true, Selected(tags, index, t), members[t], Rank(Pick(tags, index), k));
  }

  lemma {:induction false} BareUnder(v: Vec, i: nat)
    requires Valid(v) && i < Len(v) && OverUnion(v)
    ensures Bare(true, v, i) == Bare(true, Under(v), i)
  {
    if v.NamedVec? {
      BareUnder(v.base, i);
    }
  }

  lemma {:induction false} BareDeunion(rip: bool, v: Vec, i: nat)
    requires Valid(v) && i < Len(v)
    ensures Bare(rip, if rip then Deunion(v) else v, i) == Bare(rip, v, i)
  {
    if rip && OverUnion(v) {
      BareUnder(v, i);
    }
  }

  /** Where the slot of a ripped vector comes from, exactly if nothing is hidden from its view. */
  lemma {:induction false} RipShows(rip: bool, vs: seq<Vec>, ids: seq<nat>, first: nat, i: nat, k: nat)
    requires Rips(vs, ids, first) && i < Len(vs[first]) && k < |vs|
    ensures var d := vs[first];
            var j, n := d.tags[i], Len(d.members[d.tags[i]]);
            && Rank(d.tags, i) < n
            && Uniform(Rip(vs, ids, first, j), n)
            && (BareSlots(rip, Rip(vs, ids, first, j), n, Rank(d.tags, i))[k] == BareSlots(rip, vs, Len(d), i)[k]
                <==> !(rip && ids[k] != ids[first] && Hides(vs[k], i)))
  {
    var d := vs[first];
    var j := d.tags[i];
    RipUniform(vs, ids, first, j);
    RankInMember(d.tags, d.members, i);
    RankSlot(d.tags, i);
    if ids[k] != ids[first] {
      BareOfView(rip, Slots(d.tags, j), vs[k], Rank(d.tags, i));
    }
  }

  // ---------------------------------------------------------------------------
  // Which inputs a view spoils

  /**
   Apply rips the first dynamic vector, wherever that object is given, and views the others.  Nothing
   is lost exactly if no value of those others is in a union with a name on it; with one vector, or
   with none that is dynamic, nothing is.
   */
  ghost predicate NothingHidden(rip: bool, vs: seq<Vec>, ids: seq<nat>, n: nat)
    requires Uniform(vs, n) && Labelled(rip, vs, ids)
  {
    var us := Deunions(rip, vs);
    var first := FindDynamic(us);
    rip && first < |us| ==> forall k, i :: 0 <= k < |us| && ids[k] != ids[first] && 0 <= i < n ==> !Hides(us[k], i)
  }

  lemma {:induction false} DeunionedHidesNothing(v: Vec, i: nat)
    requires Valid(v) && i < Len(v) && !Deunion(v).Dynamic?
    ensures !Hides(Deunion(v), i)
  {
  }

  lemma {:induction false} DeunionView(index: seq<nat>, v: Vec)
    requires Valid(v) && InRange(index, Len(v)) && !OverUnion(v)
    ensures Deunion(NewView(index, v)) == NewView(index, v) && (NewView(index, v).Dynamic? <==> v.Dynamic?)
  {
  }

  /** Whatever was hidden before, nothing is once the first vector is ripped: the others are views. */
  lemma {:induction false} RippedHidesNothing(rip: bool, vs: seq<Vec>, ids: seq<nat>, first: nat, j: nat)
    requires Rips(vs, ids, first) && j < |vs[first].members|
    requires FindDynamic(vs) == first && Deunions(rip, vs) == vs
    ensures Uniform(Rip(vs, ids, first, j), Len(vs[first].members[j]))
    ensures Labelled(rip, Rip(vs, ids, first, j), Relabel(ids, first))
    ensures NothingHidden(rip, Rip(vs, ids, first, j), Relabel(ids, first), Len(vs[first].members[j]))
  {
    var d := vs[first];
    var ripped, more, n := Rip(vs, ids, first, j), Relabel(ids, first), Len(d.members[j]);
    RipUniform(vs, ids, first, j);
    RipLabelled(rip, vs, ids, first, j);
    var us := Deunions(rip, ripped);
    if rip {
      var next := FindDynamic(us);
      forall k | 0 <= k < |us| && more[k] != more[first] ensures us[k] == ripped[k] && (us[k].Dynamic? <==> vs[k].Dynamic?) {
        NotOverUnion(vs, k);
        DeunionView(Slots(d.tags, j), vs[k]);
      }
      if us[first].Dynamic? {
        BeforeFirst(vs, us, more, first);
      }
      forall k, i | next < |us| && 0 <= k < |us| && more[k] != more[next] && 0 <= i < n ensures !Hides(us[k], i) {
        if ids[k] == ids[first] {
          DeunionedHidesNothing(d.members[j], i);
        } else {
          NotOverUnion(vs, k);
          DeunionView(Slots(d.tags, j), vs[k]);
          ViewHidesNothing(Slots(d.tags, j), vs[k], i);
        }
      }
    }
  }

  lemma {:induction false} NotOverUnion(vs: seq<Vec>, k: nat)
    requires k < |vs| && Deunions(true, vs) == vs
    ensures !OverUnion(vs[k])
  {
    assert Deunion(vs[k]) == vs[k];
  }

  lemma {:induction false} BeforeFirst(vs: seq<Vec>, us: seq<Vec>, ids: seq<nat>, first: nat)
    requires first < |us| == |vs| == |ids| && FindDynamic(vs) == first && us[first].Dynamic?
    requires forall k :: 0 <= k < |us| && ids[k] != ids[first] ==> (us[k].Dynamic? <==> vs[k].Dynamic?)
    ensures ids[FindDynamic(us)] == ids[first]
  {
    FindsFirst(vs);
    FindsFirst(us);
  }

  lemma {:induction false} FindsFirst(vs: seq<Vec>)
    ensures forall i :: 0 <= i < FindDynamic(vs) ==> !vs[i].Dynamic?
    ensures forall i :: 0 <= i < |vs| && vs[i].Dynamic? ==> FindDynamic(vs) <= i
    decreases |vs|
  {
    if vs != [] {
      FindsFirst(vs[1..]);
    }
  }

  // ---------------------------------------------------------------------------
  // Apply is slotwise

  /** Apply on any mix of nested dynamic vectors computes, slot by slot, what the evaluator computes. */
  lemma {:induction false} ApplyIsSlotwise(rip: bool, eval: Evaluator, f: seq<Slot> -> Slot, vs: seq<Vec>, ids: seq<nat>, n: nat)
    requires Uniform(vs, n) && Labelled(rip, vs, ids) && Slotwise(rip, eval, f, |vs|) && NothingHidden(rip, vs, ids, n)
    ensures Computes(Apply(rip, eval, vs, ids, n), rip, f, vs, n)
    decreases Weights(vs), 1
  {
    DeunionsLighter(rip, vs);
    var us := Deunions(rip, vs);
    var first := FindDynamic(us);
    DeunionsBare(rip, vs, n);
    if first == |us| {
      EvalIsSlotwise(rip, eval, f, us, n);
    } else {
      DeunionsTwice(rip, vs);
      EvaluatedIsSlotwise(rip, eval, f, us, ids, first);
      forall i | 0 <= i < n ensures At(Apply(rip, eval, vs, ids, n), i) == f(BareSlots(rip, us, n, i)) {
        SlotsHanded(rip, us, ids, first, i);
      }
    }
  }

  lemma {:induction false} DeunionsBare(rip: bool, vs: seq<Vec>, n: nat)
    requires Uniform(vs, n)
    ensures Uniform(Deunions(rip, vs), n)
    ensures forall i :: 0 <= i < n ==> BareSlots(rip, Deunions(rip, vs), n, i) == BareSlots(rip, vs, n, i)
  {
    var us := Deunions(rip, vs);
    forall i | 0 <= i < n ensures BareSlots(rip, us, n, i) == BareSlots(rip, vs, n, i) {
      forall k | 0 <= k < |vs| ensures Bare(rip, us[k], i) == Bare(rip, vs[k], i) {
        BareDeunion(rip, vs[k], i);
      }
    }
  }

  lemma {:induction false} DeunionsTwice(rip: bool, vs: seq<Vec>)
    ensures Deunions(rip, Deunions(rip, vs)) == Deunions(rip, vs)
  {
  }

  /** The evaluator is handed what it is to see, if nothing is hidden. */
  lemma {:induction false} SlotsHanded(rip: bool, vs: seq<Vec>, ids: seq<nat>, first: nat, i: nat)
    requires Rips(vs, ids, first) && i < Len(vs[first])
    requires rip ==> forall k :: 0 <= k < |vs| && ids[k] != ids[first] ==> !Hides(vs[k], i)
    ensures Handed(rip, vs, ids, first, i) == BareSlots(rip, vs, Len(vs[first]), i)
  {
    forall k | 0 <= k < |vs| ensures Handed(rip, vs, ids, first, i)[k] == BareSlots(rip, vs, Len(vs[first]), i)[k] {
      RipShows(rip, vs, ids, first, i, k);
    }
  }

  /** What the evaluator is handed for a slot, once the first dynamic vector is ripped. */
  function Handed(rip: bool, vs: seq<Vec>, ids: seq<nat>, first: nat, i: nat): (r: seq<Slot>)
    requires Rips(vs, ids, first) && i < Len(vs[first])
    ensures |r| == |vs|
  {
    var d := vs[first];
    var j := d.tags[i];
    RipUniform(vs, ids, first, j);
    RankInMember(d.tags, d.members, i);
    BareSlots(rip, Rip(vs, ids, first, j), Len(d.members[j]), Rank(d.tags, i))
  }

  lemma {:induction false} EvalIsSlotwise(rip: bool, eval: Evaluator, f: seq<Slot> -> Slot, us: seq<Vec>, n: nat)
    requires Uniform(us, n) && Slotwise(rip, eval, f, |us|)
    requires forall k :: 0 <= k < |us| ==> !us[k].Dynamic? && (rip ==> !OverUnion(us[k]))
    ensures Computes(eval(us), rip, f, us, n)
  {
    assert Ripped(rip, us, n);
    assert Evaluates(eval(us), f, us, n);
    forall i | 0 <= i < n ensures BareSlots(rip, us, n, i) == SlotsOf(us, n, i) {
    }
  }

  /** After a rip Apply computes what the evaluator computes of the slots it is handed, hidden values or not. */
  lemma {:induction false} EvaluatedIsSlotwise(rip: bool, eval: Evaluator, f: seq<Slot> -> Slot, vs: seq<Vec>, ids: seq<nat>, first: nat)
    requires Rips(vs, ids, first)
    requires FindDynamic(vs) == first && Deunions(rip, vs) == vs && Slotwise(rip, eval, f, |vs|)
    ensures var d := vs[first];
            var r := Stitch(d.tags, Evaluated(rip, eval, vs, ids, first));
            && Valid(r) && Len(r) == Len(d)
            && forall i :: 0 <= i < Len(d) ==> At(r, i) == f(Handed(rip, vs, ids, first, i))
    decreases Weights(vs), 0
  {
    var d := vs[first];
    var results := Evaluated(rip, eval, vs, ids, first);
    forall j | 0 <= j < |d.members|
      ensures Uniform(Rip(vs, ids, first, j), Len(d.members[j]))
      ensures Computes(results[j], rip, f, Rip(vs, ids, first, j), Len(d.members[j]))
    {
      RipUniform(vs, ids, first, j);
      RipLighter(vs, ids, first, j);
      RippedHidesNothing(rip, vs, ids, first, j);
      ApplyIsSlotwise(rip, eval, f, Rip(vs, ids, first, j), Relabel(ids, first), Len(d.members[j]));
    }
    StitchShows(d.tags, results);
    forall i | 0 <= i < Len(d) ensures At(Stitch(d.tags, results), i) == f(Handed(rip, vs, ids, first, i)) {
      RankInMember(d.tags, d.members, i);
    }
  }

  // ---------------------------------------------------------------------------
  // Apply is not slotwise where a name hides a union from it

  /** The evaluator that returns one of its vectors. */
  function Projection(k: nat): Evaluator {
    (vs: seq<Vec>) => if k < |vs| then vs[k] else Flat(Primitive(0), [])
  }

  function SlotProjection(k: nat): seq<Slot> -> Slot {
    (slots: seq<Slot>) => if k < |slots| then slots[k] else Slot(Primitive(0), Zcode.Null)
  }

  lemma {:induction false} ProjectionSlotwise(rip: bool, k: nat, m: nat)
    requires k < m
    ensures Slotwise(rip, Projection(k), SlotProjection(k), m)
  {
    forall vs, n: nat | |vs| == m && Ripped(rip, vs, n) ensures Evaluates(Projection(k)(vs), SlotProjection(k), vs, n) {
    }
  }

  lemma {:induction false} HiddenFails(vs: seq<Vec>, ids: seq<nat>, n: nat, k: nat, i: nat)
    requires Uniform(vs, n) && Labelled(true, vs, ids) && k < |vs| && i < n
    requires var us := Deunions(true, vs);
             var first := FindDynamic(us);
             first < |us| && ids[k] != ids[first] && Hides(us[k], i)
    ensures !Computes(Apply(true, Projection(k), vs, ids, n), true, SlotProjection(k), vs, n)
  {
    var us := Deunions(true, vs);
    var first := FindDynamic(us);
    DeunionsLighter(true, vs);
    DeunionsBare(true, vs, n);
    DeunionsTwice(true, vs);
    ProjectionSlotwise(true, k, |vs|);
    EvaluatedIsSlotwise(true, Projection(k), SlotProjection(k), us, ids, first);
    RipShows(true, us, ids, first, i, k);
    assert BareSlots(true, us, n, i) == BareSlots(true, vs, n, i);
  }

  /** Apply computes what every slotwise evaluator computes, exactly on the inputs where no view hides a union. */
  lemma {:induction false} ApplyExactly(rip: bool, vs: seq<Vec>, ids: seq<nat>, n: nat)
    requires Uniform(vs, n) && Labelled(rip, vs, ids)
    ensures (forall eval, f :: Slotwise(rip, eval, f, |vs|) ==> Computes(Apply(rip, eval, vs, ids, n), rip, f, vs, n))
       <==> NothingHidden(rip, vs, ids, n)
  {
    if NothingHidden(rip, vs, ids, n) {
      forall eval, f | Slotwise(rip, eval, f, |vs|) ensures Computes(Apply(rip, eval, vs, ids, n), rip, f, vs, n) {
        ApplyIsSlotwise(rip, eval, f, vs, ids, n);
      }
    } else {
      var us := Deunions(rip, vs);
      var k, i :| 0 <= k < |us| && ids[k] != ids[FindDynamic(us)] && 0 <= i < n && Hides(us[k], i);
      HiddenFails(vs, ids, n, k, i);
      ProjectionSlotwise(rip, k, |vs|);
    }
  }

  /** A dynamic vector with one slot, in a union with a name on it. */
  function NamedUnion(named: Type, u: Type, inner: Vec): Vec {
    Dynamic([0], [NamedVec(named, UnionVec(u, [0], [inner], None))])
  }

  lemma {:induction false} NamedUnionHides(named: Type, u: Type, inner: Vec)
    requires Valid(inner) && Len(inner) == 1
    ensures var e := NamedUnion(named, u, inner);
            Valid(e) && Len(e) == 1 && Hides(e, 0)
  {
    var union := NamedVec(named, UnionVec(u, [0], [inner], None));
    var e := NamedUnion(named, u, inner);
    OneNamed(named, u, inner);
    OneMember(union);
    DynamicLen(e);
    assert Valid(e);
    assert e.members[e.tags[0]] == union && Hides(union, 0);
  }

  /** The smallest input that Apply gets wrong: a dynamic vector beside one that holds a named union. */
  lemma {:induction false} NamedUnionHidden(t: Type, named: Type, u: Type, x: Zcode.Value, inner: Vec)
    requires Valid(inner) && Len(inner) == 1
    ensures var vs := [Dynamic([0], [Flat(t, [x])]), NamedUnion(named, u, inner)];
            && Uniform(vs, 1) && Labelled(true, vs, [0, 1])
            && Slotwise(true, Projection(1), SlotProjection(1), 2)
            && !Computes(Apply(true, Projection(1), vs, [0, 1], 1), true, SlotProjection(1), vs, 1)
  {
    var d, e := Dynamic([0], [Flat(t, [x])]), NamedUnion(named, u, inner);
    OneMember(Flat(t, [x]));
    DynamicLen(d);
    assert Valid(d);
    NamedUnionHides(named, u, inner);
    TwoDynamics(d, e, 0, 1);
    ProjectionSlotwise(true, 1, 2);
    HiddenFails([d, e], [0, 1], 1, 1, 0);
  }

  /** Two equal vectors with a named union: computed right if they are one object, and wrong if they are two. */
  lemma {:induction false} EqualObjectsHidden(named: Type, u: Type, inner: Vec)
    requires Valid(inner) && Len(inner) == 1
    ensures var e := NamedUnion(named, u, inner);
            && Uniform([e, e], 1) && Labelled(true, [e, e], [0, 0]) && Labelled(true, [e, e], [0, 1])
            && Slotwise(true, Projection(1), SlotProjection(1), 2)
            && Computes(Apply(true, Projection(1), [e, e], [0, 0], 1), true, SlotProjection(1), [e, e], 1)
            && !Computes(Apply(true, Projection(1), [e, e], [0, 1], 1), true, SlotProjection(1), [e, e], 1)
  {
    var e := NamedUnion(named, u, inner);
    NamedUnionHides(named, u, inner);
    TwoDynamics(e, e, 0, 0);
    TwoDynamics(e, e, 0, 1);
    ProjectionSlotwise(true, 1, 2);
    ApplyIsSlotwise(true, Projection(1), SlotProjection(1), [e, e], [0, 0], 1);
    HiddenFails([e, e], [0, 1], 1, 1, 0);
  }

  lemma {:induction false} TwoDynamics(d: Vec, e: Vec, x: nat, y: nat)
    requires d.Dynamic? && e.Dynamic? && Valid(d) && Valid(e) && Len(d) == Len(e) && (x == y ==> d == e)
    ensures var vs := [d, e];
            Uniform(vs, Len(d)) && Deunions(true, vs) == vs && FindDynamic(vs) == 0 && Labelled(true, vs, [x, y])
  {
    var vs := [d, e];
    assert Deunion(d) == d && Deunion(e) == e;
    assert Deunions(true, vs) == vs;
  }

  lemma {:induction false} DynamicLen(v: Vec)
    requires v.Dynamic?
    ensures Len(v) == |v.tags|
  {
  }

  lemma {:induction false} OneNamed(named: Type, u: Type, inner: Vec)
    requires Valid(inner) && Len(inner) == 1
    ensures var v := NamedVec(named, UnionVec(u, [0], [inner], None));
            Valid(v) && Len(v) == 1
  {
    var tagged := UnionVec(u, [0], [inner], None);
    OneMember(inner);
    assert Valid(tagged);
    assert Len(tagged) == |tagged.tags|;
  }

  lemma {:induction false} OneMember(v: Vec)
    requires Len(v) == 1
    ensures Dense([0], [v]) && Rank([0], 0) == 0
  {
    assert First([0], 1, 0) == First([0], 0, 0) + [0];
  }

  /** If no result of the evaluator has a nested dynamic vector, the result of Apply has none. */
  lemma {:induction false} ApplyFlattens(rip: bool, eval: Evaluator, vs: seq<Vec>, ids: seq<nat>, n: nat)
    requires Uniform(vs, n) && Labelled(rip, vs, ids) && forall us :: NotNested(eval(us))
    ensures NotNested(Apply(rip, eval, vs, ids, n))
    decreases Weights(vs), 1
  {
    DeunionsLighter(rip, vs);
    var us := Deunions(rip, vs);
    var first := FindDynamic(us);
    if first < |us| {
      EvaluatedFlattens(rip, eval, us, ids, first);
    }
  }

  lemma {:induction false} EvaluatedFlattens(rip: bool, eval: Evaluator, vs: seq<Vec>, ids: seq<nat>, first: nat)
    requires Rips(vs, ids, first) && forall us :: NotNested(eval(us))
    ensures NotNested(Stitch(vs[first].tags, Evaluated(rip, eval, vs, ids, first)))
    decreases Weights(vs), 0
  {
    var d := vs[first];
    forall j | 0 <= j < |d.members| ensures NotNested(Evaluated(rip, eval, vs, ids, first)[j]) {
      RipUniform(vs, ids, first, j);
      RipLighter(vs, ids, first, j);
      RipLabelled(rip, vs, ids, first, j);
      ApplyFlattens(rip, eval, Rip(vs, ids, first, j), Relabel(ids, first), Len(d.members[j]));
    }
    StitchFlattens(d.tags, Evaluated(rip, eval, vs, ids, first));
  }
}
