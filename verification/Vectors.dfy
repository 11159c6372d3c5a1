/** Vectors and views: a slot of a vector is a value with its type. */
module Vectors {
  import opened Wrappers
  import opened Types
  import Zcode
  import opened Uvarint
  import VngColumns
  import opened TagMaps

  /** Which slots are null; nothing if none is. */
  type Nulls = Option<seq<bool>>

  function IsNull(nulls: Nulls, i: nat): bool {
    nulls.Some? && i < |nulls.value| && nulls.value[i]
  }

  /** A value of a slot: its type and its serialized form. */
  datatype Slot = Slot(typ: Type, value: Zcode.Value)

  /**
   Vectors.  `Flat` stands for all the vectors that hold the values of one type themselves.
   The tag map of a union or a dynamic vector is determined by its tags.
   */
  datatype Vec =
    | Flat(typ: Type, values: seq<Zcode.Value>)
    | ConstVec(val: Slot, len: nat, nulls: Nulls)
    | DictVec(base: Vec, index: seq<nat>, nulls: Nulls)
    | ErrorVec(typ: Type, base: Vec, nulls: Nulls)
    | UnionVec(typ: Type, tags: seq<nat>, members: seq<Vec>, nulls: Nulls)
    | Dynamic(tags: seq<nat>, members: seq<Vec>)
    | View(base: Vec, index: seq<nat>)
    | NamedVec(typ: Type, base: Vec)

  function Len(v: Vec): nat {
    match v
    case Flat(_, values) => |values|
    case ConstVec(_, len, _) => len
    case DictVec(_, index, _) => |index|
    case ErrorVec(_, base, _) => Len(base)
    case UnionVec(_, tags, _, _) => |tags|
    case Dynamic(tags, _) => |tags|
    case View(_, index) => |index|
    case NamedVec(_, base) => Len(base)
  }

  /** The children of a union or dynamic vector are as long as their tags ask for. */
  predicate Dense(tags: seq<nat>, members: seq<Vec>) {
    InRange(tags, |members|) && forall t :: 0 <= t < |members| ==> |Slots(tags, t)| == Len(members[t])
  }

  predicate NullsFit(nulls: Nulls, n: nat) {
    nulls.Some? ==> |nulls.value| == n
  }

  predicate Valid(v: Vec) {
    match v
    case Flat(_, _) => true
    case ConstVec(_, len, nulls) => NullsFit(nulls, len)
    case DictVec(base, index, nulls) =>
      Valid(base) && InRange(index, Len(base)) && NullsFit(nulls, |index|)
    case ErrorVec(_, base, nulls) => Valid(base) && NullsFit(nulls, Len(base))
    case UnionVec(_, tags, members, nulls) =>
      && NullsFit(nulls, |tags|) && Dense(tags, members)
      && forall t :: 0 <= t < |members| ==> Valid(members[t])
    case Dynamic(tags, members) =>
      Dense(tags, members) && forall t :: 0 <= t < |members| ==> Valid(members[t])
    case View(base, index) => Valid(base) && InRange(index, Len(base))
    case NamedVec(_, base) => Valid(base)
  }

  lemma {:induction false} RankInMember(tags: seq<nat>, members: seq<Vec>, i: nat)
    requires Dense(tags, members) && i < |tags|
    ensures Rank(tags, i) < Len(members[tags[i]])
  {
    RankSlot(tags, i);
  }

  /** Serialize, with the type of the slot. */
  function At(v: Vec, i: nat): Slot
    requires Valid(v) && i < Len(v)
    decreases v
  {
    match v
    case Flat(typ, values) => Slot(typ, values[i])
    case ConstVec(val, _, nulls) => if IsNull(nulls, i) then Slot(val.typ, Zcode.Null) else val
    case DictVec(base, index, nulls) =>
      var s := At(base, index[i]);
      if IsNull(nulls, i) then Slot(s.typ, Zcode.Null) else s
    case ErrorVec(typ, base, nulls) =>
      if IsNull(nulls, i) then Slot(typ, Zcode.Null) else Slot(typ, At(base, i).value)
    case UnionVec(typ, tags, members, _) =>
      RankInMember(tags, members, i);
      var tag := Zcode.Bytes(VngColumns.EncodeInt(VngColumns.Wrap(tags[i])));
      Slot(typ, Zcode.Group([tag, At(members[tags[i]], Rank(tags, i)).value]))
    case Dynamic(tags, members) =>
      RankInMember(tags, members, i);
      At(members[tags[i]], Rank(tags, i))
    case View(base, index) => At(base, index[i])
    case NamedVec(typ, base) => Slot(typ, At(base, i).value)
  }

  // ---------------------------------------------------------------------------
  // Views

  function Pick(xs: seq<nat>, index: seq<nat>): (r: seq<nat>)
    requires InRange(index, |xs|)
    ensures |r| == |index| && forall k :: 0 <= k < |index| ==> r[k] == xs[index[k]]
  {
    seq(|index|, k requires 0 <= k < |index| => xs[index[k]])
  }

  function PickNulls(nulls: Nulls, index: seq<nat>): (r: seq<bool>)
    ensures |r| == |index| && forall k :: 0 <= k < |index| ==> r[k] == IsNull(nulls, index[k])
  {
    seq(|index|, k requires 0 <= k < |index| => IsNull(nulls, index[k]))
  }

  /** nullsView: nothing unless a selected slot is null. */
  function NullsView(nulls: Nulls, index: seq<nat>): (r: Nulls)
    ensures NullsFit(r, |index|)
    ensures forall k :: 0 <= k < |index| ==> IsNull(r, k) == IsNull(nulls, index[k])
  {
    var bits := PickNulls(nulls, index);
    if true in bits then Some(bits) else None
  }

  /** The child slots that the first `p` entries of a view select for one tag. */
  function SelectedFirst(tags: seq<nat>, index: seq<nat>, p: nat, t: nat): seq<nat>
    requires InRange(index, |tags|) && p <= |index|
    decreases p
  {
    if p == 0 then []
    else SelectedFirst(tags, index, p - 1, t) + if tags[index[p - 1]] == t then [Rank(tags, index[p - 1])] else []
  }

  function Selected(tags: seq<nat>, index: seq<nat>, t: nat): seq<nat>
    requires InRange(index, |tags|)
  {
    SelectedFirst(tags, index, |index|, t)
  }

  lemma {:induction false} SelectedCount(tags: seq<nat>, index: seq<nat>, p: nat, t: nat)
    requires InRange(index, |tags|) && p <= |index|
    ensures |SelectedFirst(tags, index, p, t)| == |First(Pick(tags, index), p, t)|
    decreases p
  {
    if p > 0 {
      SelectedCount(tags, index, p - 1, t);
    }
  }

  lemma {:induction false} SelectedPrefix(tags: seq<nat>, index: seq<nat>, i: nat, p: nat, t: nat)
    requires InRange(index, |tags|) && i <= p <= |index|
    ensures SelectedFirst(tags, index, i, t) <= SelectedFirst(tags, index, p, t)
    decreases p
  {
    if i < p {
      SelectedPrefix(tags, index, i, p - 1, t);
    }
  }

  /** The view of each child follows the tags of the view. */
  lemma {:induction false} SelectedFollows(tags: seq<nat>, index: seq<nat>, k: nat)
    requires InRange(index, |tags|) && k < |index|
    ensures var t, r := tags[index[k]], Rank(Pick(tags, index), k);
            r < |Selected(tags, index, t)| && Selected(tags, index, t)[r] == Rank(tags, index[k])
  {
    var t := tags[index[k]];
    SelectedCount(tags, index, k, t);
    SelectedPrefix(tags, index, k + 1, |index|, t);
  }

  lemma {:induction false} SelectedInMember(tags: seq<nat>, members: seq<Vec>, index: seq<nat>, t: nat)
    requires InRange(index, |tags|) && Dense(tags, members) && t < |members|
    ensures InRange(Selected(tags, index, t), Len(members[t]))
  {
    SelectedFirstInMember(tags, members, index, |index|, t);
  }

  lemma {:induction false} SelectedFirstInMember(tags: seq<nat>, members: seq<Vec>, index: seq<nat>, p: nat, t: nat)
    requires InRange(index, |tags|) && Dense(tags, members) && t < |members| && p <= |index|
    ensures InRange(SelectedFirst(tags, index, p, t), Len(members[t]))
    decreases p
  {
    if p > 0 {
      SelectedFirstInMember(tags, members, index, p - 1, t);
      RankInMember(tags, members, index[p - 1]);
    }
  }

  /** A view is valid, has the length of its index, and each slot is the selected one. */
  ghost predicate Shows(r: Vec, index: seq<nat>, v: Vec)
    requires Valid(v) && InRange(index, Len(v))
  {
    Valid(r) && Len(r) == |index| && forall k :: 0 <= k < |index| ==> At(r, k) == At(v, index[k])
  }

  function NewView(index: seq<nat>, v: Vec): Vec
    requires Valid(v) && InRange(index, Len(v))
    decreases v
  {
    match v
    case ConstVec(val, _, nulls) => ConstVec(val, |index|, NullsView(nulls, index))
    case DictVec(base, index0, nulls) => DictVec(base, Pick(index0, index), Some(PickNulls(nulls, index)))
    case ErrorVec(typ, base, nulls) => ErrorVec(typ, NewView(index, base), NullsView(nulls, index))
    case UnionVec(typ, tags, members, nulls) =>
      UnionVec(typ, Pick(tags, index), MemberViews(index, tags, members), NullsView(nulls, index))
    case Dynamic(tags, members) => Dynamic(Pick(tags, index), MemberViews(index, tags, members))
    case View(base, index0) => View(base, Pick(index0, index))
    case _ => View(v, index)
  }

  /** viewForUnionOrDynamic: a view of every member, of the slots selected for it. */
  function MemberViews(index: seq<nat>, tags: seq<nat>, members: seq<Vec>): (r: seq<Vec>)
    requires InRange(index, |tags|) && Dense(tags, members)
    requires forall t :: 0 <= t < |members| ==> Valid(members[t])
    ensures |r| == |members|
    decreases members
  {
    seq(|members|, t requires 0 <= t < |members| =>
      SelectedInMember(tags, members, index, t);
      NewView(Selected(tags, index, t), members[t]))
  }

  /** The slots of a union or dynamic vector, looked up through its tags. */
  lemma {:induction false} MembersShown(index: seq<nat>, tags: seq<nat>, members: seq<Vec>)
    requires InRange(index, |tags|) && Dense(tags, members) && forall t :: 0 <= t < |members| ==> Valid(members[t])
    requires forall t :: 0 <= t < |members| ==>
      InRange(Selected(tags, index, t), Len(members[t])) && Shows(NewView(Selected(tags, index, t), members[t]), Selected(tags, index, t), members[t])
    ensures var tags', views := Pick(tags, index), MemberViews(index, tags, members);
            && Dense(tags', views)
            && (forall t :: 0 <= t < |views| ==> Valid(views[t]))
            && forall k :: 0 <= k < |index| ==>
                 && Rank(tags', k) < Len(views[tags'[k]])
                 && Rank(tags, index[k]) < Len(members[tags[index[k]]])
                 && At(views[tags'[k]], Rank(tags', k)) == At(members[tags[index[k]]], Rank(tags, index[k]))
  {
    var tags', views := Pick(tags, index), MemberViews(index, tags, members);
    forall t | 0 <= t < |members| ensures views[t] == NewView(Selected(tags, index, t), members[t]) && |Slots(tags', t)| == Len(views[t]) {
      SelectedCount(tags, index, |index|, t);
    }
    forall k | 0 <= k < |index|
      ensures Rank(tags', k) < Len(views[tags'[k]]) && Rank(tags, index[k]) < Len(members[tags[index[k]]])
           && At(views[tags'[k]], Rank(tags', k)) == At(members[tags[index[k]]], Rank(tags, index[k]))
    {
      var t := tags[index[k]];
      SelectedFollows(tags, index, k);
      RankInMember(tags, members, index[k]);
      assert Shows(views[t], Selected(tags, index, t), members[t]);
    }
  }

  /** Slot by slot, a view is the vector it was made from. */
  lemma {:induction false} ViewShows(index: seq<nat>, v: Vec)
    requires Valid(v) && InRange(index, Len(v))
    ensures Shows(NewView(index, v), index, v)
    decreases v
  {
    match v
    case ErrorVec(_, base, _) => ViewShows(index, base);
    case UnionVec(_, tags, members, _) => ViewsShow(index, tags, members);
    case Dynamic(tags, members) => ViewsShow(index, tags, members);
    case _ =>
  }

  lemma {:induction false} ViewsShow(index: seq<nat>, tags: seq<nat>, members: seq<Vec>)
    requires InRange(index, |tags|) && Dense(tags, members) && forall t :: 0 <= t < |members| ==> Valid(members[t])
    ensures var tags', views := Pick(tags, index), MemberViews(index, tags, members);
            && Dense(tags', views)
            && (forall t :: 0 <= t < |views| ==> Valid(views[t]))
            && forall k :: 0 <= k < |index| ==>
                 && Rank(tags', k) < Len(views[tags'[k]])
                 && Rank(tags, index[k]) < Len(members[tags[index[k]]])
                 && At(views[tags'[k]], Rank(tags', k)) == At(members[tags[index[k]]], Rank(tags, index[k]))
    decreases members
  {
    forall t | 0 <= t < |members|
      ensures InRange(Selected(tags, index, t), Len(members[t])) && Shows(NewView(Selected(tags, index, t), members[t]), Selected(tags, index, t), members[t])
    {
      SelectedInMember(tags, members, index, t);
      ViewShows(Selected(tags, index, t), members[t]);
    }
    MembersShown(index, tags, members);
  }
}
