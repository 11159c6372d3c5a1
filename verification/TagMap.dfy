/** Tag maps: for every slot of a heterogeneous vector its slot in the child vector of its tag, and back. */
module TagMaps {

  /** The slots before `p` that have a tag, in order. */
  function First(tags: seq<nat>, p: nat, t: nat): seq<nat>
    requires p <= |tags|
    decreases p
  {
    if p == 0 then [] else First(tags, p - 1, t) + if tags[p - 1] == t then [p - 1] else []
  }

  /** All the slots that have a tag: the reverse map of the tag. */
  function Slots(tags: seq<nat>, t: nat): seq<nat> {
    First(tags, |tags|, t)
  }

  /** How many slots before this one have its tag: the forward map. */
  function Rank(tags: seq<nat>, i: nat): nat
    requires i < |tags|
  {
    |First(tags, i, tags[i])|
  }

  /** Only the tags before `p` count. */
  lemma {:induction false} FirstAgrees(a: seq<nat>, b: seq<nat>, p: nat, t: nat)
    requires p <= |a| && p <= |b| && forall i :: 0 <= i < p ==> a[i] == b[i]
    ensures First(a, p, t) == First(b, p, t)
    decreases p
  {
    if p > 0 {
      FirstAgrees(a, b, p - 1, t);
    }
  }

  lemma {:induction false} FirstPrefix(tags: seq<nat>, i: nat, p: nat, t: nat)
    requires i <= p <= |tags|
    ensures First(tags, i, t) <= First(tags, p, t)
    decreases p
  {
    if i < p {
      FirstPrefix(tags, i, p - 1, t);
    }
  }

  /** Forward, then reverse. */
  lemma {:induction false} RankSlot(tags: seq<nat>, i: nat)
    requires i < |tags|
    ensures Rank(tags, i) < |Slots(tags, tags[i])| && Slots(tags, tags[i])[Rank(tags, i)] == i
  {
    var t := tags[i];
    assert First(tags, i + 1, t) == First(tags, i, t) + [i];
    FirstPrefix(tags, i + 1, |tags|, t);
  }

  lemma {:induction false} FirstRank(tags: seq<nat>, p: nat, t: nat, k: nat)
    requires p <= |tags| && k < |First(tags, p, t)|
    ensures var i := First(tags, p, t)[k];
            i < p && tags[i] == t && Rank(tags, i) == k
    decreases p
  {
    if k < |First(tags, p - 1, t)| {
      FirstRank(tags, p - 1, t, k);
    }
  }

  /** Reverse, then forward. */
  lemma {:induction false} SlotRank(tags: seq<nat>, t: nat, k: nat)
    requires k < |Slots(tags, t)|
    ensures var i := Slots(tags, t)[k];
            i < |tags| && tags[i] == t && Rank(tags, i) == k
  {
    FirstRank(tags, |tags|, t, k);
  }

  // ---------------------------------------------------------------------------
  // Counting

  function SumFirst(xs: seq<nat>, p: nat): nat
    requires p <= |xs|
    decreases p
  {
    if p == 0 then 0 else SumFirst(xs, p - 1) + xs[p - 1]
  }

  function Sum(xs: seq<nat>): nat {
    SumFirst(xs, |xs|)
  }

  /** How often each tag occurs. */
  function Counts(tags: seq<nat>, n: nat): (r: seq<nat>)
    ensures |r| == n
  {
    seq(n, t requires 0 <= t < n => |Slots(tags, t)|)
  }

  predicate InRange(tags: seq<nat>, n: nat) {
    forall i :: 0 <= i < |tags| ==> tags[i] < n
  }

  lemma {:induction false} SumZero(xs: seq<nat>, p: nat)
    requires p <= |xs| && forall i :: 0 <= i < |xs| ==> xs[i] == 0
    ensures SumFirst(xs, p) == 0
    decreases p
  {
    if p > 0 {
      SumZero(xs, p - 1);
    }
  }

  lemma {:induction false} SumBump(xs: seq<nat>, t: nat, p: nat)
    requires t < |xs| && p <= |xs|
    ensures SumFirst(xs[t := xs[t] + 1], p) == SumFirst(xs, p) + if t < p then 1 else 0
    decreases p
  {
    if p > 0 {
      SumBump(xs, t, p - 1);
    }
  }

  lemma {:induction false} CountsSnoc(tags: seq<nat>, x: nat, n: nat)
    requires x < n
    ensures Counts(tags + [x], n) == Counts(tags, n)[x := Counts(tags, n)[x] + 1]
  {
    forall t | 0 <= t < n ensures |Slots(tags + [x], t)| == |Slots(tags, t)| + if t == x then 1 else 0 {
      FirstAgrees(tags + [x], tags, |tags|, t);
    }
  }

  lemma {:induction false} SumCounts(tags: seq<nat>, n: nat)
    requires InRange(tags, n)
    ensures Sum(Counts(tags, n)) == |tags|
    decreases |tags|
  {
    if tags == [] {
      SumZero(Counts(tags, n), n);
    } else {
      var m := |tags| - 1;
      SumCounts(tags[..m], n);
      assert tags == tags[..m] + [tags[m]];
      CountsSnoc(tags[..m], tags[m], n);
      SumBump(Counts(tags[..m], n), tags[m], n);
    }
  }

  lemma {:induction false} SumTight(xs: seq<nat>, ys: seq<nat>, p: nat)
    requires p <= |xs| == |ys| && forall i :: 0 <= i < |xs| ==> xs[i] <= ys[i]
    ensures SumFirst(xs, p) <= SumFirst(ys, p)
    ensures SumFirst(xs, p) == SumFirst(ys, p) ==> forall i :: 0 <= i < p ==> xs[i] == ys[i]
    decreases p
  {
    if p > 0 {
      SumTight(xs, ys, p - 1);
    }
  }

  // ---------------------------------------------------------------------------
  // NewTagMapFromLens

  /** Where the part of a tag starts in the shared space. */
  function Starts(lens: seq<nat>, t: nat): nat
    requires t <= |lens|
  {
    SumFirst(lens, t)
  }

  lemma {:induction false} StartsOrdered(lens: seq<nat>, t: nat, u: nat)
    requires t < u <= |lens|
    ensures Starts(lens, t) + lens[t] <= Starts(lens, u)
    decreases u - t
  {
    if t < u - 1 {
      StartsOrdered(lens, t, u - 1);
    }
  }

  /** Where the reverse map keeps the entry of slot `i`: its tag's part of the shared space, at its rank. */
  function Place(tags: seq<nat>, lens: seq<nat>, i: nat): nat
    requires i < |tags| && tags[i] < |lens|
  {
    Starts(lens, tags[i]) + Rank(tags, i)
  }

  predicate Fit(tags: seq<nat>, lens: seq<nat>) {
    InRange(tags, |lens|) && Counts(tags, |lens|) == lens
  }

  /** What the construction checks (the total, and every write within its part) holds exactly when the lengths fit. */
  lemma FitIffChecked(tags: seq<nat>, lens: seq<nat>)
    requires InRange(tags, |lens|)
    ensures Fit(tags, lens)
       <==> Sum(lens) == |tags| && forall t :: 0 <= t < |lens| ==> |Slots(tags, t)| <= lens[t]
  {
    SumCounts(tags, |lens|);
    if forall t :: 0 <= t < |lens| ==> |Slots(tags, t)| <= lens[t] {
      SumTight(Counts(tags, |lens|), lens, |lens|);
    }
  }

  /** Distinct slots have distinct places. */
  lemma {:induction false} PlacesDistinct(tags: seq<nat>, lens: seq<nat>, i: nat, j: nat)
    requires Fit(tags, lens) && i < j < |tags|
    ensures Place(tags, lens, i) != Place(tags, lens, j) < Sum(lens)
  {
    var t, u := tags[i], tags[j];
    RankSlot(tags, i);
    RankSlot(tags, j);
    assert lens[t] == |Slots(tags, t)| && lens[u] == |Slots(tags, u)|;
    StartsOrdered(lens, u, |lens|);
    if t < u {
      StartsOrdered(lens, t, u);
    } else if u < t {
      StartsOrdered(lens, u, t);
    }
  }

  lemma {:induction false} PlaceInSpace(tags: seq<nat>, lens: seq<nat>, i: nat)
    requires Fit(tags, lens) && i < |tags|
    ensures Starts(lens, tags[i]) <= Place(tags, lens, i) < Starts(lens, tags[i]) + lens[tags[i]] <= |tags|
  {
    RankSlot(tags, i);
    assert lens[tags[i]] == |Slots(tags, tags[i])|;
    StartsOrdered(lens, tags[i], |lens|);
    SumCounts(tags, |lens|);
  }

  /**
   Fills the forward map, and the reverse map as consecutive parts of one space.  The
   lengths must be how often each tag occurs, or the construction panics.
   */
  method NewTagMapFromLens(tags: seq<nat>, lens: seq<nat>) returns (forward: array<nat>, space: array<nat>)
    requires Fit(tags, lens)
    ensures fresh(forward) && fresh(space)
    ensures forward.Length == space.Length == |tags|
    ensures forall i :: 0 <= i < |tags| ==> forward[i] == Rank(tags, i)
    ensures forall t :: 0 <= t < |lens| ==>
      && Starts(lens, t) + lens[t] <= |tags|
      && space[Starts(lens, t)..Starts(lens, t) + lens[t]] == Slots(tags, t)
  {
    forward := new nat[|tags|](i => 0);
    space := new nat[|tags|](i => 0);
    var starts := Divide(lens);
    FillMaps(tags, lens, starts, forward, space);
    ReverseFilled(tags, lens, space[..]);
  }

  /** Where the part of each tag begins. */
  method Divide(lens: seq<nat>) returns (starts: seq<nat>)
    ensures |starts| == |lens| && forall t :: 0 <= t < |lens| ==> starts[t] == Starts(lens, t)
  {
    starts := [];
    var off := 0;
    for tag := 0 to |lens|
      invariant off == Starts(lens, tag) && |starts| == tag
      invariant forall t :: 0 <= t < tag ==> starts[t] == Starts(lens, t)
    {
      starts := starts + [off];
      off := off + lens[tag];
    }
  }

  /** Every slot has a place of its own. */
  lemma {:induction false} PlaceIsFree(tags: seq<nat>, lens: seq<nat>, slot: nat)
    requires Fit(tags, lens) && slot < |tags|
    ensures forall i :: 0 <= i < slot ==> Place(tags, lens, i) != Place(tags, lens, slot)
  {
    forall i | 0 <= i < slot ensures Place(tags, lens, i) != Place(tags, lens, slot) {
      PlacesDistinct(tags, lens, i, slot);
    }
  }

  method FillMaps(tags: seq<nat>, lens: seq<nat>, starts: seq<nat>, forward: array<nat>, space: array<nat>)
    requires Fit(tags, lens) && |starts| == |lens| && forall t :: 0 <= t < |lens| ==> starts[t] == Starts(lens, t)
    requires forward != space && forward.Length == space.Length == |tags|
    modifies forward, space
    ensures forall i :: 0 <= i < |tags| ==> forward[i] == Rank(tags, i)
    ensures forall i :: 0 <= i < |tags| ==> Place(tags, lens, i) < space.Length && space[Place(tags, lens, i)] == i
  {
    var counts := new nat[|lens|](i => 0);
    for slot := 0 to |tags|
      invariant forall t :: 0 <= t < |lens| ==> counts[t] == |First(tags, slot, t)|
      invariant forall i :: 0 <= i < slot ==> forward[i] == Rank(tags, i)
      invariant forall i :: 0 <= i < slot ==> Place(tags, lens, i) < space.Length && space[Place(tags, lens, i)] == i
    {
      var tag := tags[slot];
      var childSlot := counts[tag];
      PlaceInSpace(tags, lens, slot);
      PlaceIsFree(tags, lens, slot);
      counts[tag] := counts[tag] + 1;
      forward[slot] := childSlot;
      space[starts[tag] + childSlot] := slot;
    }
  }

  lemma {:induction false} ReverseFilled(tags: seq<nat>, lens: seq<nat>, space: seq<nat>)
    requires Fit(tags, lens) && |space| == |tags|
    requires forall i :: 0 <= i < |tags| ==> Place(tags, lens, i) < |space| && space[Place(tags, lens, i)] == i
    ensures forall t :: 0 <= t < |lens| ==>
      Starts(lens, t) + lens[t] <= |tags| && space[Starts(lens, t)..Starts(lens, t) + lens[t]] == Slots(tags, t)
  {
    SumCounts(tags, |lens|);
    forall t | 0 <= t < |lens|
      ensures Starts(lens, t) + lens[t] <= |tags| && space[Starts(lens, t)..Starts(lens, t) + lens[t]] == Slots(tags, t)
    {
      StartsOrdered(lens, t, |lens|);
      assert lens[t] == |Slots(tags, t)|;
      forall k | 0 <= k < lens[t] ensures space[Starts(lens, t) + k] == Slots(tags, t)[k] {
        SlotRank(tags, t, k);
        assert Place(tags, lens, Slots(tags, t)[k]) == Starts(lens, t) + k;
      }
    }
  }
}
