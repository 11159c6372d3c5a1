/** Sorted member lists: UniqueTypes, and the union that a context makes of a list of types. */
module UnionTypes {
  import opened Types
  import opened TypeOrder

  predicate AllSingle(ts: seq<Type>) {
    forall i :: 0 <= i < |ts| ==> Single(ts[i])
  }

  predicate Sorted(ts: seq<Type>) {
    forall i, j :: 0 <= i < j < |ts| ==> CompareTypes(ts[i], ts[j]) <= 0
  }

  /** Each type is at most the next. */
  predicate Stepwise(ts: seq<Type>) {
    forall i :: 0 < i < |ts| ==> CompareTypes(ts[i - 1], ts[i]) <= 0
  }

  predicate StrictlySorted(ts: seq<Type>) {
    forall i, j :: 0 <= i < j < |ts| ==> CompareTypes(ts[i], ts[j]) < 0
  }

  /** A step of a stable sort: the new type moves to the front past those that it is less than. */
  function Insert(ts: seq<Type>, t: Type): (r: seq<Type>)
    ensures |r| == |ts| + 1
    decreases |ts|
  {
    var n := |ts| - 1;
    if ts == [] || CompareTypes(t, ts[n]) >= 0 then ts + [t] else Insert(ts[..n], t) + [ts[n]]
  }

  function SortTypes(ts: seq<Type>): (r: seq<Type>)
    ensures |r| == |ts|
    decreases |ts|
  {
    if ts == [] then [] else Insert(SortTypes(ts[..|ts| - 1]), ts[|ts| - 1])
  }

  lemma {:induction false} InsertPermutes(ts: seq<Type>, t: Type)
    ensures multiset(Insert(ts, t)) == multiset(ts) + multiset{t}
    decreases |ts|
  {
    if ts != [] && CompareTypes(t, ts[|ts| - 1]) < 0 {
      InsertPermutes(ts[..|ts| - 1], t);
      DropLast(ts);
    }
  }

  /** Sorting only reorders. */
  lemma {:induction false} SortTypesPermutes(ts: seq<Type>)
    ensures multiset(SortTypes(ts)) == multiset(ts)
    decreases |ts|
  {
    if ts != [] {
      SortTypesPermutes(ts[..|ts| - 1]);
      InsertPermutes(SortTypes(ts[..|ts| - 1]), ts[|ts| - 1]);
      DropLast(ts);
    }
  }

  lemma {:induction false} SingleMembers(a: seq<Type>, b: seq<Type>)
    requires AllSingle(a) && multiset(a) == multiset(b)
    ensures AllSingle(b)
  {
    forall i | 0 <= i < |b| ensures Single(b[i]) {
      assert b[i] in multiset(b);
      assert b[i] in a;
    }
  }

  /** A type that no member exceeds goes last. */
  lemma {:induction false} SortedSnoc(ts: seq<Type>, t: Type)
    requires Sorted(ts) && forall i :: 0 <= i < |ts| ==> CompareTypes(ts[i], t) <= 0
    ensures Sorted(ts + [t])
  {
  }

  lemma {:induction false} InsertSorted(ts: seq<Type>, t: Type)
    requires Sorted(ts) && AllSingle(ts) && Single(t)
    ensures Sorted(Insert(ts, t))
    decreases |ts|
  {
    var n := |ts| - 1;
    if ts == [] {
    } else if CompareTypes(t, ts[n]) >= 0 {
      forall i | 0 <= i < |ts| ensures CompareTypes(ts[i], t) <= 0 {
        TypesLawful(ts[i], ts[n], t);
        TypesPair(ts[n], t);
        if i == n {
          TypesPair(t, ts[n]);
        }
      }
      SortedSnoc(ts, t);
    } else {
      InsertSorted(ts[..n], t);
      var front := Insert(ts[..n], t);
      InsertPermutes(ts[..n], t);
      forall i | 0 <= i < |front| ensures CompareTypes(front[i], ts[n]) <= 0 {
        assert front[i] in multiset(front);
        assert front[i] in ts[..n] || front[i] == t;
      }
      SortedSnoc(front, ts[n]);
    }
  }

  lemma {:induction false} SortTypesSorted(ts: seq<Type>)
    requires AllSingle(ts)
    ensures Sorted(SortTypes(ts))
    decreases |ts|
  {
    if ts != [] {
      var n := |ts| - 1;
      SortTypesSorted(ts[..n]);
      SortTypesPermutes(ts[..n]);
      SingleMembers(ts[..n], SortTypes(ts[..n]));
      InsertSorted(SortTypes(ts[..n]), ts[n]);
    }
  }

  lemma {:induction false} LastIsGreatest(a: seq<Type>, b: seq<Type>)
    requires Sorted(a) && Sorted(b) && AllSingle(a) && multiset(a) == multiset(b) && a != []
    ensures b != [] && a[|a| - 1] == b[|b| - 1]
  {
    assert a[0] in multiset(a);
    assert b != [];
    var x, y := a[|a| - 1], b[|b| - 1];
    assert x in multiset(a) && y in multiset(b);
    var i :| 0 <= i < |b| && b[i] == x;
    var j :| 0 <= j < |a| && a[j] == y;
    SingleMembers(a, b);
    TypesTie(x, y);
    TypesPair(x, y);
  }

  /** Sorting leaves no choice. */
  lemma {:induction false} SortedUnique(a: seq<Type>, b: seq<Type>)
    requires Sorted(a) && Sorted(b) && AllSingle(a) && multiset(a) == multiset(b)
    ensures a == b
    decreases |a|
  {
    assert |a| == |multiset(a)| == |multiset(b)| == |b|;
    if a != [] {
      LastIsGreatest(a, b);
      DropLast(a);
      DropLast(b);
      SortedUnique(a[..|a| - 1], b[..|b| - 1]);
    }
  }

  lemma {:induction false} DropLast(ts: seq<Type>)
    requires ts != []
    ensures var n := |ts| - 1;
            && ts == ts[..n] + [ts[n]]
            && multiset(ts[..n]) == multiset(ts) - multiset{ts[n]}
            && (Sorted(ts) ==> Sorted(ts[..n]))
            && (AllSingle(ts) ==> AllSingle(ts[..n]))
  {
    assert ts == ts[..|ts| - 1] + [ts[|ts| - 1]];
  }

  /** Every permutation of a member list gives the same union. */
  lemma {:induction false} UnionOfPermutation(a: seq<Type>, b: seq<Type>)
    requires AllSingle(a) && multiset(a) == multiset(b)
    ensures Union(SortTypes(a)) == Union(SortTypes(b))
  {
    SingleMembers(a, b);
    SortTypesPermutes(a);
    SortTypesPermutes(b);
    SingleMembers(a, SortTypes(a));
    SortTypesSorted(a);
    SortTypesSorted(b);
    SortedUnique(SortTypes(a), SortTypes(b));
  }

  lemma {:induction false} StepwiseSnoc(ts: seq<Type>, t: Type)
    requires Stepwise(ts) && (ts != [] ==> CompareTypes(ts[|ts| - 1], t) <= 0)
    ensures Stepwise(ts + [t])
  {
  }

  lemma {:induction false} StepwiseFront(ts: seq<Type>)
    requires ts != [] && Stepwise(ts)
    ensures Stepwise(ts[..|ts| - 1])
  {
  }

  lemma {:induction false} InsertStepwise(ts: seq<Type>, t: Type)
    requires Stepwise(ts)
    ensures Stepwise(Insert(ts, t)) && Insert(ts, t)[|ts|] in (if ts == [] then {t} else {t, ts[|ts| - 1]})
    decreases |ts|
  {
    if ts != [] {
      var n := |ts| - 1;
      TypesPair(t, ts[n]);
      if CompareTypes(t, ts[n]) >= 0 {
        StepwiseSnoc(ts, t);
      } else {
        StepwiseFront(ts);
        InsertStepwise(ts[..n], t);
        StepwiseSnoc(Insert(ts[..n], t), ts[n]);
      }
    }
  }

  /** Whatever the types are, sorting leaves each at most the next. */
  lemma {:induction false} SortTypesStepwise(ts: seq<Type>)
    ensures Stepwise(SortTypes(ts))
    decreases |ts|
  {
    if ts != [] {
      SortTypesStepwise(ts[..|ts| - 1]);
      InsertStepwise(SortTypes(ts[..|ts| - 1]), ts[|ts| - 1]);
    }
  }

  lemma {:induction false} InsertLast(ts: seq<Type>, t: Type)
    requires ts != [] ==> CompareTypes(ts[|ts| - 1], t) <= 0
    ensures Insert(ts, t) == ts + [t]
  {
    if ts != [] {
      TypesPair(ts[|ts| - 1], t);
    }
  }

  /** A list where each type is at most the next stays as it is. */
  lemma {:induction false} StepwiseStays(ts: seq<Type>)
    requires Stepwise(ts)
    ensures SortTypes(ts) == ts
    decreases |ts|
  {
    if ts != [] {
      var n := |ts| - 1;
      StepwiseFront(ts);
      StepwiseStays(ts[..n]);
      assert n > 0 ==> CompareTypes(ts[n - 1], ts[n]) <= 0;
      InsertLast(ts[..n], ts[n]);
      SortTypesStep(ts);
    }
  }

  lemma {:induction false} SortTypesStep(ts: seq<Type>)
    requires ts != []
    ensures SortTypes(ts) == Insert(SortTypes(ts[..|ts| - 1]), ts[|ts| - 1])
    ensures ts == ts[..|ts| - 1] + [ts[|ts| - 1]]
  {
  }

  /** A union of the context keeps its members as they are when it is looked up again. */
  lemma {:induction false} SortedTwice(ts: seq<Type>)
    ensures SortTypes(SortTypes(ts)) == SortTypes(ts)
  {
    SortTypesStepwise(ts);
    StepwiseStays(SortTypes(ts));
  }

  lemma {:induction false} SortedMembers(ts: seq<Type>)
    ensures forall t :: t in SortTypes(ts) <==> t in ts
  {
    SortTypesPermutes(ts);
    forall t ensures t in SortTypes(ts) <==> t in ts {
      assert t in SortTypes(ts) <==> t in multiset(SortTypes(ts));
    }
  }

  /** Sorts the types and drops those equal to the one before. */
  method UniqueTypes(types: seq<Type>) returns (out: seq<Type>)
    ensures Stepwise(out)
    ensures forall t :: t in out <==> t in types
    ensures AllSingle(types) ==> StrictlySorted(out)
  {
    SortTypesStepwise(types);
    SortedMembers(types);
    if AllSingle(types) {
      SortTypesSorted(types);
      SortTypesPermutes(types);
      SingleMembers(types, SortTypes(types));
    }
    out := DropRepeated(SortTypes(types));
  }

  /** A type goes out unless it is the one before. */
  method DropRepeated(sorted: seq<Type>) returns (out: seq<Type>)
    requires Stepwise(sorted)
    ensures Stepwise(out)
    ensures forall t :: t in out <==> t in sorted
    ensures AllSingle(sorted) && Sorted(sorted) ==> StrictlySorted(out)
  {
    out := [];
    for k := 0 to |sorted|
      invariant Stepwise(out)
      invariant AllSingle(sorted) && Sorted(sorted) ==> AllSingle(out) && StrictlySorted(out)
      invariant out == [] <==> k == 0
      invariant k > 0 ==> out[|out| - 1] == sorted[k - 1]
      invariant forall t :: t in out <==> t in sorted[..k]
    {
      assert sorted[..k + 1] == sorted[..k] + [sorted[k]];
      if out == [] || sorted[k] != out[|out| - 1] {
        if k > 0 && AllSingle(sorted) && Sorted(sorted) {
          GreaterThanAll(out, sorted[k - 1], sorted[k]);
        }
        StepwiseSnoc(out, sorted[k]);
        out := out + [sorted[k]];
      }
    }
    assert sorted[..|sorted|] == sorted;
  }

  lemma {:induction false} GreaterThanAll(ts: seq<Type>, last: Type, t: Type)
    requires ts != [] && ts[|ts| - 1] == last && last != t
    requires AllSingle(ts) && Single(t) && StrictlySorted(ts) && CompareTypes(last, t) <= 0
    ensures StrictlySorted(ts + [t])
  {
    TypesTie(last, t);
    forall i | 0 <= i < |ts| ensures CompareTypes(ts[i], t) < 0 {
      TypesLawful(ts[i], last, t);
    }
  }
}
