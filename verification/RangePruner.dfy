/** Range pruning: skipping the objects whose key range rules a filter out. */
module RangePruning {
  import opened Wrappers

  type Path = seq<string>

  datatype Comparator = Eq | Lt | Le | Gt | Ge | OtherOp

  datatype Operand<V> = This(path: Path) | Literal(value: V) | OtherOperand(id: nat)

  /** A filter predicate. */
  datatype Pred<V> =
    | And(lhs: Pred<V>, rhs: Pred<V>)
    | Or(lhs: Pred<V>, rhs: Pred<V>)
    | Compare(op: Comparator, left: Operand<V>, right: Operand<V>)
    | OtherPred(id: nat)

  /** The bounds that a pruner compares. */
  datatype Bound<V> = Min | Max | Const(value: V)

  datatype Pruner<V> =
    | AnyOf(left: Pruner<V>, right: Pruner<V>)
    | BothOf(left: Pruner<V>, right: Pruner<V>)
    | Check(op: Comparator, a: Bound<V>, b: Bound<V>)

  // ---------------------------------------------------------------------------
  // The construction

  function ReverseComparator(op: Comparator): Comparator {
    match op
    case Eq => Eq
    case Lt => Ge
    case Le => Gt
    case Gt => Le
    case Ge => Lt
    case OtherOp => OtherOp
  }

  /** The field, the literal and the operator of a comparison of the two. */
  function LiteralComparison<V>(op: Comparator, l: Operand<V>, r: Operand<V>): Option<(Path, V, Comparator)> {
    match (l, r)
    case (This(path), Literal(v)) => Some((path, v, op))
    case (Literal(v), This(path)) => Some((path, v, ReverseComparator(op)))
    case _ => None
  }

  function RangePrunerPred<V>(op: Comparator, v: V): Option<Pruner<V>> {
    match op
    case Lt => Some(Check(Le, Const(v), Min))
    case Le => Some(Check(Lt, Const(v), Min))
    case Gt => Some(Check(Ge, Const(v), Max))
    case Ge => Some(Check(Gt, Const(v), Max))
    case Eq => Some(AnyOf(Check(Gt, Min, Const(v)), Check(Lt, Max, Const(v))))
    case OtherOp => None
  }

  /** The pruner for a predicate over a field, or nothing if no decision can be made. */
  function BuildRangePruner<V>(p: Pred<V>, fld: Path): Option<Pruner<V>> {
    match p
    case And(l, r) =>
      (match (BuildRangePruner(l, fld), BuildRangePruner(r, fld))
       case (None, b) => b
       case (a, None) => a
       case (Some(a), Some(b)) => Some(AnyOf(a, b)))
    case Or(l, r) =>
      (match (BuildRangePruner(l, fld), BuildRangePruner(r, fld))
       case (Some(a), Some(b)) => Some(BothOf(a, b))
       case _ => None)
    case Compare(op, l, r) =>
      if op == OtherOp then None
      else
        (match LiteralComparison(op, l, r)
         case None => None
         case Some((path, v, op')) => if path == fld then RangePrunerPred(op', v) else None)
    case OtherPred(_) => None
  }

  // ---------------------------------------------------------------------------
  // Meaning

  type Cmp<!V> = (V, V) -> int

  ghost predicate TotalOrder<V(!new)>(cmp: Cmp<V>) {
    && (forall a, b :: cmp(a, b) < 0 <==> cmp(b, a) > 0)
    && (forall a, b, c :: cmp(a, b) <= 0 && cmp(b, c) <= 0 ==> cmp(a, c) <= 0)
  }

  predicate Relates(op: Comparator, c: int) {
    match op
    case Eq => c == 0
    case Lt => c < 0
    case Le => c <= 0
    case Gt => c > 0
    case Ge => c >= 0
    case OtherOp => true
  }

  function BoundValue<V>(b: Bound<V>, min: V, max: V): V {
    match b
    case Min => min
    case Max => max
    case Const(v) => v
  }

  predicate Prunes<V>(cmp: Cmp<V>, p: Pruner<V>, min: V, max: V) {
    match p
    case AnyOf(l, r) => Prunes(cmp, l, min, max) || Prunes(cmp, r, min, max)
    case BothOf(l, r) => Prunes(cmp, l, min, max) && Prunes(cmp, r, min, max)
    case Check(op, a, b) => Relates(op, cmp(BoundValue(a, min, max), BoundValue(b, min, max)))
  }

  /** A value to filter: its fields, and what the parts of the predicate that are not comparisons make of it. */
  datatype Row<!V> = Row(get: Path -> V, operand: nat -> V, other: nat -> bool)

  function OperandValue<V>(o: Operand<V>, row: Row<V>): V {
    match o
    case This(path) => row.get(path)
    case Literal(v) => v
    case OtherOperand(id) => row.operand(id)
  }

  predicate True<V>(cmp: Cmp<V>, p: Pred<V>, row: Row<V>) {
    match p
    case And(l, r) => True(cmp, l, row) && True(cmp, r, row)
    case Or(l, r) => True(cmp, l, row) || True(cmp, r, row)
    case Compare(op, l, r) => Relates(op, cmp(OperandValue(l, row), OperandValue(r, row)))
    case OtherPred(id) => row.other(id)
  }

  predicate InRange<V>(cmp: Cmp<V>, key: V, min: V, max: V) {
    cmp(min, key) <= 0 && cmp(key, max) <= 0
  }

  /** No literal on the left of `<=` is the upper bound, and none on the left of `>=` the lower bound. */
  predicate OffBoundary<V>(cmp: Cmp<V>, p: Pred<V>, fld: Path, min: V, max: V) {
    match p
    case And(l, r) => OffBoundary(cmp, l, fld, min, max) && OffBoundary(cmp, r, fld, min, max)
    case Or(l, r) => OffBoundary(cmp, l, fld, min, max) && OffBoundary(cmp, r, fld, min, max)
    case Compare(op, Literal(v), This(path)) =>
      path == fld ==> (op == Le ==> cmp(v, max) != 0) && (op == Ge ==> cmp(v, min) != 0)
    case _ => true
  }

  /** The field stands on the left of every comparison with a literal. */
  predicate FieldOnLeft<V>(p: Pred<V>) {
    match p
    case And(l, r) => FieldOnLeft(l) && FieldOnLeft(r)
    case Or(l, r) => FieldOnLeft(l) && FieldOnLeft(r)
    case Compare(_, l, _) => !l.Literal?
    case OtherPred(_) => true
  }

  lemma {:induction false} FieldOnLeftOffBoundary<V>(cmp: Cmp<V>, p: Pred<V>, fld: Path, min: V, max: V)
    requires FieldOnLeft(p)
    ensures OffBoundary(cmp, p, fld, min, max)
  {
    if p.And? || p.Or? {
      FieldOnLeftOffBoundary(cmp, p.lhs, fld, min, max);
      FieldOnLeftOffBoundary(cmp, p.rhs, fld, min, max);
    }
  }

  /** An object that is pruned holds no value that the predicate accepts. */
  lemma {:induction false} PruningIsSound<V(!new)>(cmp: Cmp<V>, p: Pred<V>, fld: Path, min: V, max: V, row: Row<V>)
    requires TotalOrder(cmp) && OffBoundary(cmp, p, fld, min, max)
    requires BuildRangePruner(p, fld).Some? && Prunes(cmp, BuildRangePruner(p, fld).value, min, max)
    requires InRange(cmp, row.get(fld), min, max)
    ensures !True(cmp, p, row)
  {
    match p
    case And(l, r) =>
      var a, b := BuildRangePruner(l, fld), BuildRangePruner(r, fld);
      if a.Some? && Prunes(cmp, a.value, min, max) {
        PruningIsSound(cmp, l, fld, min, max, row);
      } else {
        PruningIsSound(cmp, r, fld, min, max, row);
      }
    case Or(l, r) =>
      PruningIsSound(cmp, l, fld, min, max, row);
      PruningIsSound(cmp, r, fld, min, max, row);
    case Compare(op, l, r) =>
      OrderIsConsistent(cmp, if l.Literal? then l.value else if r.Literal? then r.value else min, row.get(fld), min, max);
      ComparisonIsSound(cmp, op, l, r, fld, min, max, row);
  }

  /** What an order says about a literal, a key and the range that the key is in. */
  predicate Consistent(vk: int, kv: int, vmin: int, minv: int, vmax: int, maxv: int) {
    && (vk < 0 <==> kv > 0) && (kv < 0 <==> vk > 0)
    && (vmin < 0 <==> minv > 0) && (minv < 0 <==> vmin > 0)
    && (vmax < 0 <==> maxv > 0) && (maxv < 0 <==> vmax > 0)
    && (vmin <= 0 ==> vk <= 0) && (vmin < 0 ==> vk < 0)
    && (maxv <= 0 ==> kv <= 0) && (maxv < 0 ==> kv < 0)
  }

  lemma {:induction false} OrderIsConsistent<V(!new)>(cmp: Cmp<V>, v: V, key: V, min: V, max: V)
    requires TotalOrder(cmp) && InRange(cmp, key, min, max)
    ensures Consistent(cmp(v, key), cmp(key, v), cmp(v, min), cmp(min, v), cmp(v, max), cmp(max, v))
  {
    Chain(cmp, v, min, key);
    Chain(cmp, key, max, v);
  }

  lemma {:induction false} ComparisonIsSound<V>(cmp: Cmp<V>, op: Comparator, l: Operand<V>, r: Operand<V>, fld: Path, min: V, max: V, row: Row<V>)
    requires OffBoundary(cmp, Compare(op, l, r), fld, min, max)
    requires var b := BuildRangePruner(Compare(op, l, r), fld);
             b.Some? && Prunes(cmp, b.value, min, max)
    requires var v, key := if l.Literal? then l.value else if r.Literal? then r.value else min, row.get(fld);
             Consistent(cmp(v, key), cmp(key, v), cmp(v, min), cmp(min, v), cmp(v, max), cmp(max, v))
    ensures !True(cmp, Compare(op, l, r), row)
  {
    var key := row.get(fld);
    if l.This? && r.Literal? {
      assert l.path == fld && OperandValue(l, row) == key && OperandValue(r, row) == r.value;
      PrunedForKey(cmp, op, r.value, key, min, max);
    } else if l.Literal? && r.This? {
      assert r.path == fld && OperandValue(r, row) == key && OperandValue(l, row) == l.value;
      PrunedForKey(cmp, ReverseComparator(op), l.value, key, min, max);
    }
  }

  /** When a pruner for `key op v` prunes, the key is off by what its bound says. */
  lemma {:induction false} PrunedForKey<V>(cmp: Cmp<V>, op: Comparator, v: V, key: V, min: V, max: V)
    requires RangePrunerPred(op, v).Some? && Prunes(cmp, RangePrunerPred(op, v).value, min, max)
    requires Consistent(cmp(v, key), cmp(key, v), cmp(v, min), cmp(min, v), cmp(v, max), cmp(max, v))
    ensures op == Lt ==> cmp(v, min) <= 0 && cmp(v, key) <= 0
    ensures op == Le ==> cmp(v, min) < 0 && cmp(v, key) < 0
    ensures op == Gt ==> cmp(v, max) >= 0 && cmp(key, v) <= 0
    ensures op == Ge ==> cmp(v, max) > 0 && cmp(key, v) < 0
    ensures op == Eq ==> cmp(v, key) != 0 && cmp(key, v) != 0
  {
    match op
    case Eq =>
      var p := AnyOf(Check(Gt, Min, Const(v)), Check(Lt, Max, Const(v)));
      assert Prunes(cmp, p, min, max) == (cmp(min, v) > 0 || cmp(max, v) < 0);
    case _ =>
  }

  lemma {:induction false} Chain<V(!new)>(cmp: Cmp<V>, a: V, b: V, c: V)
    requires TotalOrder(cmp)
    ensures cmp(a, b) <= 0 && cmp(b, c) <= 0 ==> cmp(a, c) <= 0
    ensures cmp(a, b) < 0 <==> cmp(b, a) > 0
    ensures cmp(b, c) < 0 <==> cmp(c, b) > 0
    ensures cmp(a, c) < 0 <==> cmp(c, a) > 0
    ensures cmp(a, b) < 0 && cmp(b, c) <= 0 ==> cmp(a, c) < 0
    ensures cmp(a, b) <= 0 && cmp(b, c) < 0 ==> cmp(a, c) < 0
  {
    assert cmp(c, a) <= 0 && cmp(a, b) <= 0 ==> cmp(c, b) <= 0;
    assert cmp(b, c) <= 0 && cmp(c, a) <= 0 ==> cmp(b, a) <= 0;
  }

  /**
   With the literal on the left of `<=`, the pruner is sound exactly when the literal is not
   the upper bound; the row that shows it otherwise has the bound as its key.
   */
  lemma {:induction false} LiteralLeSoundIff<V(!new)>(cmp: Cmp<V>, v: V, fld: Path, min: V, max: V)
    requires TotalOrder(cmp) && cmp(min, max) <= 0
    ensures var p := Compare(Le, Literal(v), This(fld));
            var b := BuildRangePruner(p, fld);
            && b.Some?
            && ((forall row: Row<V> :: Prunes(cmp, b.value, min, max) && InRange(cmp, row.get(fld), min, max) ==> !True(cmp, p, row))
                <==> cmp(v, max) != 0)
  {
    var p: Pred<V> := Compare(Le, Literal(v), This(fld));
    var b := BuildRangePruner(p, fld);
    if cmp(v, max) != 0 {
      forall row: Row<V> | Prunes(cmp, b.value, min, max) && InRange(cmp, row.get(fld), min, max) ensures !True(cmp, p, row) {
        PruningIsSound(cmp, p, fld, min, max, row);
      }
    } else {
      var row := Row((q: Path) => max, (i: nat) => max, (i: nat) => true);
      assert cmp(max, max) == 0;
      assert InRange(cmp, row.get(fld), min, max) && True(cmp, p, row) && Prunes(cmp, b.value, min, max);
    }
  }

  /** With the literal on the left of `>=`, exactly when it is not the lower bound. */
  lemma {:induction false} LiteralGeSoundIff<V(!new)>(cmp: Cmp<V>, v: V, fld: Path, min: V, max: V)
    requires TotalOrder(cmp) && cmp(min, max) <= 0
    ensures var p := Compare(Ge, Literal(v), This(fld));
            var b := BuildRangePruner(p, fld);
            && b.Some?
            && ((forall row: Row<V> :: Prunes(cmp, b.value, min, max) && InRange(cmp, row.get(fld), min, max) ==> !True(cmp, p, row))
                <==> cmp(v, min) != 0)
  {
    var p: Pred<V> := Compare(Ge, Literal(v), This(fld));
    var b := BuildRangePruner(p, fld);
    if cmp(v, min) != 0 {
      forall row: Row<V> | Prunes(cmp, b.value, min, max) && InRange(cmp, row.get(fld), min, max) ensures !True(cmp, p, row) {
        PruningIsSound(cmp, p, fld, min, max, row);
      }
    } else {
      var row := Row((q: Path) => min, (i: nat) => min, (i: nat) => true);
      assert cmp(min, min) == 0;
      assert InRange(cmp, row.get(fld), min, max) && True(cmp, p, row) && Prunes(cmp, b.value, min, max);
    }
  }

  /** With the field on the left, pruning is sound on every range. */
  lemma {:induction false} FieldOnLeftIsSound<V(!new)>(cmp: Cmp<V>, p: Pred<V>, fld: Path, min: V, max: V, row: Row<V>)
    requires TotalOrder(cmp) && FieldOnLeft(p)
    requires BuildRangePruner(p, fld).Some? && Prunes(cmp, BuildRangePruner(p, fld).value, min, max)
    requires InRange(cmp, row.get(fld), min, max)
    ensures !True(cmp, p, row)
  {
    FieldOnLeftOffBoundary(cmp, p, fld, min, max);
    PruningIsSound(cmp, p, fld, min, max, row);
  }
}
