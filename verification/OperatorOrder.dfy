/** The stateless operators on rows, and what the analysis of sort keys promises about them. */
module OperatorOrder {
  import opened Wrappers
  import opened SortKeys

  // ---------------------------------------------------------------------------
  // Fields of nested records

  /** Neither path leads to a part of what the other leads to. */
  predicate Apart(p: Path, q: Path) {
    !(p <= q) && !(q <= p)
  }

  predicate SameOrApart(p: Path, q: Path) {
    p == q || Apart(p, q)
  }

  function Set(r: Row, p: Path, v: Row): Row
    decreases |p|
  {
    if p == [] then v
    else
      var fields := if r.Record? then r.fields else map[];
      var inner := if p[0] in fields then fields[p[0]] else Record(map[]);
      Record(fields[p[0] := Set(inner, p[1..], v)])
  }

  /** A row without a field, and without the records that had nothing else. */
  function Remove(r: Row, p: Path): Row
    decreases |p|
  {
    if p == [] || !r.Record? || p[0] !in r.fields then r
    else if |p| == 1 then Record(r.fields - {p[0]})
    else
      var inner := Remove(r.fields[p[0]], p[1..]);
      if inner == r.fields[p[0]] then r
      else if inner == Record(map[]) then Record(r.fields - {p[0]})
      else Record(r.fields[p[0] := inner])
  }

  lemma {:induction false} ApartTails(p: Path, q: Path)
    requires Apart(p, q)
    ensures p != [] && q != [] && (p[0] == q[0] ==> Apart(p[1..], q[1..]))
  {
    if p != [] && q != [] && p[0] == q[0] {
      assert p == [p[0]] + p[1..] && q == [q[0]] + q[1..];
    }
  }

  lemma {:induction false} SetGet(r: Row, p: Path, v: Row, q: Path)
    ensures Get(Set(r, p, v), p) == Some(v)
    ensures Apart(p, q) ==> Get(Set(r, p, v), q) == Get(r, q)
    decreases |p|
  {
    if p != [] {
      var fields := if r.Record? then r.fields else map[];
      var inner := if p[0] in fields then fields[p[0]] else Record(map[]);
      if Apart(p, q) {
        ApartTails(p, q);
        SetGet(inner, p[1..], v, q[1..]);
      } else {
        SetGet(inner, p[1..], v, p[1..]);
      }
    }
  }

  lemma {:induction false} RemoveGet(r: Row, p: Path, q: Path)
    ensures p != [] ==> Get(Remove(r, p), p) == None
    ensures Apart(p, q) ==> Get(Remove(r, p), q) == Get(r, q)
    decreases |p|
  {
    if p != [] && r.Record? && p[0] in r.fields {
      if Apart(p, q) {
        ApartTails(p, q);
        RemoveGet(r.fields[p[0]], p[1..], q[1..]);
      } else {
        RemoveGet(r.fields[p[0]], p[1..], p[1..]);
      }
    }
  }

  /** Removing what is not there changes nothing. */
  lemma {:induction false} RemoveMissing(r: Row, p: Path)
    requires Get(r, p).None?
    ensures Remove(r, p) == r
    decreases |p|
  {
    if p != [] && r.Record? && p[0] in r.fields && |p| > 1 {
      RemoveMissing(r.fields[p[0]], p[1..]);
    }
  }

  lemma {:induction false} RemoveAddsNothing(r: Row, p: Path, q: Path)
    requires Get(r, q).None?
    ensures Get(Remove(r, p), q).None?
    decreases |p|
  {
    if p != [] && r.Record? && p[0] in r.fields && |p| > 1 && q != [] && q[0] == p[0] {
      RemoveAddsNothing(r.fields[p[0]], p[1..], q[1..]);
    }
  }

  /** A field of a field. */
  lemma {:induction false} GetInside(r: Row, p: Path, q: Path)
    requires p <= q
    ensures Get(r, q) == match Get(r, p) case None => None case Some(w) => Get(w, q[|p|..])
    decreases |p|
  {
    if p == [] {
      assert q[0..] == q;
    } else if r.Record? && p[0] in r.fields {
      assert q[0] == p[0] && p[1..] <= q[1..] && q[1..][|p| - 1..] == q[|p|..];
      GetInside(r.fields[p[0]], p[1..], q[1..]);
    }
  }

  /** A field that is set in, around or at a field can be set so that the latter is anything else. */
  lemma {:induction false} SetHits(r: Row, p: Path, f: Path, g: Option<Row>) returns (v: Row)
    requires !Apart(p, f)
    ensures Get(Set(r, p, v), f) != g
  {
    v := Leaf([]);
    if p <= f {
      var rest := f[|p|..];
      if rest == [] && g == Some(Leaf([])) {
        v := Record(map[]);
      } else if rest != [] && g.None? {
        v := Set(Record(map[]), rest, Leaf([]));
        SetGet(Record(map[]), rest, Leaf([]), rest);
      }
      SetGet(r, p, v, p);
      GetInside(Set(r, p, v), p, f);
    } else {
      if g.Some? && Get(g.value, p[|f|..]) == Some(Leaf([])) {
        v := Record(map[]);
      }
      SetGet(r, p, v, p);
      GetInside(Set(r, p, v), f, p);
    }
  }

  // ---------------------------------------------------------------------------
  // The operators

  function RhsValue(rhs: Rhs, r: Row): Option<Row> {
    match rhs
    case Field(p) => Get(r, p)
    case Expr(_, value) => Some(value(r))
  }

  function Assign(out: Row, p: Path, v: Option<Row>): Row {
    if v.Some? then Set(out, p, v.value) else Remove(out, p)
  }

  function TargetOf(a: Assignment, r: Row): Path {
    match a.lhs
    case Static(p) => p
    case Computed(eval) => eval(r)
  }

  /** The first `n` assignments, each evaluated on the input. */
  function AssignFirst(out: Row, args: seq<Assignment>, n: nat, r: Row): Row
    requires n <= |args|
  {
    if n == 0 then out
    else Assign(AssignFirst(out, args, n - 1, r), TargetOf(args[n - 1], r), RhsValue(args[n - 1].rhs, r))
  }

  const FAILED := Leaf([])

  /** A field that would get the name of another one. */
  predicate Collides(a: Renaming, r: Row) {
    a.to != a.from && Get(r, a.from).Some? && Get(r, a.to).Some?
  }

  function RenameRow(a: Renaming, r: Row): Row {
    if Get(r, a.from).None? then r
    else if Collides(a, r) then FAILED
    else Set(Remove(r, a.from), a.to, Get(r, a.from).value)
  }

  /** Renamings are applied from left to right; a collision makes an error of the row. */
  function RenameFirst(renamings: seq<Renaming>, n: nat, r: Row): Row
    requires n <= |renamings|
  {
    if n == 0 then r else RenameRow(renamings[n - 1], RenameFirst(renamings, n - 1, r))
  }

  function DropFirst(drops: seq<Option<Path>>, n: nat, r: Row): Row
    requires n <= |drops|
  {
    if n == 0 then r
    else
      var before := DropFirst(drops, n - 1, r);
      if drops[n - 1].Some? then Remove(before, drops[n - 1].value) else before
  }

  /** What a stateless operator makes of a row. */
  function Step(op: Op, r: Row): (out: seq<Row>)
    requires Stateless(op)
    ensures |out| <= 1
  {
    match op
    case Filter(keep) => if keep(r) then [r] else []
    case Pass => [r]
    case Cut(cuts) => [AssignFirst(Record(map[]), cuts, |cuts|, r)]
    case Put(puts) => if r.Record? then [AssignFirst(r, puts, |puts|, r)] else [r]
    case Drop(drops) =>
      var left := DropFirst(drops, |drops|, r);
      if left == Record(map[]) && r != left then [] else [left]
    case Rename(renamings) => [RenameFirst(renamings, |renamings|, r)]
  }

  // ---------------------------------------------------------------------------
  // What the operators must respect

  /** The compiler refuses a cut of nothing, to an empty path, or to two targets one of which is the other or inside of it. */
  predicate TargetsApart(cuts: seq<Assignment>) {
    && cuts != []
    && (forall i :: 0 <= i < |cuts| && cuts[i].lhs.Static? ==> cuts[i].lhs.path != [])
    && forall i, j :: 0 <= i < j < |cuts| && cuts[i].lhs.Static? && cuts[j].lhs.Static? ==> Apart(cuts[i].lhs.path, cuts[j].lhs.path)
  }

  /** No renaming is to the key, and no path of one leads into another or into the key. */
  predicate RenamesApart(renamings: seq<Renaming>, key: Path) {
    && (forall i :: 0 <= i < |renamings| ==> Apart(renamings[i].to, key) && SameOrApart(renamings[i].from, key))
    && (forall i, j :: 0 <= i < |renamings| && 0 <= j < |renamings| ==>
          SameOrApart(renamings[i].from, renamings[j].to) && SameOrApart(renamings[i].to, renamings[j].to))
  }

  /** A cut whose targets are the reported field or apart from it, and renamings apart from the key and each other. */
  predicate Respects(op: Op, key: Path, out: Path) {
    match op
    case Cut(cuts) => TargetsApart(cuts) && CutsApart(cuts, out)
    case Rename(renamings) => RenamesApart(renamings, key)
    case _ => true
  }

  predicate CutsApart(cuts: seq<Assignment>, f: Path) {
    forall i :: 0 <= i < |cuts| && cuts[i].lhs.Static? ==> SameOrApart(cuts[i].lhs.path, f)
  }

  /**
   The operator treats the key of this row as the analysis says: a put has no target that is, holds or
   is inside of the key, a drop takes nothing out of the key, and no renaming fails or finds a value
   where it should bring the key.
   */
  predicate Admits(op: Op, key: SortKey, r: Row) {
    match op
    case Put(puts) => r.Record? ==> Spared(puts, |puts|, r, key.key)
    case Drop(drops) => DropsKeep(drops, key.key, r)
    case Rename(renamings) => RenamesKeep(renamings, |renamings|, key, r)
    case _ => true
  }

  // ---------------------------------------------------------------------------
  // Assignments

  /** No one of the first `n` assignments goes to a field, into it or around it. */
  predicate Spared(args: seq<Assignment>, n: nat, r: Row, f: Path)
    requires n <= |args|
  {
    forall i :: 0 <= i < n ==> Apart(TargetOf(args[i], r), f)
  }

  lemma {:induction false} SparedStays(out: Row, args: seq<Assignment>, n: nat, r: Row, f: Path)
    requires n <= |args| && Spared(args, n, r, f)
    ensures Get(AssignFirst(out, args, n, r), f) == Get(out, f)
    decreases n
  {
    if n > 0 {
      SparedStays(out, args, n - 1, r, f);
      AssignGet(AssignFirst(out, args, n - 1, r), TargetOf(args[n - 1], r), RhsValue(args[n - 1].rhs, r), f);
    }
  }

  lemma {:induction false} AssignGet(out: Row, p: Path, v: Option<Row>, q: Path)
    ensures p != [] ==> Get(Assign(out, p, v), p) == v
    ensures Apart(p, q) ==> Get(Assign(out, p, v), q) == Get(out, q)
  {
    if v.Some? {
      SetGet(out, p, v.value, q);
    } else {
      RemoveGet(out, p, q);
    }
  }

  /** A field that only assignment `i` goes to has the value of its right-hand side. */
  lemma {:induction false} AssignedOnce(out: Row, args: seq<Assignment>, i: nat, n: nat, r: Row, f: Path)
    requires i < n <= |args| && f != [] && TargetOf(args[i], r) == f
    requires forall j :: i < j < n ==> Apart(TargetOf(args[j], r), f)
    ensures Get(AssignFirst(out, args, n, r), f) == RhsValue(args[i].rhs, r)
    decreases n
  {
    AssignGet(AssignFirst(out, args, n - 1, r), TargetOf(args[n - 1], r), RhsValue(args[n - 1].rhs, r), f);
    if i < n - 1 {
      AssignedOnce(out, args, i, n - 1, r, f);
    }
  }

  /** The same assignments, but for what they assign. */
  ghost predicate SameTargets(a: seq<Assignment>, b: seq<Assignment>) {
    |a| == |b| && forall i :: 0 <= i < |a| ==> a[i].lhs == b[i].lhs
  }

  /** All of them assign values that depend on nothing. */
  ghost predicate Constants(args: seq<Assignment>) {
    forall i :: 0 <= i < |args| ==> args[i].rhs.Expr? && args[i].rhs.deps == Some([])
  }

  lemma {:induction false} SameStart(out: Row, a: seq<Assignment>, b: seq<Assignment>, n: nat, r: Row)
    requires n <= |a| && n <= |b| && forall i :: 0 <= i < n ==> a[i] == b[i]
    ensures AssignFirst(out, a, n, r) == AssignFirst(out, b, n, r)
    decreases n
  {
    if n > 0 {
      SameStart(out, a, b, n - 1, r);
    }
  }

  ghost function AllConstant(args: seq<Assignment>, v: Row): (r: seq<Assignment>)
    ensures |r| == |args| && SameTargets(r, args) && Constants(r)
  {
    seq(|args|, i requires 0 <= i < |args| => Assignment(args[i].lhs, Expr(Some([]), (row: Row) => v)))
  }

  /** Assignments that do not spare a field can leave anything else in it. */
  lemma {:induction false} Overwrites(out: Row, args: seq<Assignment>, n: nat, r: Row, f: Path, g: Option<Row>) returns (alt: seq<Assignment>)
    requires n <= |args| && !Spared(args, n, r, f)
    ensures SameTargets(alt, args) && Constants(alt) && Get(AssignFirst(out, alt, n, r), f) != g
    decreases n
  {
    var a := args[n - 1];
    if Apart(TargetOf(a, r), f) {
      alt := Overwrites(out, args, n - 1, r, f, g);
      AssignGet(AssignFirst(out, alt, n - 1, r), TargetOf(a, r), RhsValue(alt[n - 1].rhs, r), f);
    } else {
      alt := OverwritesLast(out, args, n, r, f, g);
    }
  }

  lemma {:induction false} OverwritesLast(out: Row, args: seq<Assignment>, n: nat, r: Row, f: Path, g: Option<Row>) returns (alt: seq<Assignment>)
    requires 0 < n <= |args| && !Apart(TargetOf(args[n - 1], r), f)
    ensures SameTargets(alt, args) && Constants(alt) && Get(AssignFirst(out, alt, n, r), f) != g
  {
    var a, base := args[n - 1], AllConstant(args, Leaf([]));
    var before := AssignFirst(out, base, n - 1, r);
    var v := SetHits(before, TargetOf(a, r), f, g);
    var last := Assignment(a.lhs, Expr(Some([]), (row: Row) => v));
    alt := base[n - 1 := last];
    SameStart(out, base, alt, n - 1, r);
    LastAssigned(out, alt, n, r, before, v);
  }

  lemma {:induction false} LastAssigned(out: Row, args: seq<Assignment>, n: nat, r: Row, before: Row, v: Row)
    requires 0 < n <= |args| && AssignFirst(out, args, n - 1, r) == before && RhsValue(args[n - 1].rhs, r) == Some(v)
    ensures AssignFirst(out, args, n, r) == Set(before, TargetOf(args[n - 1], r), v)
  {
  }

  /** A put keeps the key of a record, whatever it assigns, exactly if its targets spare the key. */
  lemma {:induction false} PutKeepsKeyIff(puts: seq<Assignment>, key: Path, r: Row)
    requires r.Record?
    ensures (forall alt :: SameTargets(alt, puts) ==> Get(Step(Put(alt), r)[0], key) == Get(r, key)) <==> Spared(puts, |puts|, r, key)
  {
    if Spared(puts, |puts|, r, key) {
      forall alt | SameTargets(alt, puts) ensures Get(Step(Put(alt), r)[0], key) == Get(r, key) {
        assert Spared(alt, |alt|, r, key);
        SparedStays(r, alt, |alt|, r, key);
      }
    } else {
      var alt := Overwrites(r, puts, |puts|, r, key, Get(r, key));
      assert Step(Put(alt), r)[0] == AssignFirst(r, alt, |puts|, r);
    }
  }

  // ---------------------------------------------------------------------------
  // The scoreboard

  function Board(cuts: seq<Assignment>, n: nat, key: Path): Option<set<Path>>
    requires n <= |cuts|
  {
    Scores({key}, cuts[..n])
  }

  lemma {:induction false} BoardStep(cuts: seq<Assignment>, n: nat, key: Path)
    requires n < |cuts|
    ensures Board(cuts, n + 1, key) == if Board(cuts, n, key).None? then None else Score(Board(cuts, n, key).value, cuts[n])
  {
    assert cuts[..n + 1][..n] == cuts[..n];
  }

  /** The scoreboard is known up to any point if it is known in the end. */
  lemma {:induction false} BoardKnown(cuts: seq<Assignment>, i: nat, n: nat, key: Path)
    requires i <= n <= |cuts| && Board(cuts, n, key).Some?
    ensures Board(cuts, i, key).Some?
    ensures forall j :: i <= j < n ==> cuts[j].lhs.Static?
    decreases n
  {
    if i < n {
      BoardStep(cuts, n - 1, key);
      BoardKnown(cuts, i, n - 1, key);
    }
  }

  /** A field stays on the scoreboard until something is assigned to it. */
  lemma {:induction false} StaysOnBoard(cuts: seq<Assignment>, i: nat, n: nat, key: Path, f: Path)
    requires i <= n <= |cuts| && Board(cuts, n, key).Some?
    requires Board(cuts, i, key).Some? && f in Board(cuts, i, key).value
    requires forall j :: i <= j < n ==> !(cuts[j].lhs.Static? && cuts[j].lhs.path == f)
    ensures f in Board(cuts, n, key).value
    decreases n
  {
    if i < n {
      BoardStep(cuts, n - 1, key);
      StaysOnBoard(cuts, i, n - 1, key, f);
    }
  }

  /** A field is on the scoreboard because it is the key, or because it got a field that was. */
  lemma {:induction false} WhyOnBoard(cuts: seq<Assignment>, n: nat, key: Path, f: Path) returns (i: nat)
    requires n <= |cuts| && Board(cuts, n, key).Some? && f in Board(cuts, n, key).value
    ensures i <= n && forall j :: i < j < n ==> !(cuts[j].lhs.Static? && cuts[j].lhs.path == f)
    ensures i == n ==> f == key && forall j :: 0 <= j < n ==> !(cuts[j].lhs.Static? && cuts[j].lhs.path == f)
    ensures i < n ==> cuts[i].lhs.Static? && cuts[i].lhs.path == f && cuts[i].rhs.Field?
                      && Board(cuts, i, key).Some? && cuts[i].rhs.path in Board(cuts, i, key).value
    decreases n
  {
    i := n;
    if n > 0 {
      BoardStep(cuts, n - 1, key);
      if cuts[n - 1].lhs.path == f {
        i := n - 1;
      } else {
        i := WhyOnBoard(cuts, n - 1, key, f);
        if i == n - 1 {
          i := n;
        }
      }
    }
  }

  /**
   The one field left on the scoreboard has the value of the key, or nothing if nothing was
   assigned to it: a field that was read in place of the key would be on the scoreboard still.
   */
  lemma {:induction false} ScoreboardIsRight(cuts: seq<Assignment>, key: Path, f: Path)
    requires TargetsApart(cuts) && Board(cuts, |cuts|, key) == Some({f})
    ensures (f == key && forall j :: 0 <= j < |cuts| ==> cuts[j].lhs.Static? && cuts[j].lhs.path != f)
         || exists i :: 0 <= i < |cuts| && cuts[i].lhs.Static? && cuts[i].lhs.path == f && cuts[i].rhs == Field(key)
  {
    var n := |cuts|;
    BoardKnown(cuts, 0, n, key);
    var i := WhyOnBoard(cuts, n, key, f);
    if i < n {
      var p := cuts[i].rhs.path;
      if p != key {
        var h := WhyOnBoard(cuts, i, key, p);
        forall j | i <= j < n ensures cuts[j].lhs.path != p {
          assert Apart(cuts[h].lhs.path, cuts[j].lhs.path);
        }
        StaysOnBoard(cuts, i, n, key, p);
        assert false;
      }
      assert cuts[i].rhs == Field(key);
    }
  }

  predicate Writes(args: seq<Assignment>, f: Path) {
    exists i :: 0 <= i < |args| && args[i].lhs.Static? && args[i].lhs.path == f
  }

  lemma {:induction false} CutKeepsKey(cuts: seq<Assignment>, key: SortKey, f: Path, r: Row)
    requires AnalyzeCuts(cuts, key).Some? && f == AnalyzeCuts(cuts, key).value.key && Respects(Cut(cuts), key.key, f)
    ensures CutKeeps(cuts, key, f, r)
  {
    var n := |cuts|;
    assert cuts[..n] == cuts;
    BoardKnown(cuts, 0, n, key.key);
    ScoreboardIsRight(cuts, key.key, f);
    assert cuts[0].lhs.Static? && f != [];
    if Writes(cuts, f) {
      var i :| 0 <= i < n && cuts[i].lhs.Static? && cuts[i].lhs.path == f && cuts[i].rhs == Field(key.key);
      AssignedOnce(Record(map[]), cuts, i, n, r, f);
    } else {
      SparedStays(Record(map[]), cuts, n, r, f);
    }
  }

  /** Constants leave the key alone on the scoreboard, unless one is assigned to it. */
  lemma {:induction false} ConstantBoard(cuts: seq<Assignment>, n: nat, key: Path)
    requires n <= |cuts| && Constants(cuts) && forall i :: 0 <= i < |cuts| ==> cuts[i].lhs.Static? && cuts[i].lhs.path != key
    ensures Board(cuts, n, key) == Some({key})
    decreases n
  {
    if n == 0 {
      assert cuts[..0] == [];
    } else {
      var a := cuts[n - 1];
      ConstantBoard(cuts, n - 1, key);
      BoardStep(cuts, n - 1, key);
      assert a.rhs.deps.value == [] && {key} - {a.lhs.path} == {key};
    }
  }

  /** Whatever cuts with these targets assign, the analysis is right about them while it reports the same field. */
  ghost predicate CutsKeep(cuts: seq<Assignment>, key: SortKey, f: Path) {
    forall alt, r :: SameTargets(alt, cuts) && AnalyzeCuts(alt, key) == AnalyzeCuts(cuts, key) ==> CutKeeps(alt, key, f, r)
  }

  /** The field has the value of the key in this row, or nothing if nothing is assigned to it. */
  ghost predicate CutKeeps(cuts: seq<Assignment>, key: SortKey, f: Path, r: Row) {
    Get(Step(Cut(cuts), r)[0], f) == if Writes(cuts, f) then Get(r, key.key) else None
  }

  /** The analysis of a cut that the compiler accepts is right exactly if no target leads into the reported field or around it. */
  lemma {:induction false} CutKeepsKeyIff(cuts: seq<Assignment>, key: SortKey, f: Path)
    requires TargetsApart(cuts) && AnalyzeCuts(cuts, key).Some? && f == AnalyzeCuts(cuts, key).value.key
    ensures CutsKeep(cuts, key, f) <==> CutsApart(cuts, f)
  {
    if CutsApart(cuts, f) {
      forall alt, r | SameTargets(alt, cuts) && AnalyzeCuts(alt, key) == AnalyzeCuts(cuts, key)
        ensures CutKeeps(alt, key, f, r)
      {
        SameTargetsApart(alt, cuts, f);
        CutKeepsKey(alt, key, f, r);
      }
    } else {
      var alt, r := CutMisled(cuts, key, f);
      assert !CutKeeps(alt, key, f, r);
    }
  }

  lemma {:induction false} SameTargetsApart(alt: seq<Assignment>, cuts: seq<Assignment>, f: Path)
    requires SameTargets(alt, cuts)
    ensures TargetsApart(cuts) ==> TargetsApart(alt)
    ensures CutsApart(cuts, f) ==> CutsApart(alt, f)
    ensures Writes(alt, f) <==> Writes(cuts, f)
  {
  }

  /** Constants assigned to the targets: the analysis reports the key still, and the cut leaves something else in it. */
  lemma {:induction false} CutMisled(cuts: seq<Assignment>, key: SortKey, f: Path) returns (alt: seq<Assignment>, r: Row)
    requires TargetsApart(cuts) && AnalyzeCuts(cuts, key).Some? && f == AnalyzeCuts(cuts, key).value.key && !CutsApart(cuts, f)
    ensures SameTargets(alt, cuts) && AnalyzeCuts(alt, key) == AnalyzeCuts(cuts, key)
    ensures !Writes(alt, f) && Get(Step(Cut(alt), r)[0], f) != None
  {
    var n := |cuts|;
    assert cuts[..n] == cuts;
    BoardKnown(cuts, 0, n, key.key);
    ScoreboardIsRight(cuts, key.key, f);
    NestedNotWritten(cuts, f);
    assert f == key.key;
    r := Record(map[]);
    NotSpared(cuts, r, f);
    alt := Overwrites(r, cuts, n, r, f, None);
    SameTargetsApart(alt, cuts, f);
    ConstantBoard(alt, n, key.key);
    assert alt[..n] == alt;
    OnlyKey(alt, key);
  }

  lemma {:induction false} NotSpared(cuts: seq<Assignment>, r: Row, f: Path)
    requires !CutsApart(cuts, f)
    ensures !Spared(cuts, |cuts|, r, f)
  {
    var i :| 0 <= i < |cuts| && cuts[i].lhs.Static? && !SameOrApart(cuts[i].lhs.path, f);
    assert TargetOf(cuts[i], r) == cuts[i].lhs.path;
  }

  lemma {:induction false} OnlyKey(cuts: seq<Assignment>, key: SortKey)
    requires Scores({key.key}, cuts) == Some({key.key})
    ensures AnalyzeCuts(cuts, key) == Some(key)
  {
    assert AnalyzeCuts(cuts, key).Some?;
    assert AnalyzeCuts(cuts, key).value.key in {key.key};
  }

  /** A field with a target inside or around it is not a target itself. */
  lemma {:induction false} NestedNotWritten(cuts: seq<Assignment>, f: Path)
    requires TargetsApart(cuts) && !CutsApart(cuts, f)
    ensures !Writes(cuts, f)
  {
    var i :| 0 <= i < |cuts| && cuts[i].lhs.Static? && !SameOrApart(cuts[i].lhs.path, f);
    forall j | 0 <= j < |cuts| && cuts[j].lhs.Static? ensures cuts[j].lhs.path != f {
      if i < j {
        assert Apart(cuts[i].lhs.path, cuts[j].lhs.path);
      } else if j < i {
        assert Apart(cuts[j].lhs.path, cuts[i].lhs.path);
      }
    }
  }

  // ---------------------------------------------------------------------------
  // Renamings

  function Reported(renamings: seq<Renaming>, n: nat, key: SortKey): Path
    requires n <= |renamings|
  {
    AnalyzeRenamings(renamings[..n], key).key
  }

  lemma {:induction false} ReportedStep(renamings: seq<Renaming>, n: nat, key: SortKey)
    requires n < |renamings|
    ensures Reported(renamings, n + 1, key) == if renamings[n].from == key.key then renamings[n].to else Reported(renamings, n, key)
  {
    assert renamings[..n + 1][..n] == renamings[..n];
  }

  predicate Moved(renamings: seq<Renaming>, n: nat, key: Path)
    requires n <= |renamings|
  {
    n > 0 && (renamings[n - 1].from == key || Moved(renamings, n - 1, key))
  }

  /** Whether the renamings leave no row with the key in the reported field: it was moved on, or was gone before. */
  predicate Blank(renamings: seq<Renaming>, n: nat, key: SortKey)
    requires n <= |renamings|
  {
    n > 0 &&
    var a := renamings[n - 1];
    if a.from == key.key then Moved(renamings, n - 1, key.key)
    else Blank(renamings, n - 1, key) || (a.from == Reported(renamings, n - 1, key) && a.to != a.from)
  }

  predicate Fails(renamings: seq<Renaming>, n: nat, r: Row)
    requires n <= |renamings|
  {
    n > 0 && (Fails(renamings, n - 1, r) || Collides(renamings[n - 1], RenameFirst(renamings, n - 1, r)))
  }

  /** Whether the reported field has a value that is not the key's: it was there before the key, or came from elsewhere. */
  predicate Stale(renamings: seq<Renaming>, n: nat, key: SortKey, r: Row)
    requires n <= |renamings|
  {
    n > 0 &&
    var a, before := renamings[n - 1], RenameFirst(renamings, n - 1, r);
    if a.from == key.key then Get(before, a.to).Some?
    else if a.from == a.to then Stale(renamings, n - 1, key, r)
    else if a.from == Reported(renamings, n - 1, key) then false
    else Stale(renamings, n - 1, key, r) || (a.to == Reported(renamings, n - 1, key) && Get(before, a.from).Some?)
  }

  /** The exact condition on a row for the analysis of renamings to be right. */
  predicate RenamesKeep(renamings: seq<Renaming>, n: nat, key: SortKey, r: Row)
    requires n <= |renamings|
  {
    if Fails(renamings, n, r) then Blank(renamings, n, key) || Get(r, key.key).None? else !Stale(renamings, n, key, r)
  }

  function Expected(renamings: seq<Renaming>, n: nat, key: SortKey, r: Row): Option<Row>
    requires n <= |renamings|
  {
    if Blank(renamings, n, key) then None else Get(r, key.key)
  }

  /** The reported field is touched as a whole or not at all. */
  lemma {:induction false} ReportedApart(renamings: seq<Renaming>, n: nat, key: SortKey, a: Renaming)
    requires n <= |renamings| && RenamesApart(renamings, key.key) && a in renamings
    ensures var f := Reported(renamings, n, key);
            f != [] && SameOrApart(a.from, f) && SameOrApart(a.to, f) && SameOrApart(a.from, a.to)
    decreases n
  {
    var i :| 0 <= i < |renamings| && renamings[i] == a;
    NonEmpty(a, key.key);
    if n > 0 {
      ReportedStep(renamings, n - 1, key);
      ReportedApart(renamings, n - 1, key, a);
      NonEmpty(renamings[n - 1], key.key);
    }
  }

  lemma {:induction false} FailedStays(renamings: seq<Renaming>, n: nat, r: Row)
    requires n <= |renamings| && Fails(renamings, n, r) && forall i :: 0 <= i < |renamings| ==> renamings[i].from != []
    ensures RenameFirst(renamings, n, r) == FAILED
    decreases n
  {
    if Fails(renamings, n - 1, r) {
      FailedStays(renamings, n - 1, r);
    }
  }

  /** What one renaming does to a field that it touches as a whole or not at all. */
  lemma {:induction false} RenameOne(a: Renaming, r: Row, f: Path)
    requires !Collides(a, r) && a.from != [] && a.to != []
    requires SameOrApart(a.from, a.to) && SameOrApart(a.from, f) && SameOrApart(a.to, f)
    ensures var v := Get(r, a.from);
            Get(RenameRow(a, r), f) == if a.to == a.from || v.None? then Get(r, f) else if f == a.to then v else if f == a.from then None else Get(r, f)
  {
    var v := Get(r, a.from);
    if v.Some? {
      RemoveGet(r, a.from, f);
      SetGet(Remove(r, a.from), a.to, v.value, f);
    }
  }

  lemma {:induction false} KeyField(renamings: seq<Renaming>, n: nat, key: Path, r: Row)
    requires n <= |renamings| && RenamesApart(renamings, key) && !Fails(renamings, n, r)
    ensures Get(RenameFirst(renamings, n, r), key) == if Moved(renamings, n, key) then None else Get(r, key)
    decreases n
  {
    if n > 0 {
      var a := renamings[n - 1];
      KeyField(renamings, n - 1, key, r);
      NonEmpty(a, key);
      RenameOne(a, RenameFirst(renamings, n - 1, r), key);
    }
  }

  lemma {:induction false} NonEmpty(a: Renaming, key: Path)
    requires Apart(a.to, key) && SameOrApart(a.from, key)
    ensures key != [] && a.to != [] && a.from != []
  {
  }

  /** Either the field has a value and should be empty, or it has the value it should have. */
  predicate StaleOr(stale: bool, v: Option<Row>, expected: Option<Row>) {
    if stale then v.Some? && expected.None? else v == expected
  }

  /** Without a failure, the reported field is the key's exactly if it is not stale. */
  lemma {:induction false} StaleOrKey(renamings: seq<Renaming>, n: nat, key: SortKey, r: Row)
    requires n <= |renamings| && RenamesApart(renamings, key.key) && !Fails(renamings, n, r)
    ensures StaleOr(Stale(renamings, n, key, r), Get(RenameFirst(renamings, n, r), Reported(renamings, n, key)), Expected(renamings, n, key, r))
    decreases n
  {
    if n > 0 {
      StaleOrKey(renamings, n - 1, key, r);
      if renamings[n - 1].from == key.key {
        KeyRenamed(renamings, n - 1, key, r);
      } else {
        OtherRenamed(renamings, n - 1, key, r);
      }
    }
  }

  lemma {:induction false} KeyRenamed(renamings: seq<Renaming>, n: nat, key: SortKey, r: Row)
    requires n < |renamings| && RenamesApart(renamings, key.key) && !Fails(renamings, n + 1, r) && renamings[n].from == key.key
    ensures StaleOr(Stale(renamings, n + 1, key, r), Get(RenameFirst(renamings, n + 1, r), Reported(renamings, n + 1, key)),
                    Expected(renamings, n + 1, key, r))
  {
    var a := renamings[n];
    ReportedStep(renamings, n, key);
    KeyField(renamings, n, key.key, r);
    NonEmpty(a, key.key);
    RenameOne(a, RenameFirst(renamings, n, r), a.to);
  }

  lemma {:induction false} OtherRenamed(renamings: seq<Renaming>, n: nat, key: SortKey, r: Row)
    requires n < |renamings| && RenamesApart(renamings, key.key) && !Fails(renamings, n + 1, r) && renamings[n].from != key.key
    requires StaleOr(Stale(renamings, n, key, r), Get(RenameFirst(renamings, n, r), Reported(renamings, n, key)), Expected(renamings, n, key, r))
    ensures StaleOr(Stale(renamings, n + 1, key, r), Get(RenameFirst(renamings, n + 1, r), Reported(renamings, n + 1, key)),
                    Expected(renamings, n + 1, key, r))
  {
    var a := renamings[n];
    ReportedStep(renamings, n, key);
    ReportedApart(renamings, n, key, a);
    NonEmpty(a, key.key);
    RenameOne(a, RenameFirst(renamings, n, r), Reported(renamings, n, key));
  }

  /** The reported field of a row is the key's, or empty where the key was moved on, exactly if the renamings keep it. */
  lemma {:induction false} RenamedKeyIff(renamings: seq<Renaming>, key: SortKey, r: Row)
    requires RenamesApart(renamings, key.key)
    ensures Get(RenameFirst(renamings, |renamings|, r), AnalyzeRenamings(renamings, key).key) == Expected(renamings, |renamings|, key, r)
       <==> RenamesKeep(renamings, |renamings|, key, r)
  {
    var n := |renamings|;
    assert renamings[..n] == renamings;
    if Fails(renamings, n, r) {
      ReportedApart(renamings, n, key, renamings[0]);
      forall i | 0 <= i < n ensures renamings[i].from != [] && renamings[i].to != [] {
        NonEmpty(renamings[i], key.key);
      }
      FailedStays(renamings, n, r);
    } else {
      StaleOrKey(renamings, n, key, r);
    }
  }

  // ---------------------------------------------------------------------------
  // Every stateless operator

  /** The key or a record around it is dropped. */
  predicate Covered(drops: seq<Option<Path>>, key: Path) {
    exists i :: 0 <= i < |drops| && drops[i].Some? && drops[i].value != [] && drops[i].value <= key
  }

  /** The first `n` drops take nothing out of the key. */
  predicate DropsSpare(drops: seq<Option<Path>>, n: nat, key: Path, r: Row)
    requires n <= |drops|
  {
    forall i :: 0 <= i < n && drops[i].Some? && key < drops[i].value ==> Get(r, drops[i].value).None?
  }

  predicate DropsKeep(drops: seq<Option<Path>>, key: Path, r: Row) {
    Covered(drops, key) || DropsSpare(drops, |drops|, key, r)
  }

  lemma {:induction false} DropAddsNothing(drops: seq<Option<Path>>, i: nat, n: nat, r: Row, q: Path)
    requires i <= n <= |drops| && Get(DropFirst(drops, i, r), q).None?
    ensures Get(DropFirst(drops, n, r), q).None?
    decreases n
  {
    if i < n {
      DropAddsNothing(drops, i, n - 1, r, q);
      if drops[n - 1].Some? {
        RemoveAddsNothing(DropFirst(drops, n - 1, r), drops[n - 1].value, q);
      }
    }
  }

  /** What was dropped is gone in the end. */
  lemma {:induction false} DroppedIsGone(drops: seq<Option<Path>>, i: nat, r: Row)
    requires i < |drops| && drops[i].Some? && drops[i].value != []
    ensures Get(DropFirst(drops, |drops|, r), drops[i].value).None?
  {
    RemoveGet(DropFirst(drops, i, r), drops[i].value, drops[i].value);
    DropAddsNothing(drops, i + 1, |drops|, r, drops[i].value);
  }

  lemma {:induction false} DropSpares(drops: seq<Option<Path>>, n: nat, r: Row, key: Path)
    requires n <= |drops| && !Covered(drops, key) && DropsSpare(drops, n, key, r)
    ensures Get(DropFirst(drops, n, r), key) == Get(r, key)
    decreases n
  {
    if n > 0 {
      DropSpares(drops, n - 1, r, key);
      if drops[n - 1].Some? {
        var p, before := drops[n - 1].value, DropFirst(drops, n - 1, r);
        if Apart(p, key) {
          RemoveGet(before, p, key);
        } else if p != [] {
          assert p != key && key < p;
          DropAddsNothing(drops, 0, n - 1, r, p);
          RemoveMissing(before, p);
        }
      }
    }
  }

  /** A drop keeps the key of a row, or takes it from every row, exactly if it takes nothing out of the key. */
  lemma {:induction false} DropKeepsKeyIff(drops: seq<Option<Path>>, key: Path, r: Row)
    ensures Get(DropFirst(drops, |drops|, r), key) == (if Covered(drops, key) then None else Get(r, key)) <==> DropsKeep(drops, key, r)
  {
    var left := DropFirst(drops, |drops|, r);
    if Covered(drops, key) {
      var i :| 0 <= i < |drops| && drops[i].Some? && drops[i].value != [] && drops[i].value <= key;
      DroppedIsGone(drops, i, r);
      GetInside(left, drops[i].value, key);
    } else if DropsSpare(drops, |drops|, key, r) {
      DropSpares(drops, |drops|, r, key);
    } else {
      var i :| 0 <= i < |drops| && drops[i].Some? && key < drops[i].value && Get(r, drops[i].value).Some?;
      DroppedIsGone(drops, i, r);
      GetInside(left, key, drops[i].value);
      GetInside(r, key, drops[i].value);
    }
  }

  /** Whether the operator leaves no row with the field that the analysis reports. */
  predicate Empties(op: Op, key: SortKey, out: Path) {
    match op
    case Cut(cuts) => !Writes(cuts, out)
    case Drop(drops) => Covered(drops, out)
    case Rename(renamings) => Blank(renamings, |renamings|, key)
    case _ => false
  }

  /** The reported field has the value of the key in every row, or is empty in every row. */
  lemma {:induction false} StepKeepsKey(op: Op, key: SortKey, next: SortKey, r: Row)
    requires Stateless(op) && AnalyzeSortKeys(op, Some(key)) == Some(Some(next))
    requires Respects(op, key.key, next.key) && Admits(op, key, r)
    ensures next.desc == key.desc
    ensures Step(op, r) != [] ==> Get(Step(op, r)[0], next.key) == if Empties(op, key, next.key) then None else Get(r, key.key)
  {
    match op
    case Cut(cuts) => CutKeepsKey(cuts, key, next.key, r);
    case Put(puts) =>
      if r.Record? {
        SparedStays(r, puts, |puts|, r, key.key);
      }
    case Drop(drops) => DropKeepsKeyIff(drops, key.key, r);
    case Rename(renamings) =>
      RenamedKeyIff(renamings, key, r);
      RenamingsKeepOrder(renamings, key);
    case _ =>
  }

  lemma {:induction false} RenamingsKeepOrder(renamings: seq<Renaming>, key: SortKey)
    ensures AnalyzeRenamings(renamings, key).desc == key.desc
    decreases |renamings|
  {
    if renamings != [] {
      RenamingsKeepOrder(renamings[..|renamings| - 1], key);
    }
  }
}
