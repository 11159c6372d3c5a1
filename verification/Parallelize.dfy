/** A scan split into parallel paths whose outputs are merged gives the output of the sequential scan, in order. */
module Parallelizing {
  import opened Wrappers
  import opened SortKeys
  import opened OperatorOrder

  /** How the runtime compares key values, missing ones included. */
  type Cmp = (Option<Row>, Option<Row>) -> int

  ghost predicate TotalPreorder(cmp: Cmp) {
    && (forall a, b :: cmp(a, b) <= 0 || cmp(b, a) <= 0)
    && (forall a, b, c :: cmp(a, b) <= 0 && cmp(b, c) <= 0 ==> cmp(a, c) <= 0)
  }

  /** A row may come before another in the order of a sort key. */
  predicate Before(cmp: Cmp, key: SortKey, r: Row, s: Row) {
    if key.desc then cmp(Get(s, key.key), Get(r, key.key)) <= 0 else cmp(Get(r, key.key), Get(s, key.key)) <= 0
  }

  predicate SortedBy(cmp: Cmp, key: SortKey, rows: seq<Row>) {
    forall i, j :: 0 <= i < j < |rows| ==> Before(cmp, key, rows[i], rows[j])
  }

  // ---------------------------------------------------------------------------
  // Running a path

  predicate AllStateless(ops: seq<Op>) {
    forall i :: 0 <= i < |ops| ==> Stateless(ops[i])
  }

  /** What a path makes of one row. */
  function RunRow(ops: seq<Op>, k: nat, r: Row): (out: seq<Row>)
    requires k <= |ops| && AllStateless(ops)
    ensures |out| <= 1
    decreases |ops| - k
  {
    if k == |ops| then [r]
    else if Step(ops[k], r) == [] then []
    else RunRow(ops, k + 1, Step(ops[k], r)[0])
  }

  /** What is made of one row after another. */
  type Maker = Row -> seq<Row>

  function Each(f: Maker, rows: seq<Row>, n: nat): seq<Row>
    requires n <= |rows|
  {
    if n == 0 then [] else Each(f, rows, n - 1) + f(rows[n - 1])
  }

  function All(f: Maker, rows: seq<Row>): seq<Row> {
    Each(f, rows, |rows|)
  }

  function OfPath(ops: seq<Op>): Maker
    requires AllStateless(ops)
  {
    (r: Row) => RunRow(ops, 0, r)
  }

  /** What a path makes of the rows. */
  function Run(ops: seq<Op>, rows: seq<Row>): seq<Row>
    requires AllStateless(ops)
  {
    All(OfPath(ops), rows)
  }

  /** Every operator respects the key it gets and admits the rows it gets. */
  predicate PathRespects(ops: seq<Op>, k: nat, key: SortKey)
    requires k <= |ops|
    decreases |ops| - k
  {
    k < |ops| ==>
      match AnalyzeSortKeys(ops[k], Some(key))
      case Some(Some(next)) => Respects(ops[k], key.key, next.key) && PathRespects(ops, k + 1, next)
      case _ => false
  }

  predicate PathAdmits(ops: seq<Op>, k: nat, key: SortKey, r: Row)
    requires k <= |ops| && AllStateless(ops)
    decreases |ops| - k
  {
    k < |ops| ==>
      match AnalyzeSortKeys(ops[k], Some(key))
      case Some(Some(next)) => Admits(ops[k], key, r) && (Step(ops[k], r) != [] ==> PathAdmits(ops, k + 1, next, Step(ops[k], r)[0]))
      case _ => false
  }

  /** Rows in order come out of a path in the order of the path's last key. */
  lemma {:induction false} RunRowKeepsOrder(cmp: Cmp, ops: seq<Op>, k: nat, key: SortKey, r: Row, s: Row)
    requires TotalPreorder(cmp) && k <= |ops| && AllStateless(ops) && PathRespects(ops, k, key)
    requires PathAdmits(ops, k, key, r) && PathAdmits(ops, k, key, s) && Before(cmp, key, r, s)
    ensures KeysAfter(ops, k, |ops|, Some(key)).Some?
    ensures RunRow(ops, k, r) != [] && RunRow(ops, k, s) != [] ==>
      Before(cmp, KeysAfter(ops, k, |ops|, Some(key)).value, RunRow(ops, k, r)[0], RunRow(ops, k, s)[0])
    decreases |ops| - k
  {
    if k < |ops| {
      var next := AnalyzeSortKeys(ops[k], Some(key)).value.value;
      StepKeepsKey(ops[k], key, next, r);
      StepKeepsKey(ops[k], key, next, s);
      if Step(ops[k], r) != [] && Step(ops[k], s) != [] {
        assert cmp(None, None) <= 0;
        RunRowKeepsOrder(cmp, ops, k + 1, next, Step(ops[k], r)[0], Step(ops[k], s)[0]);
      } else {
        KeysKnown(ops, k + 1, next);
      }
    }
  }

  lemma {:induction false} KeysKnown(ops: seq<Op>, k: nat, key: SortKey)
    requires k <= |ops| && PathRespects(ops, k, key)
    ensures KeysAfter(ops, k, |ops|, Some(key)).Some?
    decreases |ops| - k
  {
    if k < |ops| {
      KeysKnown(ops, k + 1, AnalyzeSortKeys(ops[k], Some(key)).value.value);
    }
  }

  /** Every output row comes from an input row. */
  lemma {:induction false} RunSource(ops: seq<Op>, rows: seq<Row>, n: nat, o: nat) returns (i: nat)
    requires n <= |rows| && AllStateless(ops) && o < |Each(OfPath(ops), rows, n)|
    ensures i < n && RunRow(ops, 0, rows[i]) == [Each(OfPath(ops), rows, n)[o]]
    decreases n
  {
    if o < |Each(OfPath(ops), rows, n - 1)| {
      i := RunSource(ops, rows, n - 1, o);
    } else {
      i := n - 1;
    }
  }

  lemma {:induction false} AppendSorted(cmp: Cmp, key: SortKey, rows: seq<Row>, added: seq<Row>)
    requires SortedBy(cmp, key, rows) && |added| <= 1
    requires forall o :: 0 <= o < |rows| && added != [] ==> Before(cmp, key, rows[o], added[0])
    ensures SortedBy(cmp, key, rows + added)
  {
  }

  /** A path keeps a sorted input sorted. */
  lemma {:induction false} RunKeepsOrder(cmp: Cmp, ops: seq<Op>, key: SortKey, rows: seq<Row>, n: nat)
    requires TotalPreorder(cmp) && AllStateless(ops) && PathRespects(ops, 0, key) && n <= |rows|
    requires SortedBy(cmp, key, rows) && forall i :: 0 <= i < |rows| ==> PathAdmits(ops, 0, key, rows[i])
    ensures KeysAfter(ops, 0, |ops|, Some(key)).Some?
    ensures SortedBy(cmp, KeysAfter(ops, 0, |ops|, Some(key)).value, Each(OfPath(ops), rows, n))
    decreases n
  {
    KeysKnown(ops, 0, key);
    if n > 0 {
      var last := KeysAfter(ops, 0, |ops|, Some(key)).value;
      RunKeepsOrder(cmp, ops, key, rows, n - 1);
      var before, added := Each(OfPath(ops), rows, n - 1), RunRow(ops, 0, rows[n - 1]);
      forall o | 0 <= o < |before| && added != [] ensures Before(cmp, last, before[o], added[0]) {
        var i := RunSource(ops, rows, n - 1, o);
        assert Before(cmp, key, rows[i], rows[n - 1]);
        RunRowKeepsOrder(cmp, ops, 0, key, rows[i], rows[n - 1]);
      }
      AppendSorted(cmp, last, before, added);
    }
  }

  // ---------------------------------------------------------------------------
  // Rows that an operator does not admit

  lemma {:induction false} OneOperator(op: Op, r: Row)
    requires Stateless(op)
    ensures RunRow([op], 0, r) == Step(op, r)
  {
    if Step(op, r) != [] {
      assert RunRow([op], 1, Step(op, r)[0]) == [Step(op, r)[0]];
    }
  }

  /** Two rows through one operator, the first of which must not come before the second afterwards. */
  lemma {:induction false} TwoRows(cmp: Cmp, op: Op, key: SortKey, r: Row, s: Row, v: Option<Row>, w: Option<Row>)
    requires Stateless(op) && |Step(op, r)| == |Step(op, s)| == 1 && !key.desc
    requires Get(Step(op, r)[0], key.key) == v && Get(Step(op, s)[0], key.key) == w && cmp(v, w) > 0
    ensures !SortedBy(cmp, key, Run([op], [r, s]))
  {
    var ops, rows := [op], [r, s];
    OneOperator(op, r);
    OneOperator(op, s);
    assert Each(OfPath(ops), rows, 1) == Each(OfPath(ops), rows, 0) + Step(op, r);
    assert Run(ops, rows) == Each(OfPath(ops), rows, 1) + Step(op, s);
    assert !Before(cmp, key, Run(ops, rows)[0], Run(ops, rows)[1]);
  }

  lemma {:induction false} GetField(r: Row, k: string)
    requires r.Record?
    ensures Get(r, [k]) == if k in r.fields then Some(r.fields[k]) else None
  {
    assert [k][1..] == [];
  }

  lemma {:induction false} RenameField(k: string, x: string, r: Row)
    requires k != x && r.Record?
    ensures var out := Step(Rename([Renaming([x], [k])]), r);
            |out| == 1 && Get(out[0], [x]) ==
              if (k in r.fields) == (x in r.fields) then None else if k in r.fields then Some(r.fields[k]) else Some(r.fields[x])
    ensures AnalyzeRenamings([Renaming([x], [k])], SortKey([k], false)) == SortKey([x], false)
  {
    var renamings := [Renaming([x], [k])];
    assert RenameFirst(renamings, 0, r) == r;
    GetField(r, k);
    GetField(r, x);
    if k in r.fields && x !in r.fields {
      RenameOne(renamings[0], r, [x]);
    }
  }

  /** A row that already has the field that the key is renamed to becomes an error, and the order is lost. */
  lemma {:induction false} RenameOntoFieldLosesOrder(cmp: Cmp, k: string, x: string, a: Row, b: Row, c: Row)
    requires k != x && cmp(Some(a), Some(c)) <= 0 < cmp(None, Some(c))
    ensures var op, key := Rename([Renaming([x], [k])]), SortKey([k], false);
            var rows := [Record(map[k := a, x := b]), Record(map[k := c])];
            && AnalyzeSortKeys(op, Some(key)) == Some(Some(SortKey([x], false)))
            && Respects(op, [k], [x])
            && SortedBy(cmp, key, rows)
            && !SortedBy(cmp, SortKey([x], false), Run([op], rows))
  {
    var r, s := Record(map[k := a, x := b]), Record(map[k := c]);
    RenameField(k, x, r);
    RenameField(k, x, s);
    GetField(r, k);
    GetField(s, k);
    TwoRows(cmp, Rename([Renaming([x], [k])]), SortKey([x], false), r, s, None, Some(c));
  }

  /** So is it by a row that has the field and no key. */
  lemma {:induction false} RenameWithoutKeyLosesOrder(cmp: Cmp, k: string, x: string, b: Row, c: Row)
    requires k != x && cmp(None, Some(c)) <= 0 < cmp(Some(b), Some(c))
    ensures var op, key := Rename([Renaming([x], [k])]), SortKey([k], false);
            var rows := [Record(map[x := b]), Record(map[k := c])];
            && AnalyzeSortKeys(op, Some(key)) == Some(Some(SortKey([x], false)))
            && Respects(op, [k], [x])
            && SortedBy(cmp, key, rows)
            && !SortedBy(cmp, SortKey([x], false), Run([op], rows))
  {
    var r, s := Record(map[x := b]), Record(map[k := c]);
    RenameField(k, x, r);
    RenameField(k, x, s);
    GetField(r, k);
    GetField(s, k);
    TwoRows(cmp, Rename([Renaming([x], [k])]), SortKey([x], false), r, s, Some(b), Some(c));
  }

  /** A put to a computed path may hit the key, which the analysis does not see. */
  lemma {:induction false} ComputedPutLosesOrder(cmp: Cmp, k: string, a: Row, b: Row, eval: Row -> Path, flip: Row -> Row)
    requires cmp(Some(a), Some(b)) <= 0 < cmp(Some(b), Some(a))
    requires (forall r :: eval(r) == [k]) && flip(Record(map[k := a])) == b && flip(Record(map[k := b])) == a
    ensures var op, key := Put([Assignment(Computed(eval), Expr(None, flip))]), SortKey([k], false);
            var rows := [Record(map[k := a]), Record(map[k := b])];
            && AnalyzeSortKeys(op, Some(key)) == Some(Some(key))
            && Respects(op, [k], [k])
            && SortedBy(cmp, key, rows)
            && !SortedBy(cmp, key, Run([op], rows))
  {
    var puts := [Assignment(Computed(eval), Expr(None, flip))];
    var r, s := Record(map[k := a]), Record(map[k := b]);
    AssignedOnce(r, puts, 0, 1, r, [k]);
    AssignedOnce(s, puts, 0, 1, s, [k]);
    GetField(r, k);
    GetField(s, k);
    TwoRows(cmp, Put(puts), SortKey([k], false), r, s, Some(b), Some(a));
  }

  /** An assignment inside the key changes it, which the analysis does not see either. */
  lemma {:induction false} NestedPutLosesOrder(cmp: Cmp, k: string, x: string, a: Row, b: Row, flip: Row -> Row)
    requires cmp(Some(Record(map[x := a])), Some(Record(map[x := b]))) <= 0 < cmp(Some(Record(map[x := b])), Some(Record(map[x := a])))
    requires flip(Record(map[k := Record(map[x := a])])) == b && flip(Record(map[k := Record(map[x := b])])) == a
    ensures var op, key := Put([Assignment(Static([k, x]), Expr(None, flip))]), SortKey([k], false);
            var rows := [Record(map[k := Record(map[x := a])]), Record(map[k := Record(map[x := b])])];
            && AnalyzeSortKeys(op, Some(key)) == Some(Some(key))
            && SortedBy(cmp, key, rows)
            && !SortedBy(cmp, key, Run([op], rows))
  {
    var puts := [Assignment(Static([k, x]), Expr(None, flip))];
    NestedPut(k, x, a, b, puts[0]);
    NestedPut(k, x, b, a, puts[0]);
    var r, s := Record(map[k := Record(map[x := a])]), Record(map[k := Record(map[x := b])]);
    TwoRows(cmp, Put(puts), SortKey([k], false), r, s, Some(Record(map[x := b])), Some(Record(map[x := a])));
  }

  /** So does dropping a field from inside of the key. */
  lemma {:induction false} NestedDropLosesOrder(cmp: Cmp, k: string, x: string, a: map<string, Row>, b: map<string, Row>)
    requires x in a && x in b && a.Keys != {x} && b.Keys != {x}
    requires cmp(Some(Record(a)), Some(Record(b))) <= 0 < cmp(Some(Record(a - {x})), Some(Record(b - {x})))
    ensures var op, key := Drop([Some([k, x])]), SortKey([k], false);
            var rows := [Record(map[k := Record(a)]), Record(map[k := Record(b)])];
            && AnalyzeSortKeys(op, Some(key)) == Some(Some(key))
            && SortedBy(cmp, key, rows)
            && !SortedBy(cmp, key, Run([op], rows))
  {
    NestedDrop(k, x, a);
    NestedDrop(k, x, b);
    var r, s := Record(map[k := Record(a)]), Record(map[k := Record(b)]);
    TwoRows(cmp, Drop([Some([k, x])]), SortKey([k], false), r, s, Some(Record(a - {x})), Some(Record(b - {x})));
  }

  lemma {:induction false} NestedDrop(k: string, x: string, a: map<string, Row>)
    requires x in a && a.Keys != {x}
    ensures var r := Record(map[k := Record(a)]);
            Get(r, [k]) == Some(Record(a)) && Step(Drop([Some([k, x])]), r) == [Record(map[k := Record(a - {x})])]
    ensures Get(Record(map[k := Record(a - {x})]), [k]) == Some(Record(a - {x}))
  {
    var r, drops := Record(map[k := Record(a)]), [Some([k, x])];
    GetField(r, k);
    GetField(Record(map[k := Record(a - {x})]), k);
    var y :| y in a.Keys && y != x;
    assert y in (a - {x}).Keys;
    assert [k, x][1..] == [x];
    assert Remove(Record(a), [x]) == Record(a - {x});
    assert Remove(r, [k, x]) == Record(map[k := Record(a - {x})]);
    assert DropFirst(drops, 0, r) == r;
    assert DropFirst(drops, 1, r) == Remove(r, [k, x]);
  }

  lemma {:induction false} NestedPut(k: string, x: string, a: Row, b: Row, put: Assignment)
    requires put.lhs == Static([k, x]) && put.rhs.Expr? && put.rhs.value(Record(map[k := Record(map[x := a])])) == b
    ensures var r := Record(map[k := Record(map[x := a])]);
            Get(r, [k]) == Some(Record(map[x := a])) && Step(Put([put]), r) == [Record(map[k := Record(map[x := b])])]
  {
    var inner := Record(map[x := a]);
    var r := Record(map[k := inner]);
    assert [k, x][1..] == [x] && [x][1..] == [] && [k][1..] == [];
    assert Get(r, [k]) == Get(inner, []);
    assert Set(inner, [x], b) == Record(map[x := b]);
    assert Set(r, [k, x], b) == Record(map[k := Record(map[x := b])]);
    assert AssignFirst(r, [put], 0, r) == r;
  }

  // ---------------------------------------------------------------------------
  // Splitting the input

  /** The rows before `p` that go to path `j`. */
  function PartFirst(rows: seq<Row>, which: seq<nat>, p: nat, j: nat): seq<Row>
    requires p <= |rows| == |which|
  {
    if p == 0 then [] else PartFirst(rows, which, p - 1, j) + if which[p - 1] == j then [rows[p - 1]] else []
  }

  lemma {:induction false} PartSource(rows: seq<Row>, which: seq<nat>, p: nat, j: nat, o: nat) returns (i: nat)
    requires p <= |rows| == |which| && o < |PartFirst(rows, which, p, j)|
    ensures i < p && rows[i] == PartFirst(rows, which, p, j)[o]
    decreases p
  {
    if o < |PartFirst(rows, which, p - 1, j)| {
      i := PartSource(rows, which, p - 1, j, o);
    } else {
      i := p - 1;
    }
  }

  lemma {:induction false} PartSorted(cmp: Cmp, key: SortKey, rows: seq<Row>, which: seq<nat>, p: nat, j: nat)
    requires p <= |rows| == |which| && SortedBy(cmp, key, rows)
    ensures SortedBy(cmp, key, PartFirst(rows, which, p, j))
    decreases p
  {
    if p > 0 {
      PartSorted(cmp, key, rows, which, p - 1, j);
      var before := PartFirst(rows, which, p - 1, j);
      forall o | 0 <= o < |before| ensures Before(cmp, key, before[o], rows[p - 1]) {
        var i := PartSource(rows, which, p - 1, j, o);
        assert Before(cmp, key, rows[i], rows[p - 1]);
      }
    }
  }

  /** The outputs of `m` paths after the first `p` rows were dealt out. */
  function Outputs(f: Maker, rows: seq<Row>, which: seq<nat>, p: nat, m: nat): (r: seq<seq<Row>>)
    requires p <= |rows| == |which|
    ensures |r| == m
  {
    seq(m, j requires 0 <= j < m => All(f, PartFirst(rows, which, p, j)))
  }

  lemma {:induction false} EachAgrees(f: Maker, a: seq<Row>, b: seq<Row>, n: nat)
    requires n <= |a| && n <= |b| && forall i :: 0 <= i < n ==> a[i] == b[i]
    ensures Each(f, a, n) == Each(f, b, n)
    decreases n
  {
    if n > 0 {
      EachAgrees(f, a, b, n - 1);
    }
  }

  lemma {:induction false} AllSnoc(f: Maker, rows: seq<Row>, r: Row)
    ensures All(f, rows + [r]) == All(f, rows) + f(r)
  {
    EachAgrees(f, rows + [r], rows, |rows|);
  }

  /** How often a row occurs in the first `m` paths. */
  function Occurs(paths: seq<seq<Row>>, m: nat, r: Row): nat
    requires m <= |paths|
  {
    if m == 0 then 0 else Occurs(paths, m - 1, r) + multiset(paths[m - 1])[r]
  }

  lemma {:induction false} OccursMore(paths: seq<seq<Row>>, m: nat, j: nat, path: seq<Row>, r: Row, extra: int)
    requires m <= |paths| && j < |paths| && multiset(path)[r] == multiset(paths[j])[r] + extra
    ensures Occurs(paths[j := path], m, r) == Occurs(paths, m, r) + if j < m then extra else 0
    decreases m
  {
    if m > 0 {
      OccursMore(paths, m - 1, j, path, r, extra);
    }
  }

  lemma {:induction false} DealtOut(f: Maker, rows: seq<Row>, which: seq<nat>, p: nat, m: nat)
    requires p < |rows| == |which| && which[p] < m
    ensures var j, before := which[p], Outputs(f, rows, which, p, m);
            Outputs(f, rows, which, p + 1, m) == before[j := before[j] + f(rows[p])]
  {
    var j, before := which[p], Outputs(f, rows, which, p, m);
    var after := Outputs(f, rows, which, p + 1, m);
    AllSnoc(f, PartFirst(rows, which, p, j), rows[p]);
    forall i | 0 <= i < m ensures after[i] == before[j := before[j] + f(rows[p])][i] {
      if i != j {
        assert PartFirst(rows, which, p + 1, i) == PartFirst(rows, which, p, i);
      }
    }
  }

  lemma {:induction false} NoneOccurs(paths: seq<seq<Row>>, m: nat, r: Row)
    requires m <= |paths| && forall j :: 0 <= j < |paths| ==> paths[j] == []
    ensures Occurs(paths, m, r) == 0
    decreases m
  {
    if m > 0 {
      NoneOccurs(paths, m - 1, r);
    }
  }

  lemma {:induction false} Appended(a: seq<Row>, b: seq<Row>, r: Row)
    ensures multiset(a + b)[r] == multiset(a)[r] + multiset(b)[r]
  {
  }

  /** However the rows are dealt out, the paths together produce what one path produces. */
  lemma {:induction false} SplitConserves(f: Maker, rows: seq<Row>, which: seq<nat>, p: nat, m: nat, r: Row)
    requires p <= |rows| == |which| && forall i :: 0 <= i < |which| ==> which[i] < m
    ensures Conserved(f, rows, which, p, m, r)
    decreases p
  {
    if p == 0 {
      NothingDealt(f, rows, which, m, r);
    } else {
      SplitConserves(f, rows, which, p - 1, m, r);
      MoreConserved(f, rows, which, p - 1, m, r);
    }
  }

  /** The row occurs in the paths together as often as in what one path makes of the first `p` rows. */
  ghost predicate Conserved(f: Maker, rows: seq<Row>, which: seq<nat>, p: nat, m: nat, r: Row)
    requires p <= |rows| == |which|
  {
    Occurs(Outputs(f, rows, which, p, m), m, r) == multiset(Each(f, rows, p))[r]
  }

  lemma {:induction false} MoreConserved(f: Maker, rows: seq<Row>, which: seq<nat>, q: nat, m: nat, r: Row)
    requires q < |rows| == |which| && which[q] < m && Conserved(f, rows, which, q, m, r)
    ensures Conserved(f, rows, which, q + 1, m, r)
  {
    OneMoreDealt(f, rows, which, q, m, r);
  }

  /** The next row adds as much to the paths together as to the one path. */
  lemma {:induction false} OneMoreDealt(f: Maker, rows: seq<Row>, which: seq<nat>, q: nat, m: nat, r: Row)
    requires q < |rows| == |which| && which[q] < m
    ensures Occurs(Outputs(f, rows, which, q + 1, m), m, r) - Occurs(Outputs(f, rows, which, q, m), m, r)
         == multiset(Each(f, rows, q + 1))[r] - multiset(Each(f, rows, q))[r]
  {
    DealtStep(f, rows, which, q, m, r);
    EachStep(f, rows, q, r);
  }

  lemma {:induction false} EachStep(f: Maker, rows: seq<Row>, q: nat, r: Row)
    requires q < |rows|
    ensures multiset(Each(f, rows, q + 1))[r] == multiset(Each(f, rows, q))[r] + multiset(f(rows[q]))[r]
  {
    Appended(Each(f, rows, q), f(rows[q]), r);
  }

  lemma {:induction false} NothingDealt(f: Maker, rows: seq<Row>, which: seq<nat>, m: nat, r: Row)
    requires |rows| == |which|
    ensures Conserved(f, rows, which, 0, m, r)
  {
    var outputs := Outputs(f, rows, which, 0, m);
    forall j | 0 <= j < m ensures outputs[j] == [] {
      assert PartFirst(rows, which, 0, j) == [];
    }
    NoneOccurs(outputs, m, r);
  }

  lemma {:induction false} DealtStep(f: Maker, rows: seq<Row>, which: seq<nat>, q: nat, m: nat, r: Row)
    requires q < |rows| == |which| && which[q] < m
    ensures Occurs(Outputs(f, rows, which, q + 1, m), m, r)
         == Occurs(Outputs(f, rows, which, q, m), m, r) + multiset(f(rows[q]))[r]
  {
    DealtOut(f, rows, which, q, m);
    DealtCount(Outputs(f, rows, which, q, m), m, which[q], f(rows[q]), r);
  }

  lemma {:induction false} DealtCount(paths: seq<seq<Row>>, m: nat, j: nat, row: seq<Row>, r: Row)
    requires m == |paths| && j < m
    ensures Occurs(paths[j := paths[j] + row], m, r) == Occurs(paths, m, r) + multiset(row)[r]
  {
    Appended(paths[j], row, r);
    OccursMore(paths, m, j, paths[j] + row, r, multiset(row)[r]);
  }

  // ---------------------------------------------------------------------------
  // Merging

  /** A head that no other head has to come before. */
  predicate Least(cmp: Cmp, key: SortKey, paths: seq<seq<Row>>, r: Row) {
    forall i :: 0 <= i < |paths| && paths[i] != [] ==> Before(cmp, key, r, paths[i][0])
  }

  /** A merge takes a least head until there is none; ties are broken in any way. */
  ghost predicate IsMerge(cmp: Cmp, key: SortKey, paths: seq<seq<Row>>, out: seq<Row>)
    decreases |out|
  {
    if out == [] then forall i :: 0 <= i < |paths| ==> paths[i] == []
    else
      exists j :: 0 <= j < |paths| && paths[j] != [] && paths[j][0] == out[0] && Least(cmp, key, paths, out[0])
        && IsMerge(cmp, key, paths[j := paths[j][1..]], out[1..])
  }

  lemma {:induction false} InPath(paths: seq<seq<Row>>, m: nat, r: Row) returns (j: nat)
    requires m <= |paths| && Occurs(paths, m, r) > 0
    ensures j < m && r in paths[j]
    decreases m
  {
    if r in paths[m - 1] {
      j := m - 1;
    } else {
      j := InPath(paths, m - 1, r);
    }
  }

  lemma {:induction false} LeastOfAll(cmp: Cmp, key: SortKey, paths: seq<seq<Row>>, r: Row, s: Row)
    requires TotalPreorder(cmp) && Least(cmp, key, paths, r) && Occurs(paths, |paths|, s) > 0
    requires forall j :: 0 <= j < |paths| ==> SortedBy(cmp, key, paths[j])
    ensures Before(cmp, key, r, s)
  {
    var j := InPath(paths, |paths|, s);
    var i :| 0 <= i < |paths[j]| && paths[j][i] == s;
    assert Before(cmp, key, r, paths[j][0]);
    assert i > 0 ==> Before(cmp, key, paths[j][0], paths[j][i]);
  }

  /** Which path a merge takes its first row from. */
  ghost predicate TakesFrom(cmp: Cmp, key: SortKey, paths: seq<seq<Row>>, out: seq<Row>, j: nat) {
    && out != []
    && j < |paths| && paths[j] != [] && paths[j][0] == out[0]
    && Least(cmp, key, paths, out[0])
    && IsMerge(cmp, key, paths[j := paths[j][1..]], out[1..])
  }

  lemma {:induction false} FirstTaken(cmp: Cmp, key: SortKey, paths: seq<seq<Row>>, out: seq<Row>) returns (j: nat)
    requires IsMerge(cmp, key, paths, out) && out != []
    ensures TakesFrom(cmp, key, paths, out, j)
  {
    j :| 0 <= j < |paths| && paths[j] != [] && paths[j][0] == out[0] && Least(cmp, key, paths, out[0])
      && IsMerge(cmp, key, paths[j := paths[j][1..]], out[1..]);
  }

  lemma {:induction false} TailCount(paths: seq<seq<Row>>, j: nat, r: Row)
    requires j < |paths| && paths[j] != []
    ensures Occurs(paths[j := paths[j][1..]], |paths|, r) == Occurs(paths, |paths|, r) - if paths[j][0] == r then 1 else 0
  {
    Appended([paths[j][0]], paths[j][1..], r);
    assert paths[j] == [paths[j][0]] + paths[j][1..];
    OccursMore(paths, |paths|, j, paths[j][1..], r, if paths[j][0] == r then -1 else 0);
  }

  /** A merge has the rows of its paths, each as often. */
  lemma {:induction false} MergeConserves(cmp: Cmp, key: SortKey, paths: seq<seq<Row>>, out: seq<Row>, r: Row)
    requires IsMerge(cmp, key, paths, out)
    ensures multiset(out)[r] == Occurs(paths, |paths|, r)
    decreases |out|
  {
    if out == [] {
      NoneOccurs(paths, |paths|, r);
    } else {
      var j := FirstTaken(cmp, key, paths, out);
      MergeConserves(cmp, key, paths[j := paths[j][1..]], out[1..], r);
      TailCount(paths, j, r);
      Appended([out[0]], out[1..], r);
      assert out == [out[0]] + out[1..];
    }
  }

  /** A merge of sorted paths is sorted. */
  lemma {:induction false} MergeIsSorted(cmp: Cmp, key: SortKey, paths: seq<seq<Row>>, out: seq<Row>)
    requires TotalPreorder(cmp) && IsMerge(cmp, key, paths, out)
    requires forall j :: 0 <= j < |paths| ==> SortedBy(cmp, key, paths[j])
    ensures SortedBy(cmp, key, out)
    decreases |out|
  {
    if out != [] {
      var j := FirstTaken(cmp, key, paths, out);
      var others := paths[j := paths[j][1..]];
      MergeIsSorted(cmp, key, others, out[1..]);
      forall i | 0 < i < |out| ensures Before(cmp, key, out[0], out[i]) {
        assert out[i] in multiset(out[1..]) by {
          assert out[1..][i - 1] == out[i];
        }
        MergeConserves(cmp, key, others, out[1..], out[i]);
        TailCount(paths, j, out[i]);
        LeastOfAll(cmp, key, paths, out[0], out[i]);
      }
      HeadFirst(cmp, key, out);
    }
  }

  lemma {:induction false} HeadFirst(cmp: Cmp, key: SortKey, out: seq<Row>)
    requires out != [] && SortedBy(cmp, key, out[1..])
    requires forall i :: 0 < i < |out| ==> Before(cmp, key, out[0], out[i])
    ensures SortedBy(cmp, key, out)
  {
    forall i, j | 0 <= i < j < |out| ensures Before(cmp, key, out[i], out[j]) {
      if i > 0 {
        assert out[i] == out[1..][i - 1] && out[j] == out[1..][j - 1];
      }
    }
  }

  // ---------------------------------------------------------------------------
  // The parallel scan

  /**
   With a source sort key, when the parallel prefix ends in a merge and does not stop at a
   sort: running it on any split of the sorted input and merging in any way gives the rows
   of the sequential run, sorted on the key that the merge uses.
   */
  lemma {:induction false} ParallelIsSequential(cmp: Cmp, ops: seq<Op>, key: SortKey, c: Concurrent,
                                                rows: seq<Row>, which: seq<nat>, m: nat, out: seq<Row>)
    requires TotalPreorder(cmp) && ConcurrentFrom(ops, 0, Some(key)) == Some(c)
    requires c.needMerge && (c.n == |ops| || (c.n < |ops| && !ops[c.n].Sort?))
    requires AllStateless(ops[..c.n]) ==> PathRespects(ops[..c.n], 0, key)
    requires AllStateless(ops[..c.n]) ==> forall i :: 0 <= i < |rows| ==> PathAdmits(ops[..c.n], 0, key, rows[i])
    requires SortedBy(cmp, key, rows)
    requires |which| == |rows| && forall i :: 0 <= i < |which| ==> which[i] < m
    requires AllStateless(ops[..c.n]) && c.keys.Some? ==>
      IsMerge(cmp, c.keys.value, Outputs(OfPath(ops[..c.n]), rows, which, |rows|, m), out)
    ensures AllStateless(ops[..c.n]) && c.keys.Some?
    ensures SortedBy(cmp, c.keys.value, out)
    ensures multiset(out) == multiset(Run(ops[..c.n], rows))
  {
    PrefixIsStateless(ops, 0, Some(key), c);
    var head := ops[..c.n];
    KeysOfPrefix(ops, 0, c.n, Some(key));
    var paths := Outputs(OfPath(head), rows, which, |rows|, m);
    forall j | 0 <= j < m ensures SortedBy(cmp, c.keys.value, paths[j]) {
      PathSorted(cmp, head, key, rows, which, j);
    }
    MergeIsSorted(cmp, c.keys.value, paths, out);
    forall r: Row ensures multiset(out)[r] == multiset(Run(head, rows))[r] {
      MergeConserves(cmp, c.keys.value, paths, out, r);
      SplitConserves(OfPath(head), rows, which, |rows|, m, r);
    }
  }

  lemma {:induction false} PathSorted(cmp: Cmp, ops: seq<Op>, key: SortKey, rows: seq<Row>, which: seq<nat>, j: nat)
    requires TotalPreorder(cmp) && AllStateless(ops) && PathRespects(ops, 0, key) && |which| == |rows|
    requires SortedBy(cmp, key, rows) && forall i :: 0 <= i < |rows| ==> PathAdmits(ops, 0, key, rows[i])
    ensures KeysAfter(ops, 0, |ops|, Some(key)).Some?
    ensures SortedBy(cmp, KeysAfter(ops, 0, |ops|, Some(key)).value, Run(ops, PartFirst(rows, which, |rows|, j)))
  {
    var part := PartFirst(rows, which, |rows|, j);
    PartSorted(cmp, key, rows, which, |rows|, j);
    forall o | 0 <= o < |part| ensures PathAdmits(ops, 0, key, part[o]) {
      var i := PartSource(rows, which, |rows|, j, o);
    }
    RunKeepsOrder(cmp, ops, key, part, |part|);
  }

  lemma {:induction false} KeysOfPrefix(ops: seq<Op>, k: nat, n: nat, keys: Option<SortKey>)
    requires k <= n <= |ops|
    ensures KeysAfter(ops[..n], k, n, keys) == KeysAfter(ops, k, n, keys)
    decreases n - k
  {
    if k < n {
      match AnalyzeSortKeys(ops[k], keys)
      case None =>
      case Some(next) => KeysOfPrefix(ops, k + 1, n, next);
    }
  }
}
