/** How operators change the order of their input: the analysis behind parallel scans. */
module SortKeys {
  import opened Wrappers
  import opened Uvarint

  type Path = seq<string>

  type Val = seq<byte>

  /** A value: a record with its fields, or anything else, such as an error. */
  datatype Row = Leaf(val: Val) | Record(fields: map<string, Row>)

  function Get(r: Row, p: Path): Option<Row>
    decreases |p|
  {
    if p == [] then Some(r)
    else if r.Record? && p[0] in r.fields then Get(r.fields[p[0]], p[1..])
    else None
  }

  datatype SortKey = SortKey(key: Path, desc: bool)

  /** The right-hand side of an assignment: a field, or an expression with the fields it depends on if they are known. */
  datatype Rhs = Field(path: Path) | Expr(deps: Option<seq<Path>>, value: Row -> Row)

  /** The left-hand side of an assignment: a field, or a path that is computed from each value. */
  datatype Target = Static(path: Path) | Computed(eval: Row -> Path)

  datatype Assignment = Assignment(lhs: Target, rhs: Rhs)

  datatype Renaming = Renaming(to: Path, from: Path)

  datatype GroupRhs = GroupField(path: Path) | GroupCall(name: string, args: seq<Option<Path>>) | OtherRhs

  datatype GroupKey = GroupKey(lhs: Option<Path>, rhs: GroupRhs)

  datatype SortArg = SortArg(key: Option<Path>, desc: bool)

  datatype Op =
    | Filter(keep: Row -> bool)
    | Pass
    | Cut(cuts: seq<Assignment>)
    | Drop(drops: seq<Option<Path>>)
    | Put(puts: seq<Assignment>)
    | Rename(renamings: seq<Renaming>)
    | Summarize(groups: seq<GroupKey>)
    | Sort(sorts: seq<SortArg>, reverse: bool)
    | Load
    | Head | Tail | Uniq | Fuse | Join | Fork | Scatter | Mirror | Output
    | Lister
    | OtherOp

  // ---------------------------------------------------------------------------
  // The analysis

  function SortKeysOfSort(sorts: seq<SortArg>, reverse: bool): Option<SortKey> {
    if |sorts| != 1 || sorts[0].key.None? then None
    else Some(SortKey(sorts[0].key.value, if reverse then !sorts[0].desc else sorts[0].desc))
  }

  predicate OrderPreservingCall(rhs: GroupRhs, key: Path) {
    rhs.GroupCall?
    && (|| (rhs.name in {"bucket", "ceil", "floor", "round"} && |rhs.args| >= 1 && rhs.args[0] == Some(key))
        || rhs.name == "every")
  }

  predicate IsKeyOfSummarize(groups: seq<GroupKey>, keys: Option<SortKey>) {
    keys.Some? && exists i :: 0 <= i < |groups| && Groups(groups[i], keys.value.key)
  }

  /** A group-by key that is the sort key or an order-preserving function of it. */
  predicate Groups(g: GroupKey, key: Path) {
    g.lhs == Some(key) && (g.rhs == GroupField(key) || OrderPreservingCall(g.rhs, key))
  }

  /** One step of the scoreboard of analyzeCuts: the fields of known order, or nothing to give up. */
  function Score(board: set<Path>, a: Assignment): Option<set<Path>> {
    if a.lhs.Computed? then None
    else
      match a.rhs
      case Field(p) => if p in board then Some(board + {a.lhs.path}) else Some(board - {a.lhs.path})
      case Expr(None, _) => None
      case Expr(Some(deps), _) =>
        if exists i :: 0 <= i < |deps| && deps[i] in board then None else Some(board - {a.lhs.path})
  }

  function Scores(board: set<Path>, cuts: seq<Assignment>): Option<set<Path>>
    decreases |cuts|
  {
    if cuts == [] then Some(board)
    else
      var n := |cuts| - 1;
      match Scores(board, cuts[..n])
      case None => None
      case Some(before) => Score(before, cuts[n])
  }

  /** analyzeCuts: a field that is alone in having a known order. */
  function AnalyzeCuts(cuts: seq<Assignment>, key: SortKey): (r: Option<SortKey>)
    ensures r.Some? ==> r.value.desc == key.desc && Scores({key.key}, cuts) == Some({r.value.key})
  {
    match Scores({key.key}, cuts)
    case None => None
    case Some(board) =>
      if |board| != 1 then None
      else
        Alone(board);
        var f :| f in board && board == {f};
        Some(SortKey(f, key.desc))
  }

  lemma Alone(s: set<Path>)
    requires |s| == 1
    ensures exists f :: f in s && s == {f}
  {
    var f :| f in s;
    assert |s - {f}| == 0;
    assert s == {f};
  }

  /** The last renaming of the key decides. */
  function AnalyzeRenamings(renamings: seq<Renaming>, key: SortKey): SortKey
    decreases |renamings|
  {
    if renamings == [] then key
    else
      var n := |renamings| - 1;
      if renamings[n].from == key.key then key.(key := renamings[n].to)
      else AnalyzeRenamings(renamings[..n], key)
  }

  predicate Assigns(args: seq<Assignment>, p: Path) {
    exists i :: 0 <= i < |args| && args[i].lhs.Static? && args[i].lhs.path == p
  }

  /** analyzeSortKeys: the order of the output, or nothing if it is not known; no result for an internal error. */
  function AnalyzeSortKeys(op: Op, keys: Option<SortKey>): Option<Option<SortKey>> {
    if op.Sort? then Some(SortKeysOfSort(op.sorts, op.reverse))
    else if keys.None? then Some(None)
    else
      var key := keys.value;
      match op
      case Lister => None
      case Filter(_) => Some(keys)
      case Pass => Some(keys)
      case Head => Some(keys)
      case Uniq => Some(keys)
      case Tail => Some(keys)
      case Fuse => Some(keys)
      case Output => Some(keys)
      case Cut(cuts) => Some(AnalyzeCuts(cuts, key))
      case Drop(drops) => if Some(key.key) in drops then Some(None) else Some(keys)
      case Rename(renamings) => Some(Some(AnalyzeRenamings(renamings, key)))
      case Summarize(groups) => if IsKeyOfSummarize(groups, keys) then Some(keys) else Some(None)
      case Put(puts) => if Assigns(puts, key.key) then Some(None) else Some(keys)
      case _ => Some(None)
  }

  /** How far a path may be run in parallel, the order at its end, and whether to merge on it. */
  datatype Concurrent = Concurrent(n: nat, keys: Option<SortKey>, sorted: bool, needMerge: bool)

  predicate Stops(op: Op) {
    op.Fork? || op.Scatter? || op.Mirror? || op.Head? || op.Tail? || op.Uniq? || op.Fuse? || op.Join? || op.Output?
  }

  /** concurrentPath from operator `k` on. */
  function ConcurrentFrom(ops: seq<Op>, k: nat, keys: Option<SortKey>): Option<Concurrent>
    requires k <= |ops|
    decreases |ops| - k
  {
    if k == |ops| then Some(Concurrent(k, keys, true, true))
    else
      var op := ops[k];
      if op.Summarize? then
        if IsKeyOfSummarize(op.groups, keys) then Some(Concurrent(k, keys, true, true))
        else Some(Concurrent(k, None, false, false))
      else if op.Sort? then
        var newKeys := SortKeysOfSort(op.sorts, op.reverse);
        if newKeys.None? then Some(Concurrent(0, None, false, false)) else Some(Concurrent(k, newKeys, false, true))
      else if op.Load? then Some(Concurrent(k, None, false, false))
      else if Stops(op) then Some(Concurrent(k, keys, true, true))
      else
        match AnalyzeSortKeys(op, keys)
        case None => None
        case Some(next) =>
          if keys.Some? && next.None? then Some(Concurrent(k, keys, true, true))
          else ConcurrentFrom(ops, k + 1, next)
  }

  /** concurrentPath as it runs. */
  method ConcurrentPath(ops: seq<Op>, sourceKeys: Option<SortKey>) returns (r: Option<Concurrent>)
    ensures r == ConcurrentFrom(ops, 0, sourceKeys)
  {
    var keys := sourceKeys;
    for k := 0 to |ops|
      invariant ConcurrentFrom(ops, 0, sourceKeys) == ConcurrentFrom(ops, k, keys)
    {
      var op := ops[k];
      if op.Summarize? {
        if IsKeyOfSummarize(op.groups, keys) {
          return Some(Concurrent(k, keys, true, true));
        }
        return Some(Concurrent(k, None, false, false));
      } else if op.Sort? {
        var newKeys := SortKeysOfSort(op.sorts, op.reverse);
        if newKeys.None? {
          return Some(Concurrent(0, None, false, false));
        }
        return Some(Concurrent(k, newKeys, false, true));
      } else if op.Load? {
        return Some(Concurrent(k, None, false, false));
      } else if Stops(op) {
        return Some(Concurrent(k, keys, true, true));
      }
      match AnalyzeSortKeys(op, keys)
      case None => return None;
      case Some(next) =>
        if keys.Some? && next.None? {
          return Some(Concurrent(k, keys, true, true));
        }
        keys := next;
    }
    return Some(Concurrent(|ops|, keys, true, true));
  }

  // ---------------------------------------------------------------------------
  // What the parallel prefix holds

  /** An operator that treats every value on its own. */
  predicate Stateless(op: Op) {
    op.Filter? || op.Pass? || op.Cut? || op.Drop? || op.Put? || op.Rename?
  }

  /** The order after a list of operators. */
  function KeysAfter(ops: seq<Op>, k: nat, n: nat, keys: Option<SortKey>): Option<SortKey>
    requires k <= n <= |ops|
    decreases n - k
  {
    if k == n then keys
    else
      match AnalyzeSortKeys(ops[k], keys)
      case None => None
      case Some(next) => KeysAfter(ops, k + 1, n, next)
  }

  /** From a source with a sort key, the prefix holds only stateless operators and a merge has a key. */
  lemma {:induction false} PrefixIsStateless(ops: seq<Op>, k: nat, keys: Option<SortKey>, c: Concurrent)
    requires k <= |ops| && keys.Some? && ConcurrentFrom(ops, k, keys) == Some(c)
    ensures c.needMerge ==> c.keys.Some?
    ensures c.n <= |ops| && (c.n < k ==> c == Concurrent(0, None, false, false))
    ensures forall i :: k <= i < c.n ==> Stateless(ops[i])
    ensures k <= c.n && c.needMerge && (c.n == |ops| || !ops[c.n].Sort?) ==> c.keys == KeysAfter(ops, k, c.n, keys)
    decreases |ops| - k
  {
    if k < |ops| {
      var op := ops[k];
      if !op.Summarize? && !op.Sort? && !op.Load? && !Stops(op) && AnalyzeSortKeys(op, keys).Some? {
        var next := AnalyzeSortKeys(op, keys).value;
        if next.Some? {
          PrefixIsStateless(ops, k + 1, next, c);
        }
      }
    }
  }
}
