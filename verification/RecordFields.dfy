/** No record that a record builder builds has two fields of the same name. */
module RecordFields {
  import opened Wrappers
  import opened Uvarint
  import T = Types
  import Z = Zcode
  import ZB = ZcodeBuilder
  import opened RecordBuilders
  import opened RecordNesting

  /** The fields of every record in the type have distinct names. */
  predicate NoDuplicates(t: T.Type) {
    match t
    case Record(fields) => T.DistinctFields(fields) && forall i :: 0 <= i < |fields| ==> NoDuplicates(fields[i].typ)
    case _ => true
  }

  /** The fields of a level: without duplicates, and each at a path that is used up. */
  ghost predicate LevelClean(l: Level, path: Path, used: set<Path>) {
    && T.DistinctFields(l.fields)
    && forall i :: 0 <= i < |l.fields| ==> NoDuplicates(l.fields[i].typ) && path + [l.fields[i].name] in used
  }

  ghost predicate Clean(s: seq<Level>, used: set<Path>)
    requires s != []
  {
    forall k :: 0 <= k < |s| ==> LevelClean(s[k], OpenPath(s)[..k], used)
  }

  lemma {:induction false} LevelMore(l: Level, path: Path, used: set<Path>, more: set<Path>)
    requires LevelClean(l, path, used) && used <= more
    ensures LevelClean(l, path, more)
  {
  }

  lemma {:induction false} LevelPut(l: Level, path: Path, used: set<Path>, f: T.Field, values: seq<Z.Value>)
    requires LevelClean(l, path, used) && path + [f.name] !in used && NoDuplicates(f.typ)
    ensures LevelClean(Level(l.name, l.fields + [f], values), path, used + {path + [f.name]})
  {
  }

  lemma {:induction false} PutKeeps(s: seq<Level>, used: set<Path>, f: T.Field, v: Z.Value)
    requires s != [] && Clean(s, used) && OpenPath(s) + [f.name] !in used && NoDuplicates(f.typ)
    ensures Clean(Put(s, f, v), used + {OpenPath(s) + [f.name]})
  {
    var n, r, more := |s| - 1, Put(s, f, v), used + {OpenPath(s) + [f.name]};
    assert OpenPath(r) == OpenPath(s) && OpenPath(s)[..n] == OpenPath(s);
    forall k | 0 <= k < |r| ensures LevelClean(r[k], OpenPath(r)[..k], more) {
      assert LevelClean(s[k], OpenPath(s)[..k], used);
      if k < n {
        LevelMore(s[k], OpenPath(s)[..k], used, more);
      } else {
        LevelPut(s[n], OpenPath(s), used, f, s[n].values + [v]);
      }
    }
  }

  lemma {:induction false} PopClean(s: seq<Level>, used: set<Path>)
    requires |s| > 1 && Clean(s, used)
    ensures var n := |s| - 1;
            && Clean(s[..n], used)
            && OpenPath(s[..n]) + [s[n].name] == OpenPath(s)
            && NoDuplicates(T.Record(s[n].fields))
  {
    var n := |s| - 1;
    assert OpenPath(s[..n]) == OpenPath(s)[..n - 1];
    assert LevelClean(s[n], OpenPath(s)[..n], used);
    forall k | 0 <= k < n ensures LevelClean(s[..n][k], OpenPath(s[..n])[..k], used) {
      assert LevelClean(s[k], OpenPath(s)[..k], used);
      assert OpenPath(s[..n])[..k] == OpenPath(s)[..k];
    }
  }

  lemma {:induction false} CloseKeeps(s: seq<Level>, used: set<Path>)
    requires |s| > 1 && Clean(s, used) && OpenPath(s) !in used
    ensures Clean(Close(s), used + {OpenPath(s)})
  {
    var n := |s| - 1;
    PopClean(s, used);
    PutKeeps(s[..n], used, T.Field(s[n].name, T.Record(s[n].fields)), Z.Group(s[n].values));
  }

  lemma {:induction false} OpenKeeps(s: seq<Level>, used: set<Path>, name: T.Name)
    requires s != [] && Clean(s, used)
    ensures Clean(Open(s, name), used)
  {
    var r := Open(s, name);
    forall k | 0 <= k < |r| ensures LevelClean(r[k], OpenPath(r)[..k], used) {
      if k < |s| {
        assert LevelClean(s[k], OpenPath(s)[..k], used);
        assert OpenPath(r)[..k] == OpenPath(s)[..k];
      }
    }
  }

  lemma {:induction false} OpenFirstKeeps(s: seq<Level>, used: set<Path>, names: Path, n: nat)
    requires s != [] && Clean(s, used) && n <= |names|
    ensures Clean(OpenFirst(s, names, n), used)
    decreases n
  {
    if n > 0 {
      OpenFirstKeeps(s, used, names, n - 1);
      OpenKeeps(OpenFirst(s, names, n - 1), used, names[n - 1]);
    }
  }

  // ---------------------------------------------------------------------------
  // Closing records

  /** The paths of the innermost `n` records. */
  function Innermost(rec: Path, n: nat): set<Path>
    requires n <= |rec|
  {
    if n == 0 then {} else Innermost(rec, n - 1) + {rec[..|rec| - (n - 1)]}
  }

  lemma {:induction false} InnermostLonger(rec: Path, n: nat, p: Path)
    requires n <= |rec| && p in Innermost(rec, n)
    ensures |rec| - n < |p| <= |rec| && p == rec[..|p|]
    decreases n
  {
    if n > 0 && p != rec[..|rec| - (n - 1)] {
      InnermostLonger(rec, n - 1, p);
    }
  }

  lemma {:induction false} CloseManyKeeps(s: seq<Level>, used: set<Path>, rec: Path, n: nat)
    requires s != [] && OpenPath(s) == rec && n <= |rec| && Clean(s, used)
    requires forall p :: p in Innermost(rec, n) ==> p !in used
    ensures Clean(CloseMany(s, n), used + Innermost(rec, n))
    decreases n
  {
    if n == 0 {
      assert used + Innermost(rec, 0) == used;
    } else {
      CloseManyKeeps(s, used, rec, n - 1);
      CloseManyPath(s, n - 1);
      var t, mid, p := CloseMany(s, n - 1), used + Innermost(rec, n - 1), rec[..|rec| - (n - 1)];
      if p in Innermost(rec, n - 1) {
        InnermostLonger(rec, n - 1, p);
      }
      assert OpenPath(t) == p && p !in mid;
      CloseKeeps(t, mid);
      assert mid + {p} == used + Innermost(rec, n);
    }
  }

  /** One leaf with the records around it, all at paths that were not used before. */
  lemma {:induction false} AroundKeeps(s: seq<Level>, used: set<Path>, rec: Path, pos: nat, f: T.Field, v: Z.Value, n: nat)
    requires s != [] && pos <= |rec| && n <= |rec| && OpenPath(s) == rec[..pos] && Clean(s, used) && NoDuplicates(f.typ)
    requires rec + [f.name] !in used && forall p :: p in Innermost(rec, n) ==> p !in used
    ensures Clean(Around(s, rec[pos..], f, v, n), used + {rec + [f.name]} + Innermost(rec, n))
  {
    AroundPath(s, rec, pos, f, v, n);
    OpenFirstKeeps(s, used, rec[pos..], |rec[pos..]|);
    var inside := OpenAll(s, rec[pos..]);
    PutKeeps(inside, used, f, v);
    forall p | p in Innermost(rec, n) ensures p !in used + {rec + [f.name]} {
      InnermostLonger(rec, n, p);
    }
    CloseManyKeeps(Put(inside, f, v), used + {rec + [f.name]}, rec, n);
  }

  // ---------------------------------------------------------------------------
  // Accepted lists use every path once

  /** The paths used by the first `i` fields: theirs, and those of the records closed after them. */
  function Used(fields: seq<Path>, i: nat): set<Path>
    requires i <= |fields|
  {
    if i == 0 then {}
    else Used(fields, i - 1) + {fields[i - 1]} + Innermost(Record(fields, i - 1), EndsBefore(fields, i))
  }

  /** The path is that of a record of field `j` that is closed right after it. */
  predicate ClosedAfter(fields: seq<Path>, j: nat, p: Path)
    requires j < |fields|
  {
    Shared(fields, j + 1) < |p| <= |Record(fields, j)| && p == Record(fields, j)[..|p|]
  }

  lemma {:induction false} ClosedNow(fields: seq<Path>, j: nat, p: Path)
    requires j < |fields| && p in Innermost(Record(fields, j), EndsBefore(fields, j + 1))
    ensures ClosedAfter(fields, j, p)
  {
    InnermostLonger(Record(fields, j), EndsBefore(fields, j + 1), p);
  }

  /** Field `j` uses the path up: it is the field, or a record closed right after it. */
  ghost predicate Uses(fields: seq<Path>, j: nat, p: Path)
    requires j < |fields|
  {
    p == fields[j] || ClosedAfter(fields, j, p)
  }

  /** A used path was used up by some field. */
  lemma {:induction false} UsedBy(fields: seq<Path>, i: nat, p: Path) returns (j: nat)
    requires i <= |fields| && p in Used(fields, i)
    ensures j < i && Uses(fields, j, p)
    decreases i
  {
    UsedLast(fields, i, p);
    if Uses(fields, i - 1, p) {
      j := i - 1;
    } else {
      j := UsedBy(fields, i - 1, p);
    }
  }

  lemma {:induction false} UsedLast(fields: seq<Path>, i: nat, p: Path)
    requires i <= |fields| && p in Used(fields, i)
    ensures i > 0 && (p in Used(fields, i - 1) || Uses(fields, i - 1, p))
  {
    if p in Innermost(Record(fields, i - 1), EndsBefore(fields, i)) {
      ClosedNow(fields, i - 1, p);
    }
  }

  lemma {:induction false} OpenedHere(rec: Path, pos: nat, d: nat, e: nat)
    requires pos < d <= e <= |rec|
    ensures Join(rec[..d]) in Opened(rec, pos, e)
    decreases e
  {
    if d < e {
      OpenedHere(rec, pos, d, e - 1);
    }
  }

  predicate IsSeen(fields: seq<Path>, i: nat, name: T.Name)
    requires i <= |fields|
  {
    name in Seen(fields, i)
  }

  lemma {:induction false} SeenNext(fields: seq<Path>, k: nat, name: T.Name)
    requires k < |fields| && IsSeen(fields, k, name)
    ensures IsSeen(fields, k + 1, name)
  {
  }

  lemma {:induction false} OpenedIsSeen(fields: seq<Path>, k: nat, name: T.Name)
    requires k < |fields| && name in Opened(Record(fields, k), Shared(fields, k), |Record(fields, k)|)
    ensures IsSeen(fields, k + 1, name)
  {
  }

  /** A name that was seen stays seen. */
  lemma {:induction false} StaysSeen(fields: seq<Path>, i: nat, k: nat, name: T.Name)
    requires i <= k <= |fields| && IsSeen(fields, i, name)
    ensures IsSeen(fields, k, name)
    decreases k - i
  {
    if i < k {
      SeenNext(fields, i, name);
      StaysSeen(fields, i + 1, k, name);
    }
  }

  /** Every record around a field has been opened. */
  lemma {:induction false} WasOpened(fields: seq<Path>, i: nat, d: nat)
    requires i < |fields| && 0 < d <= |Record(fields, i)|
    ensures IsSeen(fields, i + 1, Join(Record(fields, i)[..d]))
    decreases i
  {
    var rec, pos := Record(fields, i), Shared(fields, i);
    if d > pos {
      OpenedHere(rec, pos, d, |rec|);
      OpenedIsSeen(fields, i, Join(rec[..d]));
    } else {
      SharedStart(fields, i, d);
      WasOpened(fields, i - 1, d);
      SeenNext(fields, i, Join(rec[..d]));
    }
  }

  lemma {:induction false} SharedStart(fields: seq<Path>, i: nat, d: nat)
    requires i < |fields| && 0 < d <= Shared(fields, i)
    ensures i > 0 && d <= |Record(fields, i - 1)| && Record(fields, i - 1)[..d] == Record(fields, i)[..d]
  {
    var n := Shared(fields, i);
    var a, b := Record(fields, i - 1), Record(fields, i);
    assert a[..n] == b[..n];
    assert a[..d] == a[..n][..d] && b[..d] == b[..n][..d];
  }

  /** A record that field `i` opens was not open around an earlier field. */
  lemma {:induction false} OpenedOnce(fields: seq<Path>, j: nat, i: nat, d: nat)
    requires j < i < |fields| && NoneOpened(Record(fields, i), Shared(fields, i), |Record(fields, i)|, Seen(fields, i))
    requires Shared(fields, i) < d <= |Record(fields, i)| && 0 < d <= |Record(fields, j)|
    ensures Record(fields, i)[..d] != Record(fields, j)[..d]
  {
    WasOpened(fields, j, d);
    StaysSeen(fields, j + 1, i, Join(Record(fields, j)[..d]));
    NewName(Record(fields, i), Shared(fields, i), d, Seen(fields, i), Record(fields, j)[..d]);
  }

  lemma {:induction false} NewName(rec: Path, pos: nat, d: nat, seen: set<T.Name>, earlier: Path)
    requires pos < d <= |rec| && NoneOpened(rec, pos, |rec|, seen) && Join(earlier) in seen
    ensures rec[..d] != earlier
  {
    if rec[..d] == earlier {
      OnceOpened(rec, pos, d, |rec|, seen);
    }
  }

  /** A record that was closed is never opened again. */
  lemma {:induction false} NotReopened(fields: seq<Path>, j: nat, i: nat, d: nat)
    requires j < i < |fields| && Accepted(fields, |fields|)
    requires Shared(fields, j + 1) < d <= |Record(fields, j)| && d <= |Record(fields, i)|
    ensures Record(fields, i)[..d] != Record(fields, j)[..d]
    decreases i
  {
    if Shared(fields, i) < d {
      assert Fits(fields, i);
      OpenedOnce(fields, j, i, d);
    } else {
      SharedStart(fields, i, d);
      if j < i - 1 {
        NotReopened(fields, j, i - 1, d);
      }
    }
  }

  lemma {:induction false} FieldAndRecord(fields: seq<Path>, i: nat)
    requires i < |fields| && fields[i] != []
    ensures Record(fields, i) + [LeafName(fields[i])] == fields[i] && Record(fields, i) <= fields[i]
  {
  }

  lemma {:induction false} FreshLeaf(fields: seq<Path>, i: nat)
    requires i < |fields| && Accepted(fields, |fields|)
    ensures fields[i] !in Used(fields, i)
  {
    if fields[i] in Used(fields, i) {
      var j := UsedBy(fields, i, fields[i]);
      assert Fits(fields, j) && Fits(fields, i);
      FieldAndRecord(fields, j);
    }
  }

  lemma {:induction false} FreshRecord(fields: seq<Path>, i: nat, p: Path)
    requires i < |fields| && Accepted(fields, |fields|) && p in Innermost(Record(fields, i), EndsBefore(fields, i + 1))
    ensures p !in Used(fields, i)
  {
    var rec, d := Record(fields, i), |p|;
    InnermostLonger(rec, EndsBefore(fields, i + 1), p);
    if p in Used(fields, i) {
      var j := UsedBy(fields, i, p);
      assert Fits(fields, i);
      FieldAndRecord(fields, i);
      if p == fields[j] {
        assert p <= fields[i];
        assert Related(fields[j], fields[i]);
      } else {
        NotReopened(fields, j, i, d);
      }
    }
  }

  lemma {:induction false} RunClean(fields: seq<Path>, infos: seq<Info>, leaves: seq<Leaf>, i: nat)
    requires i <= |infos| == |leaves| == |fields| && Accepted(fields, |fields|) && InfosOf(fields, infos, i)
    requires forall k :: 0 <= k < |leaves| ==> NoDuplicates(leaves[k].typ)
    ensures Clean(Run(infos, leaves, i), Used(fields, i))
    decreases i
  {
    if i == 0 {
      StartClean();
    } else {
      RunClean(fields, infos, leaves, i - 1);
      RunPath(fields, infos, leaves, i - 1);
      StepClean(fields, i - 1, Run(infos, leaves, i - 1), infos[i - 1], leaves[i - 1]);
    }
  }

  lemma {:induction false} StartClean()
    ensures Clean(START, {})
  {
  }

  lemma {:induction false} StepClean(fields: seq<Path>, i: nat, s: seq<Level>, info: Info, leaf: Leaf)
    requires i < |fields| && Accepted(fields, |fields|) && info == InfoAt(fields, i) && NoDuplicates(leaf.typ)
    requires s != [] && OpenPath(s) == Base(fields, i) && Clean(s, Used(fields, i))
    ensures Clean(LeafStep(s, info, leaf), Used(fields, i + 1))
  {
    var rec, f := Record(fields, i), T.Field(LeafName(info.field), leaf.typ);
    assert Fits(fields, i);
    FieldAndRecord(fields, i);
    FreshLeaf(fields, i);
    forall p | p in Innermost(rec, info.ends) ensures p !in Used(fields, i) {
      FreshRecord(fields, i, p);
    }
    StepPath(fields, i, s, info, leaf);
    AroundKeeps(s, Used(fields, i), rec, Shared(fields, i), f, leaf.value, info.ends);
  }

  /** For every accepted list, no record of the built type has a duplicate field. */
  lemma {:induction false} BuiltWithoutDuplicates(fields: seq<Path>, infos: seq<Info>, leaves: seq<Leaf>)
    requires |infos| == |leaves| == |fields| && Accepted(fields, |fields|) && InfosOf(fields, infos, |infos|)
    requires forall k :: 0 <= k < |leaves| ==> NoDuplicates(leaves[k].typ)
    ensures NoDuplicates(BuiltType(infos, leaves))
  {
    RunClean(fields, infos, leaves, |infos|);
    var s := Run(infos, leaves, |infos|);
    assert LevelClean(s[0], OpenPath(s)[..0], Used(fields, |fields|));
  }

  // ---------------------------------------------------------------------------
  // A whole record

  lemma {:induction false} LeafAppends(fields: seq<Path>, leaves: seq<Leaf>, i: nat)
    requires i < |leaves| == |fields|
    ensures var infos := Infos(fields, |fields|);
            ZB.ApplyAll(Frames(Run(infos, leaves, i)), LeafOps(infos[i], Z.ItemOf(leaves[i].value))) == Some(Frames(Run(infos, leaves, i + 1)))
  {
    var infos, leaf := Infos(fields, |fields|), leaves[i];
    InfosOfInfos(fields, |fields|);
    EnoughOpen(fields, infos, leaves, i + 1);
    AroundBytes(Run(infos, leaves, i), infos[i], T.Field(LeafName(infos[i].field), leaf.typ), leaf.value);
  }

  /**
   NewRecordBuilder, an Append for every leaf, and Encode: refused exactly for a list that is not
   accepted, and otherwise the encoding of the nested value, whose record types have no duplicate field.
   */
  method BuildRecord(fields: seq<Path>, leaves: seq<Leaf>) returns (b: Option<seq<byte>>)
    requires |leaves| == |fields| && forall k :: 0 <= k < |leaves| ==> NoDuplicates(leaves[k].typ)
    ensures b.Some? <==> Accepted(fields, |fields|)
    ensures b.Some? ==>
              var infos := Infos(fields, |fields|);
              b.value == Z.EncodeValues(BuiltValue(infos, leaves).items) && NoDuplicates(BuiltType(infos, leaves))
  {
    var r := NewRecordBuilder(fields);
    if r.Err? {
      return None;
    }
    var rb := new RecordBuilder(r.infos);
    StartBytes();
    AllAppend(fields, leaves);
    AppendAll(rb, leaves, AllFrames(fields, leaves));
    BuiltRecord(fields, leaves);
    b := rb.Encode();
  }

  /** Appends every leaf; `frames` are the value builder's open levels before each and after the last. */
  method AppendAll(rb: RecordBuilder, leaves: seq<Leaf>, ghost frames: seq<seq<seq<byte>>>)
    requires |leaves| == |rb.fields| && |frames| == |leaves| + 1 && rb.curField == 0
    requires rb.builder.Valid() && rb.builder.frames == frames[0]
    requires forall i :: 0 <= i < |leaves| ==> LeafLeads(frames[i], rb.fields[i], leaves[i], frames[i + 1])
    modifies rb, rb.builder
    ensures rb.builder.Valid() && rb.curField == |leaves|
    ensures rb.builder.frames == frames[|leaves|]
  {
    for i := 0 to |leaves|
      invariant rb.builder.Valid() && rb.curField == i && rb.builder.frames == frames[i]
    {
      assert LeafLeads(frames[i], rb.fields[i], leaves[i], frames[i + 1]);
      rb.Append(Z.ItemOf(leaves[i].value));
    }
  }

  ghost predicate LeafLeads(frames: seq<seq<byte>>, info: Info, leaf: Leaf, next: seq<seq<byte>>) {
    frames != [] && ZB.ApplyAll(frames, LeafOps(info, Z.ItemOf(leaf.value))) == Some(next)
  }

  ghost function AllFrames(fields: seq<Path>, leaves: seq<Leaf>): (r: seq<seq<seq<byte>>>)
    requires |leaves| == |fields|
    ensures |r| == |leaves| + 1
  {
    seq(|leaves| + 1, i requires 0 <= i <= |leaves| => Frames(Run(Infos(fields, |fields|), leaves, i)))
  }

  lemma {:induction false} AllAppend(fields: seq<Path>, leaves: seq<Leaf>)
    requires |leaves| == |fields|
    ensures var infos, frames := Infos(fields, |fields|), AllFrames(fields, leaves);
            && frames[0] == Frames(START) && frames[|leaves|] == Frames(Run(infos, leaves, |leaves|))
            && forall i :: 0 <= i < |leaves| ==> LeafLeads(frames[i], infos[i], leaves[i], frames[i + 1])
  {
    var infos, frames := Infos(fields, |fields|), AllFrames(fields, leaves);
    forall i | 0 <= i < |leaves| ensures LeafLeads(frames[i], infos[i], leaves[i], frames[i + 1]) {
      LeafAppends(fields, leaves, i);
    }
  }

  lemma {:induction false} BuiltRecord(fields: seq<Path>, leaves: seq<Leaf>)
    requires |leaves| == |fields| && Accepted(fields, |fields|)
    requires forall k :: 0 <= k < |leaves| ==> NoDuplicates(leaves[k].typ)
    ensures var infos := Infos(fields, |fields|);
            && Frames(Run(infos, leaves, |leaves|)) == [Z.EncodeValues(BuiltValue(infos, leaves).items)]
            && NoDuplicates(BuiltType(infos, leaves))
  {
    var infos := Infos(fields, |fields|);
    InfosOfInfos(fields, |fields|);
    ContainersBalance(fields, infos, leaves);
    OneLevel(Run(infos, leaves, |leaves|));
    BuiltWithoutDuplicates(fields, infos, leaves);
  }
}
