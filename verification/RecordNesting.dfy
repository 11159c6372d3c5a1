/** The records that a record builder builds: their nesting, their type and their bytes. */
module RecordNesting {
  import opened Wrappers
  import opened Uvarint
  import T = Types
  import Z = Zcode
  import ZB = ZcodeBuilder
  import opened RecordBuilders

  /** An open record: its name, the fields of its type so far, and their values. */
  datatype Level = Level(name: T.Name, fields: seq<T.Field>, values: seq<Z.Value>)

  const START: seq<Level> := [Level([], [], [])]

  function Open(s: seq<Level>, name: T.Name): (r: seq<Level>)
    ensures |r| == |s| + 1
  {
    s + [Level(name, [], [])]
  }

  function Put(s: seq<Level>, f: T.Field, v: Z.Value): (r: seq<Level>)
    requires s != []
    ensures |r| == |s|
  {
    var n := |s| - 1;
    s[n := Level(s[n].name, s[n].fields + [f], s[n].values + [v])]
  }

  function Close(s: seq<Level>): (r: seq<Level>)
    requires |s| > 1
    ensures |r| == |s| - 1
  {
    var n := |s| - 1;
    Put(s[..n], T.Field(s[n].name, T.Record(s[n].fields)), Z.Group(s[n].values))
  }

  /** The first `n` of these records. */
  function OpenFirst(s: seq<Level>, names: Path, n: nat): (r: seq<Level>)
    requires n <= |names|
    ensures |r| == |s| + n
  {
    if n == 0 then s else Open(OpenFirst(s, names, n - 1), names[n - 1])
  }

  function OpenAll(s: seq<Level>, names: Path): (r: seq<Level>)
    ensures |r| == |s| + |names|
  {
    OpenFirst(s, names, |names|)
  }

  function CloseMany(s: seq<Level>, n: nat): (r: seq<Level>)
    requires n < |s|
    ensures |r| == |s| - n
    decreases n
  {
    if n == 0 then s else Close(CloseMany(s, n - 1))
  }

  /** The names of the open records. */
  function OpenPath(s: seq<Level>): (r: Path)
    requires s != []
    ensures |r| == |s| - 1
  {
    seq(|s| - 1, k requires 0 <= k < |s| - 1 => s[k + 1].name)
  }

  // ---------------------------------------------------------------------------
  // The open containers spell the parent path

  lemma {:induction false} OpenFirstPath(s: seq<Level>, names: Path, n: nat)
    requires s != [] && n <= |names|
    ensures OpenPath(OpenFirst(s, names, n)) == OpenPath(s) + names[..n]
    decreases n
  {
    if n > 0 {
      OpenFirstPath(s, names, n - 1);
      assert OpenPath(OpenFirst(s, names, n)) == OpenPath(OpenFirst(s, names, n - 1)) + [names[n - 1]];
    }
  }

  lemma {:induction false} OpenAllPath(s: seq<Level>, names: Path)
    requires s != []
    ensures OpenPath(OpenAll(s, names)) == OpenPath(s) + names
  {
    OpenFirstPath(s, names, |names|);
    assert names[..|names|] == names;
  }

  lemma {:induction false} ClosePath(s: seq<Level>)
    requires |s| > 1
    ensures OpenPath(Close(s)) == OpenPath(s)[..|s| - 2]
  {
  }

  lemma {:induction false} CloseManyPath(s: seq<Level>, n: nat)
    requires n < |s|
    ensures OpenPath(CloseMany(s, n)) == OpenPath(s)[..|s| - 1 - n]
    decreases n
  {
    if n > 0 {
      CloseManyPath(s, n - 1);
      ClosePath(CloseMany(s, n - 1));
    }
  }

  /** The leaf of a field with its type and value. */
  datatype Leaf = Leaf(typ: T.Type, value: Z.Value)

  function LeafName(f: Path): T.Name {
    if f == [] then [] else f[|f| - 1]
  }

  /** A leaf between the records that open before it and those that close after it. */
  function Around(s: seq<Level>, begins: Path, f: T.Field, v: Z.Value, ends: nat): (r: seq<Level>)
    requires s != [] && ends < |s| + |begins|
    ensures |r| == |s| + |begins| - ends
  {
    CloseMany(Put(OpenAll(s, begins), f, v), ends)
  }

  lemma {:induction false} AroundPath(s: seq<Level>, rec: Path, pos: nat, f: T.Field, v: Z.Value, ends: nat)
    requires s != [] && pos <= |rec| && ends <= |rec| && OpenPath(s) == rec[..pos]
    ensures OpenPath(OpenAll(s, rec[pos..])) == rec
    ensures OpenPath(Put(OpenAll(s, rec[pos..]), f, v)) == rec
    ensures OpenPath(Around(s, rec[pos..], f, v, ends)) == rec[..|rec| - ends]
  {
    OpenAllPath(s, rec[pos..]);
    assert rec[..pos] + rec[pos..] == rec;
    var inside := OpenAll(s, rec[pos..]);
    assert OpenPath(Put(inside, f, v)) == OpenPath(inside);
    CloseManyPath(Put(inside, f, v), ends);
  }

  lemma {:induction false} SharedBound(fields: seq<Path>, i: nat)
    requires i < |fields|
    ensures Shared(fields, i + 1) <= |Record(fields, i)|
    ensures Record(fields, i)[..Shared(fields, i + 1)] == Record(fields, i + 1)[..Shared(fields, i + 1)]
    ensures InfoAt(fields, i).ends == |Record(fields, i)| - Shared(fields, i + 1)
  {
  }

  /** The records that are open between field `i` and the one before it. */
  function Base(fields: seq<Path>, i: nat): Path
    requires i <= |fields|
  {
    Record(fields, i)[..Shared(fields, i)]
  }

  /** One leaf; as it was where there is less to close than the info says and the program panics. */
  function LeafStep(s: seq<Level>, info: Info, leaf: Leaf): (r: seq<Level>)
    requires s != []
    ensures r != []
  {
    if info.ends < |s| + |info.begins| then
      Around(s, info.begins, T.Field(LeafName(info.field), leaf.typ), leaf.value, info.ends)
    else s
  }

  /** The first `i` leaves. */
  function Run(infos: seq<Info>, leaves: seq<Leaf>, i: nat): (s: seq<Level>)
    requires i <= |infos| == |leaves|
    ensures s != []
  {
    if i == 0 then START else LeafStep(Run(infos, leaves, i - 1), infos[i - 1], leaves[i - 1])
  }

  /** Nothing is open before the first and after the last field. */
  lemma {:induction false} NothingShared(fields: seq<Path>)
    ensures Base(fields, 0) == [] && Base(fields, |fields|) == []
    ensures OpenPath(START) == []
  {
  }

  lemma {:induction false} StepPath(fields: seq<Path>, i: nat, s: seq<Level>, info: Info, leaf: Leaf)
    requires i < |fields| && s != [] && OpenPath(s) == Base(fields, i) && info == InfoAt(fields, i)
    ensures info.ends < |s| + |info.begins|
    ensures OpenPath(OpenAll(s, info.begins)) == Record(fields, i)
    ensures OpenPath(LeafStep(s, info, leaf)) == Base(fields, i + 1)
  {
    SharedBound(fields, i);
    AroundPath(s, Record(fields, i), Shared(fields, i), T.Field(LeafName(info.field), leaf.typ), leaf.value, info.ends);
  }

  /** The infos of the first `i` fields are as NewRecordBuilder makes them. */
  ghost predicate InfosOf(fields: seq<Path>, infos: seq<Info>, i: nat)
    requires i <= |infos| == |fields|
  {
    i > 0 ==> infos[i - 1] == InfoAt(fields, i - 1) && InfosOf(fields, infos, i - 1)
  }

  lemma {:induction false} InfosOfInfos(fields: seq<Path>, i: nat)
    requires i <= |fields|
    ensures InfosOf(fields, Infos(fields, |fields|), i)
    decreases i
  {
    if i > 0 {
      InfosOfInfos(fields, i - 1);
      InfosAt(fields, |fields|, i - 1);
    }
  }

  lemma {:induction false} InfosOfAt(fields: seq<Path>, infos: seq<Info>, n: nat, i: nat)
    requires i < n <= |infos| == |fields| && InfosOf(fields, infos, n)
    ensures infos[i] == InfoAt(fields, i) && InfosOf(fields, infos, i)
    decreases n
  {
    if i < n - 1 {
      InfosOfAt(fields, infos, n - 1, i);
    }
  }

  lemma {:induction false} RunPath(fields: seq<Path>, infos: seq<Info>, leaves: seq<Leaf>, i: nat)
    requires i <= |infos| == |leaves| == |fields| && InfosOf(fields, infos, i)
    ensures OpenPath(Run(infos, leaves, i)) == Base(fields, i)
    decreases i
  {
    if i == 0 {
      NothingShared(fields);
    } else {
      RunPath(fields, infos, leaves, i - 1);
      StepPath(fields, i - 1, Run(infos, leaves, i - 1), infos[i - 1], leaves[i - 1]);
    }
  }

  /** The open containers at a leaf spell its parent path, and no more are closed than are open. */
  lemma {:induction false} OpenAtLeaf(fields: seq<Path>, infos: seq<Info>, leaves: seq<Leaf>, i: nat)
    requires i < |infos| == |leaves| == |fields| && InfosOf(fields, infos, |infos|)
    ensures OpenPath(OpenAll(Run(infos, leaves, i), infos[i].begins)) == Record(fields, i)
    ensures infos[i].ends < |Run(infos, leaves, i)| + |infos[i].begins|
  {
    InfosOfAt(fields, infos, |infos|, i);
    RunPath(fields, infos, leaves, i);
    StepPath(fields, i, Run(infos, leaves, i), infos[i], leaves[i]);
  }

  /** At the end every container is closed. */
  lemma {:induction false} ContainersBalance(fields: seq<Path>, infos: seq<Info>, leaves: seq<Leaf>)
    requires |infos| == |leaves| == |fields| && InfosOf(fields, infos, |infos|)
    ensures |Run(infos, leaves, |infos|)| == 1
  {
    RunPath(fields, infos, leaves, |infos|);
    NothingShared(fields);
  }

  // ---------------------------------------------------------------------------
  // The type has the nesting of the value

  type LeafTest = (T.Type, Z.Value) -> bool

  /** A value that is a leaf of its type, or a record with a value for every field. */
  predicate Shaped(ok: LeafTest, t: T.Type, v: Z.Value)
    decreases t
  {
    ok(t, v) || (t.Record? && v.Group? && |t.fields| == |v.items| && forall k :: 0 <= k < |t.fields| ==> Shaped(ok, t.fields[k].typ, v.items[k]))
  }

  predicate LevelShaped(ok: LeafTest, l: Level) {
    |l.fields| == |l.values| && forall k :: 0 <= k < |l.fields| ==> Shaped(ok, l.fields[k].typ, l.values[k])
  }

  predicate StackShaped(ok: LeafTest, s: seq<Level>) {
    forall k :: 0 <= k < |s| ==> LevelShaped(ok, s[k])
  }

  lemma {:induction false} PutShaped(ok: LeafTest, s: seq<Level>, f: T.Field, v: Z.Value)
    requires s != [] && StackShaped(ok, s) && Shaped(ok, f.typ, v)
    ensures StackShaped(ok, Put(s, f, v))
  {
    var n := |s| - 1;
    assert LevelShaped(ok, s[n]);
  }

  lemma {:induction false} CloseShaped(ok: LeafTest, s: seq<Level>)
    requires |s| > 1 && StackShaped(ok, s)
    ensures StackShaped(ok, Close(s))
  {
    var n := |s| - 1;
    assert LevelShaped(ok, s[n]);
    PutShaped(ok, s[..n], T.Field(s[n].name, T.Record(s[n].fields)), Z.Group(s[n].values));
  }

  lemma {:induction false} OpenFirstShaped(ok: LeafTest, s: seq<Level>, names: Path, n: nat)
    requires StackShaped(ok, s) && n <= |names|
    ensures StackShaped(ok, OpenFirst(s, names, n))
    decreases n
  {
    if n > 0 {
      OpenFirstShaped(ok, s, names, n - 1);
    }
  }

  lemma {:induction false} CloseManyShaped(ok: LeafTest, s: seq<Level>, n: nat)
    requires n < |s| && StackShaped(ok, s)
    ensures StackShaped(ok, CloseMany(s, n))
    decreases n
  {
    if n > 0 {
      CloseManyShaped(ok, s, n - 1);
      CloseShaped(ok, CloseMany(s, n - 1));
    }
  }

  predicate LeavesShaped(ok: LeafTest, leaves: seq<Leaf>) {
    forall i :: 0 <= i < |leaves| ==> ok(leaves[i].typ, leaves[i].value)
  }

  lemma {:induction false} RunShaped(ok: LeafTest, infos: seq<Info>, leaves: seq<Leaf>, i: nat)
    requires i <= |infos| == |leaves| && LeavesShaped(ok, leaves)
    ensures StackShaped(ok, Run(infos, leaves, i))
    decreases i
  {
    if i > 0 {
      RunShaped(ok, infos, leaves, i - 1);
      StepShaped(ok, Run(infos, leaves, i - 1), infos[i - 1], leaves[i - 1]);
    }
  }

  lemma {:induction false} StepShaped(ok: LeafTest, s: seq<Level>, info: Info, leaf: Leaf)
    requires s != [] && StackShaped(ok, s) && ok(leaf.typ, leaf.value)
    ensures StackShaped(ok, LeafStep(s, info, leaf))
  {
    if info.ends < |s| + |info.begins| {
      var f := T.Field(LeafName(info.field), leaf.typ);
      OpenFirstShaped(ok, s, info.begins, |info.begins|);
      PutShaped(ok, OpenAll(s, info.begins), f, leaf.value);
      CloseManyShaped(ok, Put(OpenAll(s, info.begins), f, leaf.value), info.ends);
    }
  }

  /** The record type that Type returns, and the values of its fields. */
  function BuiltType(infos: seq<Info>, leaves: seq<Leaf>): T.Type
    requires |infos| == |leaves|
  {
    T.Record(Run(infos, leaves, |infos|)[0].fields)
  }

  function BuiltValue(infos: seq<Info>, leaves: seq<Leaf>): Z.Value
    requires |infos| == |leaves|
  {
    Z.Group(Run(infos, leaves, |infos|)[0].values)
  }

  /** The typed record and the value have the same nesting. */
  lemma {:induction false} BuiltShaped(ok: LeafTest, infos: seq<Info>, leaves: seq<Leaf>)
    requires |infos| == |leaves| && LeavesShaped(ok, leaves)
    ensures Shaped(ok, BuiltType(infos, leaves), BuiltValue(infos, leaves))
  {
    RunShaped(ok, infos, leaves, |infos|);
    assert LevelShaped(ok, Run(infos, leaves, |infos|)[0]);
  }

  // ---------------------------------------------------------------------------
  // The bytes are the encoding of the value

  /** The value builder's open levels. */
  function Frames(s: seq<Level>): (r: seq<seq<byte>>)
    ensures |r| == |s|
  {
    seq(|s|, k requires 0 <= k < |s| => LevelBytes(s[k]))
  }

  function LevelBytes(l: Level): seq<byte> {
    Z.EncodeValues(l.values)
  }

  lemma {:induction false} PutBytes(s: seq<Level>, f: T.Field, v: Z.Value)
    requires s != []
    ensures ZB.Apply(Frames(s), ZB.Append(Z.ItemOf(v))) == Some(Frames(Put(s, f, v)))
  {
    var n := |s| - 1;
    Appended(s[n].values, v);
    assert Frames(Put(s, f, v)) == Frames(s)[n := Frames(s)[n] + Z.EncodeItem(Z.ItemOf(v))];
  }

  lemma {:induction false} Appended(vs: seq<Z.Value>, v: Z.Value)
    ensures Z.EncodeValues(vs + [v]) == Z.EncodeValues(vs) + Z.EncodeItem(Z.ItemOf(v))
  {
    Z.EncodeValuesAppend(vs, [v]);
    ZB.EncodeOne(v);
  }

  lemma {:induction false} OpenBytes(s: seq<Level>, name: T.Name)
    requires s != []
    ensures ZB.Apply(Frames(s), ZB.Begin) == Some(Frames(Open(s, name)))
  {
    assert Z.EncodeValues([]) == [];
    assert Frames(Open(s, name)) == Frames(s) + [[]];
  }

  lemma {:induction false} CloseBytes(s: seq<Level>)
    requires |s| > 1
    ensures ZB.Apply(Frames(s), ZB.End) == Some(Frames(Close(s)))
  {
    var n := |s| - 1;
    var group := Z.Group(s[n].values);
    PutBytes(s[..n], T.Field(s[n].name, T.Record(s[n].fields)), group);
    assert Frames(s[..n]) == Frames(s)[..n];
    assert Z.ItemOf(group) == Some(Frames(s)[n]);
  }

  lemma {:induction false} OpenFirstBytes(s: seq<Level>, names: Path, n: nat)
    requires s != [] && n <= |names|
    ensures ZB.ApplyAll(Frames(s), Repeat(ZB.Begin, n)) == Some(Frames(OpenFirst(s, names, n)))
    decreases n
  {
    if n > 0 {
      var t := OpenFirst(s, names, n - 1);
      OpenFirstBytes(s, names, n - 1);
      OpenBytes(t, names[n - 1]);
      OneMore(Frames(s), Repeat(ZB.Begin, n - 1), ZB.Begin, Frames(t));
    }
  }

  lemma {:induction false} CloseManyBytes(s: seq<Level>, n: nat)
    requires n < |s|
    ensures ZB.ApplyAll(Frames(s), Repeat(ZB.End, n)) == Some(Frames(CloseMany(s, n)))
    decreases n
  {
    if n > 0 {
      var t := CloseMany(s, n - 1);
      CloseManyBytes(s, n - 1);
      CloseBytes(t);
      OneMore(Frames(s), Repeat(ZB.End, n - 1), ZB.End, Frames(t));
    }
  }

  lemma {:induction false} OneMore(frames: seq<seq<byte>>, ops: seq<ZB.Op>, op: ZB.Op, mid: seq<seq<byte>>)
    requires frames != [] && mid != [] && ZB.ApplyAll(frames, ops) == Some(mid)
    ensures ZB.ApplyAll(frames, ops + [op]) == ZB.Apply(mid, op)
  {
    MoreOps(frames, ops, [op], mid);
    OneOp(mid, op);
  }

  lemma {:induction false} AroundBytes(s: seq<Level>, info: Info, f: T.Field, v: Z.Value)
    requires s != [] && info.ends < |s| + |info.begins|
    ensures ZB.ApplyAll(Frames(s), LeafOps(info, Z.ItemOf(v))) == Some(Frames(Around(s, info.begins, f, v, info.ends)))
  {
    var begins, ends, one := Repeat(ZB.Begin, |info.begins|), Repeat(ZB.End, info.ends), [ZB.Append(Z.ItemOf(v))];
    var inside := OpenAll(s, info.begins);
    OpenFirstBytes(s, info.begins, |info.begins|);
    PutBytes(inside, f, v);
    CloseManyBytes(Put(inside, f, v), info.ends);
    ZB.ApplyAppend(Frames(s), begins, one + ends);
    ZB.ApplyAppend(Frames(inside), one, ends);
    OneOp(Frames(inside), one[0]);
    assert LeafOps(info, Z.ItemOf(v)) == begins + (one + ends);
  }

  lemma {:induction false} OneOp(frames: seq<seq<byte>>, op: ZB.Op)
    requires frames != []
    ensures ZB.ApplyAll(frames, [op]) == ZB.Apply(frames, op)
  {
    assert [op][1..] == [];
  }

  /** All the calls to the value builder for the first `i` leaves. */
  function AllOps(infos: seq<Info>, leaves: seq<Leaf>, i: nat): seq<ZB.Op>
    requires i <= |infos| == |leaves|
  {
    if i == 0 then [] else AllOps(infos, leaves, i - 1) + LeafOps(infos[i - 1], Z.ItemOf(leaves[i - 1].value))
  }

  /** The first `i` leaves never close more than is open. */
  predicate Enough(infos: seq<Info>, leaves: seq<Leaf>, i: nat)
    requires i <= |infos| == |leaves|
  {
    i > 0 ==> infos[i - 1].ends < |Run(infos, leaves, i - 1)| + |infos[i - 1].begins| && Enough(infos, leaves, i - 1)
  }

  lemma {:induction false} EnoughOpen(fields: seq<Path>, infos: seq<Info>, leaves: seq<Leaf>, i: nat)
    requires i <= |infos| == |leaves| == |fields| && InfosOf(fields, infos, |infos|)
    ensures Enough(infos, leaves, i)
    decreases i
  {
    if i > 0 {
      EnoughOpen(fields, infos, leaves, i - 1);
      OpenAtLeaf(fields, infos, leaves, i - 1);
    }
  }

  /** Appending the leaves never panics and leaves the encoding of the nested value. */
  lemma {:induction false} BytesOfRun(infos: seq<Info>, leaves: seq<Leaf>, i: nat)
    requires i <= |infos| == |leaves|
    requires Enough(infos, leaves, i)
    ensures ZB.ApplyAll([[]], AllOps(infos, leaves, i)) == Some(Frames(Run(infos, leaves, i)))
    decreases i
  {
    if i == 0 {
      StartBytes();
    } else {
      var s, info, leaf := Run(infos, leaves, i - 1), infos[i - 1], leaves[i - 1];
      BytesOfRun(infos, leaves, i - 1);
      AroundBytes(s, info, T.Field(LeafName(info.field), leaf.typ), leaf.value);
      MoreOps([[]], AllOps(infos, leaves, i - 1), LeafOps(info, Z.ItemOf(leaf.value)), Frames(s));
    }
  }

  lemma {:induction false} StartBytes()
    ensures Frames(START) == [[]]
  {
    assert LevelBytes(START[0]) == [];
    OneLevel(START);
  }

  lemma {:induction false} MoreOps(frames: seq<seq<byte>>, a: seq<ZB.Op>, b: seq<ZB.Op>, mid: seq<seq<byte>>)
    requires frames != [] && mid != [] && ZB.ApplyAll(frames, a) == Some(mid)
    ensures ZB.ApplyAll(frames, a + b) == ZB.ApplyAll(mid, b)
  {
    ZB.ApplyAppend(frames, a, b);
  }

  /** The builder ends with one level that encodes the fields of the built value. */
  lemma {:induction false} BuiltBytes(fields: seq<Path>, infos: seq<Info>, leaves: seq<Leaf>)
    requires |infos| == |leaves| == |fields| && InfosOf(fields, infos, |infos|)
    ensures ZB.ApplyAll([[]], AllOps(infos, leaves, |infos|)) == Some([Z.EncodeValues(BuiltValue(infos, leaves).items)])
  {
    EnoughOpen(fields, infos, leaves, |infos|);
    BytesOfRun(infos, leaves, |infos|);
    ContainersBalance(fields, infos, leaves);
    OneLevel(Run(infos, leaves, |infos|));
  }

  lemma {:induction false} OneLevel(s: seq<Level>)
    requires |s| == 1
    ensures Frames(s) == [Z.EncodeValues(s[0].values)]
  {
  }
}
