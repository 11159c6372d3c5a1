/**
 The encoder tree of a VNG object.  Each value written to it is taken apart and its
 pieces are appended to columns; `Written` says which pieces each column holds.
 */
module VngEncoders {
  import opened Wrappers
  import opened Uvarint
  import opened Counted
  import opened Zcode
  import opened Types
  import opened VngColumns
  import opened VngPrimitives

  datatype Encoder =
    | NamedEncoder(values: Encoder, name: Name)
    | ErrorEncoder(values: Encoder)
    | NullsEncoder(values: Encoder, runs: Column, run: int64, isNull: bool, count: nat)
    | RecordEncoder(names: seq<Name>, fields: seq<Encoder>, count: nat)
    | ArrayEncoder(elems: Encoder, lengths: Column, count: nat, isSet: bool)
    | MapEncoder(keys: Encoder, vals: Encoder, lengths: Column, count: nat)
    | UnionEncoder(types: seq<Type>, members: seq<Encoder>, tags: Column, count: nat)
    | PrimitiveEncoder(column: Column)

  function NewIntColumn(): Column {
    NewColumn(Primitive(ID_INT64), false)
  }

  function NewEncoder(t: Type): Encoder {
    match t
    case Named(name, inner) => NamedEncoder(NewEncoder(inner), name)
    case Error(inner) => ErrorEncoder(NewEncoder(inner))
    case Record(fields) =>
      NewNulls(RecordEncoder(FieldNames(fields), seq(|fields|, i requires 0 <= i < |fields| => NewEncoder(fields[i].typ)), 0))
    case Array(elem) => NewNulls(ArrayEncoder(NewEncoder(elem), NewIntColumn(), 0, false))
    case Set(elem) => NewNulls(ArrayEncoder(NewEncoder(elem), NewIntColumn(), 0, true))
    case Map(key, val) => NewNulls(MapEncoder(NewEncoder(key), NewEncoder(val), NewIntColumn(), 0))
    case Union(types) =>
      NewNulls(UnionEncoder(types, seq(|types|, i requires 0 <= i < |types| => NewEncoder(types[i])), NewIntColumn(), 0))
    case Primitive(_) => NewNulls(PrimitiveEncoder(NewColumn(t, true)))
    case Enum(_) => NewNulls(PrimitiveEncoder(NewColumn(t, true)))
  }

  function NewNulls(values: Encoder): Encoder {
    NullsEncoder(values, NewIntColumn(), 0, false, 0)
  }

  // ---------------------------------------------------------------------------
  // Writing

  /** A union value: its tag and the value it tags. */
  predicate IsTagged(v: Value) {
    v.Group? && |v.items| == 2 && v.items[0].Bytes?
  }

  function TagIn(v: Value): int64 {
    if IsTagged(v) then DecodeInt(v.items[0].body) else -1
  }

  /** touchValue and touchNull. */
  function TouchNulls(values: Encoder, runs: Column, run: int64, wasNull: bool, count: nat, isNull: bool): Encoder {
    var nulls := if isNull then Inc(count) else count;
    if wasNull == isNull then NullsEncoder(values, runs, Wrap(run + 1), isNull, nulls)
    else NullsEncoder(values, WriteInt(runs, run), 1, isNull, nulls)
  }

  /** The encoder after a value; as it was where the value is not of its type and the program panics. */
  function Write(e: Encoder, v: Value): Encoder
    decreases v, e
  {
    match e
    case NamedEncoder(values, name) => NamedEncoder(Write(values, v), name)
    case ErrorEncoder(values) => ErrorEncoder(Write(values, v))
    case NullsEncoder(values, runs, run, isNull, count) =>
      if v.Null? then TouchNulls(values, runs, run, isNull, count, true)
      else TouchNulls(Write(values, v), runs, run, isNull, count, false)
    case RecordEncoder(names, fields, count) =>
      if v.Group? && |v.items| >= |fields| then
        RecordEncoder(names, WriteFields(fields, v.items), Inc(count))
      else e
    case ArrayEncoder(elems, lengths, count, isSet) =>
      if v.Group? then
        ArrayEncoder(WriteAll(elems, v.items), WriteInt(lengths, Wrap(|v.items|)), Inc(count), isSet)
      else e
    case MapEncoder(keys, vals, lengths, count) =>
      if v.Group? then
        var (ks, vs) := WriteEntries(keys, vals, v.items);
        MapEncoder(ks, vs, WriteInt(lengths, Wrap(|v.items| / 2)), Inc(count))
      else e
    case UnionEncoder(types, members, tags, count) =>
      if IsTagged(v) && 0 <= TagIn(v) < |types| && |types| == |members| then
        var tag := TagOf(types, types[TagIn(v)]);
        UnionEncoder(types, members[tag := Write(members[tag], v.items[1])],
                     WriteInt(tags, Wrap(tag)), Inc(count))
      else e
    case PrimitiveEncoder(column) =>
      if v.Bytes? then PrimitiveEncoder(WriteColumn(column, v.body)) else e
  }

  function WriteFields(fields: seq<Encoder>, vs: seq<Value>): (r: seq<Encoder>)
    requires |vs| >= |fields|
    ensures |r| == |fields| && forall i :: 0 <= i < |r| ==> r[i] == Write(fields[i], vs[i])
    decreases vs
  {
    if fields == [] then [] else [Write(fields[0], vs[0])] + WriteFields(fields[1..], vs[1..])
  }

  function WriteAll(e: Encoder, vs: seq<Value>): Encoder
    decreases vs
  {
    if vs == [] then e else WriteAll(Write(e, vs[0]), vs[1..])
  }

  function WriteEntries(keys: Encoder, vals: Encoder, items: seq<Value>): (Encoder, Encoder)
    decreases items
  {
    if |items| < 2 then (keys, vals)
    else WriteEntries(Write(keys, items[0]), Write(vals, items[1]), items[1..][1..])
  }

  // ---------------------------------------------------------------------------
  // Values of a type

  /** A value of the type, with sizes that fit the 64-bit integers they are written as. */
  predicate HasType(t: Type, v: Value)
    decreases v, t
  {
    match t
    case Named(_, inner) => HasType(inner, v)
    case Error(inner) => HasType(inner, v)
    case Record(fields) => v.Null? || (v.Group? && |v.items| == |fields| && HaveFields(fields, v.items))
    case Array(elem) => v.Null? || (v.Group? && |v.items| < INT64_LIMIT && HaveType(elem, v.items))
    case Set(elem) => v.Null? || (v.Group? && |v.items| < INT64_LIMIT && HaveType(elem, v.items))
    case Map(key, val) => v.Null? || (v.Group? && |v.items| < INT64_LIMIT && HaveTypes(key, val, v.items))
    case Union(types) =>
      v.Null? || (IsTagged(v) && 0 <= TagIn(v) < |types| < INT64_LIMIT && HasType(types[TagIn(v)], v.items[1]))
    case Primitive(_) => v.Null? || (v.Bytes? && Fits(Some(v.body)))
    case Enum(_) => v.Null? || (v.Bytes? && Fits(Some(v.body)))
  }

  predicate HaveFields(fields: seq<Field>, vs: seq<Value>)
    requires |fields| == |vs|
    decreases vs
  {
    forall i :: 0 <= i < |fields| ==> HasType(fields[i].typ, vs[i])
  }

  predicate HaveType(t: Type, vs: seq<Value>)
    decreases vs
  {
    vs != [] ==> HasType(t, vs[0]) && HaveType(t, vs[1..])
  }

  predicate HaveTypes(key: Type, val: Type, items: seq<Value>)
    decreases items
  {
    if |items| < 2 then items == []
    else HasType(key, items[0]) && HasType(val, items[1]) && HaveTypes(key, val, items[1..][1..])
  }

  /** A value with every tag replaced by the one that the lookup table gives its member type. */
  function Canon(t: Type, v: Value): (r: Value)
    ensures r.Null? <==> v.Null?
    decreases v, t
  {
    match t
    case Named(_, inner) => Canon(inner, v)
    case Error(inner) => Canon(inner, v)
    case Record(fields) => if v.Group? then Group(CanonFields(fields, v.items)) else v
    case Array(elem) => if v.Group? then Group(Canons(elem, v.items)) else v
    case Set(elem) => if v.Group? then Group(Canons(elem, v.items)) else v
    case Map(key, val) => if v.Group? then Group(CanonEntries(key, val, v.items)) else v
    case Union(types) =>
      if IsTagged(v) && 0 <= TagIn(v) < |types| then
        var typ := types[TagIn(v)];
        Tagged(TagOf(types, typ), Canon(typ, v.items[1]))
      else v
    case Primitive(_) => v
    case Enum(_) => v
  }

  function Tagged(tag: int, inner: Value): Value {
    Group([Bytes(EncodeInt(Wrap(tag))), inner])
  }

  function CanonFields(fields: seq<Field>, vs: seq<Value>): (r: seq<Value>)
    ensures |r| == |vs|
    ensures forall i :: 0 <= i < |vs| && i < |fields| ==> r[i] == Canon(fields[i].typ, vs[i])
    decreases vs
  {
    if vs == [] || fields == [] then vs else [Canon(fields[0].typ, vs[0])] + CanonFields(fields[1..], vs[1..])
  }

  function Canons(t: Type, vs: seq<Value>): (r: seq<Value>)
    ensures |r| == |vs|
    decreases vs
  {
    if vs == [] then [] else [Canon(t, vs[0])] + Canons(t, vs[1..])
  }

  function CanonEntries(key: Type, val: Type, items: seq<Value>): (r: seq<Value>)
    ensures |r| == |items|
    decreases items
  {
    if |items| < 2 then items
    else [Canon(key, items[0]), Canon(val, items[1])] + CanonEntries(key, val, items[1..][1..])
  }

  // ---------------------------------------------------------------------------
  // The pieces that a column takes from a value

  datatype Pick = Present | At(i: nat) | All | Keys | Vals | Member(tag: nat)

  function Evens(s: seq<Value>): seq<Value> {
    if s == [] then [] else [s[0]] + Odds(s[1..])
  }

  function Odds(s: seq<Value>): seq<Value> {
    if s == [] then [] else Evens(s[1..])
  }

  function Part(p: Pick, v: Value): seq<Value> {
    match p
    case Present => if v.Null? then [] else [v]
    case At(i) => if v.Group? && i < |v.items| then [v.items[i]] else []
    case All => if v.Group? then v.items else []
    case Keys => if v.Group? then Evens(v.items) else []
    case Vals => if v.Group? then Odds(v.items) else []
    case Member(tag) => if IsTagged(v) && TagIn(v) == tag then [v.items[1]] else []
  }

  function Parts(p: Pick, vs: seq<Value>): seq<Value>
    decreases |vs|
  {
    if vs == [] then [] else Part(p, vs[0]) + Parts(p, vs[1..])
  }

  lemma {:induction false} PartsAppend(p: Pick, a: seq<Value>, b: seq<Value>)
    ensures Parts(p, a + b) == Parts(p, a) + Parts(p, b)
    decreases |a|
  {
    if a == [] {
      assert a + b == b;
    } else {
      assert (a + b)[1..] == a[1..] + b;
      PartsAppend(p, a[1..], b);
    }
  }

  lemma {:induction false} PartsSnoc(p: Pick, vs: seq<Value>, v: Value)
    ensures Parts(p, vs + [v]) == Parts(p, vs) + Part(p, v)
  {
    PartsAppend(p, vs, [v]);
    assert [v][1..] == [];
    assert Parts(p, [v]) == Part(p, v) + [];
  }

  function Len(v: Value): nat {
    if v.Group? then |v.items| else 0
  }

  function Lengths(vs: seq<Value>, size: nat): (r: seq<int64>)
    requires size > 0
    ensures |r| == |vs|
  {
    seq(|vs|, i requires 0 <= i < |vs| => Wrap(Len(vs[i]) / size))
  }

  function Tags(vs: seq<Value>): (r: seq<int64>)
    ensures |r| == |vs|
  {
    seq(|vs|, i requires 0 <= i < |vs| => TagIn(vs[i]))
  }

  function Bodies(vs: seq<Value>): (r: seq<Body>)
    ensures |r| == |vs|
  {
    seq(|vs|, i requires 0 <= i < |vs| => if vs[i].Bytes? then vs[i].body else [])
  }

  function NullFlags(vs: seq<Value>): (r: seq<bool>)
    ensures |r| == |vs|
  {
    seq(|vs|, i requires 0 <= i < |vs| => vs[i].Null?)
  }

  /** The encoder of a type after these values, tagged as the lookup table says. */
  function Written(t: Type, vs: seq<Value>): Encoder
    decreases t, 1
  {
    match t
    case Named(name, inner) => NamedEncoder(Written(inner, vs), name)
    case Error(inner) => ErrorEncoder(Written(inner, vs))
    case _ =>
      NullsOf(Filled(t, Parts(Present, vs)), RunsOf(NullFlags(vs)))
  }

  function NullsOf(values: Encoder, r: Runs): Encoder {
    NullsEncoder(values, IntColumn(r.closed), r.run, r.isNull, r.count)
  }

  /** The encoder under a NullsEncoder, which only sees values that are not null. */
  function Filled(t: Type, vs: seq<Value>): Encoder
    requires !t.Named? && !t.Error?
    decreases t, 0
  {
    match t
    case Record(fields) =>
      RecordEncoder(FieldNames(fields), WrittenFields(fields, vs), Count(|vs|))
    case Array(elem) => ArrayEncoder(Written(elem, Parts(All, vs)), IntColumn(Lengths(vs, 1)), Count(|vs|), false)
    case Set(elem) => ArrayEncoder(Written(elem, Parts(All, vs)), IntColumn(Lengths(vs, 1)), Count(|vs|), true)
    case Map(key, val) =>
      MapEncoder(Written(key, Parts(Keys, vs)), Written(val, Parts(Vals, vs)), IntColumn(Lengths(vs, 2)), Count(|vs|))
    case Union(types) =>
      UnionEncoder(types, WrittenMembers(types, vs), IntColumn(Tags(vs)), Count(|vs|))
    case Primitive(_) => PrimitiveEncoder(ColumnOf(t, true, Bodies(vs)))
    case Enum(_) => PrimitiveEncoder(ColumnOf(t, true, Bodies(vs)))
  }

  function WrittenFields(fields: seq<Field>, vs: seq<Value>): (r: seq<Encoder>)
    ensures |r| == |fields|
    decreases fields, 2
  {
    seq(|fields|, i requires 0 <= i < |fields| => Written(fields[i].typ, Parts(At(i), vs)))
  }

  function WrittenMembers(types: seq<Type>, vs: seq<Value>): (r: seq<Encoder>)
    ensures |r| == |types|
    decreases types, 2
  {
    seq(|types|, i requires 0 <= i < |types| => Written(types[i], Parts(Member(i), vs)))
  }

  // ---------------------------------------------------------------------------
  // Write keeps the encoder what Written says it is

  lemma {:induction false} EmptyColumn(t: Type, useDict: bool)
    ensures NewColumn(t, useDict) == ColumnOf(t, useDict, [])
  {
    assert Elements([]) == {} && Somes([]) == [];
  }

  lemma {:induction false} EmptyIntColumn()
    ensures NewIntColumn() == IntColumn([])
  {
  }

  lemma {:induction false} NewIsWritten(t: Type)
    ensures NewEncoder(t) == Written(t, [])
  {
    EmptyIntColumn();
    assert Bodies([]) == [] && NullFlags([]) == [];
    assert Lengths([], 1) == [] && Lengths([], 2) == [] && Tags([]) == [];
    match t
    case Named(_, inner) => NewIsWritten(inner);
    case Error(inner) => NewIsWritten(inner);
    case Record(fields) =>
      forall i | 0 <= i < |fields| ensures NewEncoder(fields[i].typ) == Written(fields[i].typ, []) {
        NewIsWritten(fields[i].typ);
      }
      assert NewEncoder(t).values.fields == WrittenFields(fields, []);
    case Array(elem) => NewIsWritten(elem);
    case Set(elem) => NewIsWritten(elem);
    case Map(key, val) => NewIsWritten(key); NewIsWritten(val);
    case Union(types) =>
      forall i | 0 <= i < |types| ensures NewEncoder(types[i]) == Written(types[i], []) {
        NewIsWritten(types[i]);
      }
      assert NewEncoder(t).values.members == WrittenMembers(types, []);
    case _ => EmptyColumn(t, true);
  }

  lemma {:induction false} TouchKeeps(values: Encoder, r: Runs, f: bool)
    ensures TouchNulls(values, IntColumn(r.closed), r.run, r.isNull, r.count, f) == NullsOf(values, Touch(r, f))
  {
    WriteIntColumn(r.closed, r.run);
  }

  lemma {:induction false} RunsSnoc(vs: seq<Value>, v: Value)
    ensures RunsOf(NullFlags(vs + [v])) == Touch(RunsOf(NullFlags(vs)), v.Null?)
  {
    var flags := NullFlags(vs + [v]);
    assert flags[..|vs|] == NullFlags(vs) && flags[|vs|] == v.Null?;
  }

  lemma {:induction false} WriteNulls(before: Encoder, after: Encoder, r: Runs, v: Value)
    requires after == if v.Null? then before else Write(before, v)
    ensures Write(NullsOf(before, r), v) == NullsOf(after, Touch(r, v.Null?))
  {
    TouchKeeps(after, r, v.Null?);
  }

  lemma {:induction false} LengthsKept(vs: seq<Value>, c: Value, size: nat, n: nat)
    requires size > 0 && n == Len(c) / size
    ensures WriteInt(IntColumn(Lengths(vs, size)), Wrap(n)) == IntColumn(Lengths(vs + [c], size))
  {
    WriteIntColumn(Lengths(vs, size), Wrap(n));
    assert Lengths(vs + [c], size) == Lengths(vs, size) + [Wrap(n)];
  }

  lemma {:induction false} TagsKept(vs: seq<Value>, tag: int64, inner: Value)
    ensures TagIn(Tagged(tag, inner)) == tag
    ensures WriteInt(IntColumn(Tags(vs)), tag) == IntColumn(Tags(vs + [Tagged(tag, inner)]))
  {
    DecodeEncodeInt(tag);
    WriteIntColumn(Tags(vs), tag);
    assert Tags(vs + [Tagged(tag, inner)]) == Tags(vs) + [tag];
  }

  lemma {:induction false} WriteArray(elems: Encoder, vs: seq<Value>, v: Value, c: Value, isSet: bool)
    requires v.Group? && c.Group? && |c.items| == |v.items|
    ensures Write(ArrayEncoder(elems, IntColumn(Lengths(vs, 1)), Count(|vs|), isSet), v)
         == ArrayEncoder(WriteAll(elems, v.items), IntColumn(Lengths(vs + [c], 1)), Count(|vs| + 1), isSet)
  {
    LengthsKept(vs, c, 1, |v.items|);
  }

  lemma {:induction false} WriteMap(keys: Encoder, vals: Encoder, ks: Encoder, ws: Encoder, vs: seq<Value>, v: Value, c: Value)
    requires v.Group? && c.Group? && |c.items| == |v.items| && WriteEntries(keys, vals, v.items) == (ks, ws)
    ensures Write(MapEncoder(keys, vals, IntColumn(Lengths(vs, 2)), Count(|vs|)), v)
         == MapEncoder(ks, ws, IntColumn(Lengths(vs + [c], 2)), Count(|vs| + 1))
  {
    LengthsKept(vs, c, 2, |v.items| / 2);
  }

  lemma {:induction false} WriteUnion(types: seq<Type>, members: seq<Encoder>, tag: int64, vs: seq<Value>, v: Value, inner: Value)
    requires IsTagged(v) && 0 <= TagIn(v) < |types| == |members|
    requires tag == TagOf(types, types[TagIn(v)])
    ensures Write(UnionEncoder(types, members, IntColumn(Tags(vs)), Count(|vs|)), v)
         == UnionEncoder(types, members[tag := Write(members[tag], v.items[1])],
                         IntColumn(Tags(vs + [Tagged(tag, inner)])), Count(|vs| + 1))
  {
    TagsKept(vs, tag, inner);
    WriteUnionStep(types, members, tag, IntColumn(Tags(vs)), Count(|vs|), v,
                   IntColumn(Tags(vs + [Tagged(tag, inner)])), Count(|vs| + 1));
  }

  lemma {:induction false} WriteUnionStep(types: seq<Type>, members: seq<Encoder>, tag: int64, tags: Column, count: nat, v: Value,
                                          more: Column, next: nat)
    requires IsTagged(v) && 0 <= TagIn(v) < |types| == |members|
    requires tag == TagOf(types, types[TagIn(v)])
    requires more == WriteInt(tags, tag) && next == Inc(count)
    ensures Write(UnionEncoder(types, members, tags, count), v)
         == UnionEncoder(types, members[tag := Write(members[tag], v.items[1])], more, next)
  {
  }

  lemma {:induction false} BodiesKept(t: Type, vs: seq<Value>, v: Value)
    requires v.Bytes?
    ensures WriteColumn(ColumnOf(t, true, Bodies(vs)), v.body) == ColumnOf(t, true, Bodies(vs + [v]))
  {
    WriteColumnOf(t, true, Bodies(vs), v.body);
    assert Bodies(vs + [v]) == Bodies(vs) + [v.body];
  }

  /** Writing an item adds a piece to the column, whatever it holds. */
  ghost predicate Adds(w: seq<Value> -> Encoder, item: Value, piece: Value) {
    forall us :: Write(w(us), item) == w(us + [piece])
  }

  /** A run of writes, when every single one adds its piece. */
  lemma {:induction false} WriteAllFolds(w: seq<Value> -> Encoder, vs: seq<Value>, items: seq<Value>, pieces: seq<Value>, k: nat)
    requires k <= |items| == |pieces|
    requires forall i :: 0 <= i < |items| ==> Adds(w, items[i], pieces[i])
    ensures WriteAll(w(vs + pieces[..k]), items[k..]) == w(vs + pieces)
    decreases |items| - k
  {
    if k == |items| {
      assert pieces[..k] == pieces;
    } else {
      assert Adds(w, items[k], pieces[k]);
      assert vs + pieces[..k] + [pieces[k]] == vs + pieces[..k + 1];
      assert items[k..][0] == items[k] && items[k..][1..] == items[k + 1..];
      WriteAllFolds(w, vs, items, pieces, k + 1);
    }
  }

  lemma {:induction false} WriteEntriesSplits(keys: Encoder, vals: Encoder, items: seq<Value>)
    requires |items| % 2 == 0
    ensures WriteEntries(keys, vals, items) == (WriteAll(keys, Evens(items)), WriteAll(vals, Odds(items)))
    decreases |items|
  {
    if items != [] {
      var more := items[1..][1..];
      WriteEntriesSplits(Write(keys, items[0]), Write(vals, items[1]), more);
      assert Evens(items) == [items[0]] + Evens(more);
      assert Odds(items) == [items[1]] + Odds(more);
    }
  }

  lemma {:induction false} WriteBoth(keys: Encoder, vals: Encoder, items: seq<Value>, ks: Encoder, ws: Encoder)
    requires |items| % 2 == 0 && WriteAll(keys, Evens(items)) == ks && WriteAll(vals, Odds(items)) == ws
    ensures WriteEntries(keys, vals, items) == (ks, ws)
  {
    WriteEntriesSplits(keys, vals, items);
  }

  lemma {:induction false} CanonsAt(t: Type, vs: seq<Value>)
    requires HaveType(t, vs)
    ensures forall i :: 0 <= i < |vs| ==> HasType(t, vs[i]) && Canons(t, vs)[i] == Canon(t, vs[i])
    decreases |vs|
  {
    if vs != [] {
      CanonsAt(t, vs[1..]);
      assert forall i :: 0 < i < |vs| ==> vs[i] == vs[1..][i - 1];
    }
  }

  lemma {:induction false} EntriesSplit(key: Type, val: Type, items: seq<Value>)
    requires HaveTypes(key, val, items)
    ensures |items| % 2 == 0
    ensures HaveType(key, Evens(items)) && HaveType(val, Odds(items))
    ensures Evens(CanonEntries(key, val, items)) == Canons(key, Evens(items))
    ensures Odds(CanonEntries(key, val, items)) == Canons(val, Odds(items))
    decreases |items|
  {
    if items != [] {
      var more := items[1..][1..];
      EntriesSplit(key, val, more);
      EvensOfPair(items[0], items[1], more);
      assert items == [items[0], items[1]] + more;
      EvensOfPair(Canon(key, items[0]), Canon(val, items[1]), CanonEntries(key, val, more));
      assert ([items[0]] + Evens(more))[1..] == Evens(more);
      assert ([items[1]] + Odds(more))[1..] == Odds(more);
    }
  }

  lemma {:induction false} EvensOfPair(k: Value, v: Value, more: seq<Value>)
    ensures Evens([k, v] + more) == [k] + Evens(more)
    ensures Odds([k, v] + more) == [v] + Odds(more)
  {
    var s := [k, v] + more;
    assert s[1..] == [v] + more && s[1..][1..] == more;
  }

  lemma {:induction false} EvensSmaller(items: seq<Value>, whole: Value)
    requires forall i :: 0 <= i < |items| ==> items[i] < whole
    ensures forall i :: 0 <= i < |Evens(items)| ==> Evens(items)[i] < whole
    ensures forall i :: 0 <= i < |Odds(items)| ==> Odds(items)[i] < whole
    decreases |items|
  {
    if items != [] {
      EvensSmaller(items[1..], whole);
    }
  }

  /** Writing a value to an encoder adds its pieces, with the lookup table's tags, to the columns. */
  lemma {:induction false} WriteKeeps(t: Type, vs: seq<Value>, v: Value)
    requires HasType(t, v)
    ensures Write(Written(t, vs), v) == Written(t, vs + [Canon(t, v)])
    decreases v, t, 5
  {
    match t
    case Named(_, inner) => WriteKeeps(inner, vs, v);
    case Error(inner) => WriteKeeps(inner, vs, v);
    case _ =>
      var c, present := Canon(t, v), Parts(Present, vs);
      RunsSnoc(vs, c);
      PartsSnoc(Present, vs, c);
      if v.Null? {
        assert Parts(Present, vs + [c]) == present;
        WriteNulls(Filled(t, present), Filled(t, present), RunsOf(NullFlags(vs)), v);
      } else {
        FillKeeps(t, present, v);
        WriteNulls(Filled(t, present), Filled(t, present + [c]), RunsOf(NullFlags(vs)), v);
      }
  }

  /** Writing the value adds its canonical form to the encoder. */
  ghost predicate Fills(t: Type, vs: seq<Value>, v: Value)
    requires !t.Named? && !t.Error?
  {
    Write(Filled(t, vs), v) == Filled(t, vs + [Canon(t, v)])
  }

  lemma {:induction false} FillKeeps(t: Type, vs: seq<Value>, v: Value)
    requires HasType(t, v) && !v.Null? && !t.Named? && !t.Error?
    ensures Fills(t, vs, v)
    decreases v, t, 4
  {
    match t
    case Record(fields) => RecordKeeps(fields, vs, v);
    case Array(_) => ListKeeps(t, vs, v);
    case Set(_) => ListKeeps(t, vs, v);
    case Map(key, val) => EntriesKeep(key, val, vs, v);
    case Union(types) => UnionKeeps(types, vs, v);
    case Primitive(_) => BodyKeeps(t, vs, v);
    case Enum(_) => BodyKeeps(t, vs, v);
  }

  lemma {:induction false} BodyKeeps(t: Type, vs: seq<Value>, v: Value)
    requires v.Bytes? && (t.Primitive? || t.Enum?)
    ensures Fills(t, vs, v)
  {
    BodiesKept(t, vs, v);
  }

  lemma {:induction false} RecordKeeps(fields: seq<Field>, vs: seq<Value>, v: Value)
    requires HasType(Record(fields), v) && v.Group?
    ensures Fills(Record(fields), vs, v)
    decreases v, Record(fields), 2
  {
    FillRecord(fields, vs, v);
  }

  lemma {:induction false} ListKeeps(t: Type, vs: seq<Value>, v: Value)
    requires (t.Array? || t.Set?) && HasType(t, v) && v.Group?
    ensures Fills(t, vs, v)
    decreases v, t, 3
  {
    ArrayKeeps(t.elem, t.Set?, vs, v);
  }

  lemma {:induction false} ArrayKeeps(elem: Type, isSet: bool, vs: seq<Value>, v: Value)
    requires v.Group? && HaveType(elem, v.items)
    ensures var c := Group(Canons(elem, v.items));
            Write(ArrayEncoder(Written(elem, Parts(All, vs)), IntColumn(Lengths(vs, 1)), Count(|vs|), isSet), v)
            == ArrayEncoder(Written(elem, Parts(All, vs + [c])), IntColumn(Lengths(vs + [c], 1)), Count(|vs| + 1), isSet)
    decreases v, elem, 4
  {
    FillArray(elem, vs, v);
    WriteArray(Written(elem, Parts(All, vs)), vs, v, Group(Canons(elem, v.items)), isSet);
  }

  lemma {:induction false} EntriesKeep(key: Type, val: Type, vs: seq<Value>, v: Value)
    requires HasType(Map(key, val), v) && v.Group?
    ensures Fills(Map(key, val), vs, v)
    decreases v, Map(key, val), 3
  {
    MapKeeps(key, val, vs, v);
  }

  lemma {:induction false} MapKeeps(key: Type, val: Type, vs: seq<Value>, v: Value)
    requires v.Group? && HaveTypes(key, val, v.items)
    ensures var c := Group(CanonEntries(key, val, v.items));
            Write(MapEncoder(Written(key, Parts(Keys, vs)), Written(val, Parts(Vals, vs)), IntColumn(Lengths(vs, 2)), Count(|vs|)), v)
            == MapEncoder(Written(key, Parts(Keys, vs + [c])), Written(val, Parts(Vals, vs + [c])), IntColumn(Lengths(vs + [c], 2)), Count(|vs| + 1))
    decreases v, Map(key, val), 2
  {
    var c := Group(CanonEntries(key, val, v.items));
    FillMap(key, val, vs, v);
    WriteMap(Written(key, Parts(Keys, vs)), Written(val, Parts(Vals, vs)),
             Written(key, Parts(Keys, vs + [c])), Written(val, Parts(Vals, vs + [c])), vs, v, c);
  }

  lemma {:induction false} UnionKeeps(types: seq<Type>, vs: seq<Value>, v: Value)
    requires HasType(Union(types), v) && !v.Null?
    ensures Fills(Union(types), vs, v)
    decreases v, Union(types), 2
  {
    var tag := TagOf(types, types[TagIn(v)]);
    FillUnion(types, vs, v);
    WriteUnion(types, WrittenMembers(types, vs), tag, vs, v, Canon(types[tag], v.items[1]));
  }

  lemma {:induction false} FillRecord(fields: seq<Field>, vs: seq<Value>, v: Value)
    requires HasType(Record(fields), v) && v.Group?
    ensures WriteFields(WrittenFields(fields, vs), v.items) == WrittenFields(fields, vs + [Canon(Record(fields), v)])
    decreases v, Record(fields), 1
  {
    var c := Canon(Record(fields), v);
    var before, after := WrittenFields(fields, vs), WrittenFields(fields, vs + [c]);
    forall i | 0 <= i < |fields| ensures Write(before[i], v.items[i]) == after[i] {
      WriteKeeps(fields[i].typ, Parts(At(i), vs), v.items[i]);
      PartsSnoc(At(i), vs, c);
    }
  }

  lemma {:induction false} FillArray(elem: Type, vs: seq<Value>, v: Value)
    requires v.Group? && HaveType(elem, v.items)
    ensures WriteAll(Written(elem, Parts(All, vs)), v.items) == Written(elem, Parts(All, vs + [Group(Canons(elem, v.items))]))
    decreases v, elem, 3
  {
    WriteAllKeeps(elem, Parts(All, vs), v.items, v);
    PartsSnoc(All, vs, Group(Canons(elem, v.items)));
  }

  lemma {:induction false} WriteAllKeeps(t: Type, vs: seq<Value>, items: seq<Value>, whole: Value)
    requires HaveType(t, items) && forall i :: 0 <= i < |items| ==> items[i] < whole
    ensures WriteAll(Written(t, vs), items) == Written(t, vs + Canons(t, items))
    decreases whole, t, 2
  {
    CanonsAt(t, items);
    var w := (us: seq<Value>) => Written(t, us);
    forall i | 0 <= i < |items| ensures Adds(w, items[i], Canons(t, items)[i]) {
      forall us ensures Write(w(us), items[i]) == w(us + [Canons(t, items)[i]]) {
        WriteKeeps(t, us, items[i]);
      }
    }
    WriteAllFolds(w, vs, items, Canons(t, items), 0);
    assert items[0..] == items && vs + Canons(t, items)[..0] == vs;
  }

  lemma {:induction false} FillMap(key: Type, val: Type, vs: seq<Value>, v: Value)
    requires v.Group? && HaveTypes(key, val, v.items)
    ensures var more := vs + [Group(CanonEntries(key, val, v.items))];
            WriteEntries(Written(key, Parts(Keys, vs)), Written(val, Parts(Vals, vs)), v.items)
            == (Written(key, Parts(Keys, more)), Written(val, Parts(Vals, more)))
    decreases v, Map(key, val), 1
  {
    EntriesSplit(key, val, v.items);
    FillBoth(key, val, vs, v, Group(CanonEntries(key, val, v.items)));
  }

  lemma {:induction false} FillBoth(key: Type, val: Type, vs: seq<Value>, v: Value, c: Value)
    requires v.Group? && c.Group? && |v.items| % 2 == 0
    requires HaveType(key, Evens(v.items)) && Evens(c.items) == Canons(key, Evens(v.items))
    requires HaveType(val, Odds(v.items)) && Odds(c.items) == Canons(val, Odds(v.items))
    ensures WriteEntries(Written(key, Parts(Keys, vs)), Written(val, Parts(Vals, vs)), v.items)
         == (Written(key, Parts(Keys, vs + [c])), Written(val, Parts(Vals, vs + [c])))
    decreases v, Map(key, val), 0
  {
    EvensSmaller(v.items, v);
    FillEvens(key, vs, v, c);
    FillOdds(val, vs, v, c);
    WriteBoth(Written(key, Parts(Keys, vs)), Written(val, Parts(Vals, vs)), v.items,
              Written(key, Parts(Keys, vs + [c])), Written(val, Parts(Vals, vs + [c])));
  }

  lemma {:induction false} FillEvens(key: Type, vs: seq<Value>, v: Value, c: Value)
    requires v.Group? && c.Group? && HaveType(key, Evens(v.items)) && Evens(c.items) == Canons(key, Evens(v.items))
    requires forall i :: 0 <= i < |Evens(v.items)| ==> Evens(v.items)[i] < v
    ensures WriteAll(Written(key, Parts(Keys, vs)), Evens(v.items)) == Written(key, Parts(Keys, vs + [c]))
    decreases v, key, 3
  {
    WriteAllKeeps(key, Parts(Keys, vs), Evens(v.items), v);
    PartsSnoc(Keys, vs, c);
  }

  lemma {:induction false} FillOdds(val: Type, vs: seq<Value>, v: Value, c: Value)
    requires v.Group? && c.Group? && HaveType(val, Odds(v.items)) && Odds(c.items) == Canons(val, Odds(v.items))
    requires forall i :: 0 <= i < |Odds(v.items)| ==> Odds(v.items)[i] < v
    ensures WriteAll(Written(val, Parts(Vals, vs)), Odds(v.items)) == Written(val, Parts(Vals, vs + [c]))
    decreases v, val, 3
  {
    WriteAllKeeps(val, Parts(Vals, vs), Odds(v.items), v);
    PartsSnoc(Vals, vs, c);
  }

  lemma {:induction false} FillUnion(types: seq<Type>, vs: seq<Value>, v: Value)
    requires HasType(Union(types), v) && !v.Null?
    ensures var tag := TagOf(types, types[TagIn(v)]);
            var before := WrittenMembers(types, vs);
            before[tag := Write(before[tag], v.items[1])] == WrittenMembers(types, vs + [Canon(Union(types), v)])
    decreases v, Union(types), 1
  {
    var tag := TagOf(types, types[TagIn(v)]);
    var inner := Canon(types[tag], v.items[1]);
    WriteKeeps(types[tag], Parts(Member(tag), vs), v.items[1]);
    MembersKept(types, vs, tag, inner, Write(WrittenMembers(types, vs)[tag], v.items[1]));
  }

  lemma {:induction false} MembersKept(types: seq<Type>, vs: seq<Value>, tag: int64, inner: Value, e: Encoder)
    requires 0 <= tag < |types| && e == Written(types[tag], Parts(Member(tag), vs) + [inner])
    ensures WrittenMembers(types, vs)[tag := e] == WrittenMembers(types, vs + [Tagged(tag, inner)])
  {
    var before, after := WrittenMembers(types, vs), WrittenMembers(types, vs + [Tagged(tag, inner)]);
    forall i | 0 <= i < |types| ensures before[tag := e][i] == after[i] {
      MemberParts(vs, tag, inner, i);
    }
  }

  lemma {:induction false} MemberParts(vs: seq<Value>, tag: int64, inner: Value, i: nat)
    ensures Parts(Member(i), vs + [Tagged(tag, inner)])
         == if i == tag then Parts(Member(i), vs) + [inner] else Parts(Member(i), vs)
  {
    DecodeEncodeInt(tag);
    PartsSnoc(Member(i), vs, Tagged(tag, inner));
    assert Parts(Member(i), vs) + [] == Parts(Member(i), vs);
  }
}
