/**
 From encoders to an object: Encode finishes the columns, Metadata hands out a segment
 of the data section to each, and Emit writes them.  The last two walk the tree on their own.
 */
module VngLayout {
  import opened Wrappers
  import opened Uvarint
  import opened Counted
  import opened Zcode
  import opened Types
  import opened VngColumns
  import opened VngPrimitives
  import opened VngEncoders
  import opened VngReaders

  /** The Encode pass over the tree. */
  function Finish(env: Env, e: Encoder): Encoder
    decreases e
  {
    match e
    case NamedEncoder(values, name) => NamedEncoder(Finish(env, values), name)
    case ErrorEncoder(values) => ErrorEncoder(Finish(env, values))
    case NullsEncoder(values, runs, run, isNull, count) =>
      NullsEncoder(Finish(env, values), FinishRuns(env, runs, run, count), run, isNull, count)
    case RecordEncoder(names, fields, count) => RecordEncoder(names, FinishAll(env, fields), count)
    case ArrayEncoder(elems, lengths, count, isSet) =>
      ArrayEncoder(Finish(env, elems), EncodeColumn(env, lengths), count, isSet)
    case MapEncoder(keys, vals, lengths, count) =>
      MapEncoder(Finish(env, keys), Finish(env, vals), EncodeColumn(env, lengths), count)
    case UnionEncoder(types, members, tags, count) =>
      UnionEncoder(types, FinishAll(env, members), EncodeColumn(env, tags), count)
    case PrimitiveEncoder(column) => PrimitiveEncoder(EncodeColumn(env, column))
  }

  function FinishAll(env: Env, es: seq<Encoder>): (r: seq<Encoder>)
    ensures |r| == |es|
    ensures forall i :: 0 <= i < |es| ==> r[i] == Finish(env, es[i])
    decreases es
  {
    if es == [] then [] else [Finish(env, es[0])] + FinishAll(env, es[1..])
  }

  /** The last run is closed, but only if there were nulls at all. */
  function FinishRuns(env: Env, runs: Column, run: int64, count: nat): Column {
    if count == 0 then runs
    else EncodeColumn(env, if run > 0 then WriteInt(runs, run) else runs)
  }

  function Metadata(env: Env, e: Encoder, off: nat): (nat, Meta)
    decreases e
  {
    match e
    case NamedEncoder(values, name) =>
      var (next, m) := Metadata(env, values, off); (next, NamedMeta(name, m))
    case ErrorEncoder(values) =>
      var (next, m) := Metadata(env, values, off); (next, ErrorMeta(m))
    case NullsEncoder(values, runs, _, _, count) =>
      var (next, m) := Metadata(env, values, off);
      if count == 0 then (next, m) else (next + |runs.out|, NullsMeta(Location(runs, next), m, count))
    case RecordEncoder(names, fields, count) =>
      var (next, ms) := MetadataAll(env, fields, off); (next, RecordMeta(count, names, ms))
    case ArrayEncoder(elems, lengths, count, isSet) =>
      var (next, m) := Metadata(env, elems, off + |lengths.out|);
      var loc := Location(lengths, off);
      (next, if isSet then SetMeta(count, loc, m) else ArrayMeta(count, loc, m))
    case MapEncoder(keys, vals, lengths, count) =>
      var (mid, ks) := Metadata(env, keys, off + |lengths.out|);
      var (next, vs) := Metadata(env, vals, mid);
      (next, MapMeta(count, Location(lengths, off), ks, vs))
    case UnionEncoder(_, members, tags, count) =>
      var (next, ms) := MetadataAll(env, members, off + |tags.out|);
      (next, UnionMeta(count, Location(tags, off), ms))
    case PrimitiveEncoder(column) => MetadataColumn(env, column, off)
  }

  function MetadataAll(env: Env, es: seq<Encoder>, off: nat): (nat, seq<Meta>)
    decreases es
  {
    if es == [] then (off, [])
    else
      var (mid, m) := Metadata(env, es[0], off);
      var (next, ms) := MetadataAll(env, es[1..], mid);
      (next, [m] + ms)
  }

  /** What Emit writes once Metadata has cleared the constants. */
  function Emit(e: Encoder): Body {
    match e
    case NamedEncoder(values, _) => Emit(values)
    case ErrorEncoder(values) => Emit(values)
    case NullsEncoder(values, runs, _, _, count) => Emit(values) + if count != 0 then runs.out else []
    case RecordEncoder(_, fields, _) => EmitAll(fields)
    case ArrayEncoder(elems, lengths, _, _) => lengths.out + Emit(elems)
    case MapEncoder(keys, vals, lengths, _) => lengths.out + Emit(keys) + Emit(vals)
    case UnionEncoder(_, members, tags, _) => tags.out + EmitAll(members)
    case PrimitiveEncoder(column) => Cleared(column).out
  }

  function EmitAll(es: seq<Encoder>): Body {
    if es == [] then [] else Emit(es[0]) + EmitAll(es[1..])
  }

  // ---------------------------------------------------------------------------
  // Columns small enough for 32-bit counts

  ghost predicate Storable(t: Type, vs: seq<Value>)
    decreases t, 1
  {
    && |vs| < UINT32_LIMIT
    && match t
       case Named(_, inner) => Storable(inner, vs)
       case Error(inner) => Storable(inner, vs)
       case _ => StorableFilled(t, Parts(Present, vs))
  }

  ghost predicate StorableFilled(t: Type, vs: seq<Value>)
    requires !t.Named? && !t.Error?
    decreases t, 0
  {
    && |vs| < UINT32_LIMIT
    && match t
       case Record(fields) => forall i :: 0 <= i < |fields| ==> Storable(fields[i].typ, Parts(At(i), vs))
       case Array(elem) => Storable(elem, Parts(All, vs))
       case Set(elem) => Storable(elem, Parts(All, vs))
       case Map(key, val) => Storable(key, Parts(Keys, vs)) && Storable(val, Parts(Vals, vs))
       case Union(types) => forall i :: 0 <= i < |types| ==> Storable(types[i], Parts(Member(i), vs))
       case _ => Writable(Bodies(vs))
  }

  // ---------------------------------------------------------------------------
  // Counting nulls

  function Nulls(flags: seq<bool>): nat
    decreases |flags|
  {
    if flags == [] then 0
    else
      var n := |flags| - 1;
      Nulls(flags[..n]) + if flags[n] then 1 else 0
  }

  lemma {:induction false} RunsCount(flags: seq<bool>)
    ensures RunsOf(flags).count == Count(Nulls(flags))
    decreases |flags|
  {
    if flags != [] {
      RunsCount(flags[..|flags| - 1]);
    }
  }

  lemma {:induction false} NullsAndPresent(vs: seq<Value>)
    ensures Nulls(NullFlags(vs)) + |Parts(Present, vs)| == |vs|
    ensures Nulls(NullFlags(vs)) == 0 ==> NoNulls(vs) && Parts(Present, vs) == vs
    decreases |vs|
  {
    if vs != [] {
      var n := |vs| - 1;
      var front, v := vs[..n], vs[n];
      NullsAndPresent(front);
      assert vs == front + [v];
      PartsSnoc(Present, front, v);
      assert NullFlags(vs)[..n] == NullFlags(front);
    }
  }

  // ---------------------------------------------------------------------------
  // Laying out

  /** Metadata moves on by what Emit writes, and builders over the metadata find the values there. */
  ghost predicate Laid(env: Env, t: Type, e: Encoder, vs: seq<Value>, before: Body, after: Body) {
    var (off, m) := Metadata(env, e, |before|);
    && off == |before| + |Emit(e)|
    && Reads(env, t, m, NewBuilder(m), before + Emit(e) + after, vs)
  }

  ghost predicate LaidAnywhere(env: Env, t: Type, e: Encoder, vs: seq<Value>) {
    forall before, after :: Laid(env, t, e, vs, before, after)
  }

  ghost predicate LaidFilled(env: Env, t: Type, e: Encoder, vs: seq<Value>, before: Body, after: Body)
    requires !t.Named? && !t.Error?
  {
    var (off, m) := Metadata(env, e, |before|);
    && off == |before| + |Emit(e)|
    && !m.NullsMeta?
    && ReadsFilled(env, t, m, NewBuilder(m), before + Emit(e) + after, vs)
  }

  /** A list of encoders, each of which lays its values out wherever it is put. */
  lemma {:induction false} AllLaid(env: Env, ts: seq<Type>, es: seq<Encoder>, cols: seq<seq<Value>>, before: Body, after: Body)
    requires |ts| == |es| == |cols|
    requires forall i :: 0 <= i < |es| ==> LaidAnywhere(env, ts[i], es[i], cols[i])
    ensures var (off, ms) := MetadataAll(env, es, |before|);
            && off == |before| + |EmitAll(es)|
            && |ms| == |es|
            && forall i :: 0 <= i < |es| ==> Reads(env, ts[i], ms[i], NewBuilder(ms[i]), before + EmitAll(es) + after, cols[i])
    decreases |es|
  {
    if es != [] {
      var first, others := Emit(es[0]), EmitAll(es[1..]);
      assert LaidAnywhere(env, ts[0], es[0], cols[0]);
      assert Laid(env, ts[0], es[0], cols[0], before, others + after);
      forall i | 0 <= i < |es| - 1 ensures LaidAnywhere(env, ts[1..][i], es[1..][i], cols[1..][i]) {
        assert LaidAnywhere(env, ts[i + 1], es[i + 1], cols[i + 1]);
      }
      AllLaid(env, ts[1..], es[1..], cols[1..], before + first, after);
      assert before + EmitAll(es) + after == before + first + (others + after);
      assert before + EmitAll(es) + after == (before + first) + others + after;
    }
  }

  lemma {:induction false} RunsEncoded(env: Env, r: Runs)
    requires r.count != 0
    ensures FinishRuns(env, IntColumn(r.closed), r.run, r.count) == EncodeColumn(env, IntColumn(Closed(r)))
  {
    WriteIntColumn(r.closed, r.run);
  }

  /** The runs of a column of values are found behind the values. */
  lemma {:induction false} RunsLaid(env: Env, flags: seq<bool>, before: Body, after: Body)
    requires env.Inverse() && |flags| < UINT32_LIMIT
    ensures var c := EncodeColumn(env, IntColumn(Closed(RunsOf(flags))));
            HasFlags(env, Location(c, |before|), before + c.out + after, None, true, 0, flags)
  {
    var runs := Closed(RunsOf(flags));
    var c := EncodeColumn(env, IntColumn(runs));
    RunsRoundTrip(flags);
    IntsStored(env, runs, before, after);
    var b := Loaded(env, Location(c, |before|), before + c.out + after, None).value;
    assert Repeat(true, 0) + Expand(false, runs) == flags;
    assert Announces(true, 0, b, runs, flags);
  }

  lemma {:induction false} Regroup(before: Body, x: Body, y: Body, after: Body)
    ensures before + (x + y) + after == before + x + (y + after)
    ensures before + (x + y) + after == (before + x) + y + after
    ensures |before + x| == |before| + |x|
  {
  }

  lemma {:induction false} NoNullsLaid(env: Env, t: Type, e: Encoder, r: Runs, vs: seq<Value>, before: Body, after: Body)
    requires !t.Named? && !t.Error? && r.count == 0 && NoNulls(vs)
    requires LaidFilled(env, t, Finish(env, e), vs, before, after)
    ensures Laid(env, t, Finish(env, NullsOf(e, r)), vs, before, after)
  {
    var out := Emit(Finish(env, e));
    assert out + [] == out;
  }

  lemma {:induction false} SomeNullsLaid(env: Env, t: Type, e: Encoder, vs: seq<Value>, before: Body, after: Body)
    requires !t.Named? && !t.Error? && env.Inverse() && |vs| < UINT32_LIMIT && RunsOf(NullFlags(vs)).count != 0
    requires forall a :: LaidFilled(env, t, Finish(env, e), Parts(Present, vs), before, a)
    ensures Laid(env, t, Finish(env, NullsOf(e, RunsOf(NullFlags(vs)))), vs, before, after)
  {
    var flags, values := NullFlags(vs), Finish(env, e);
    var r, out := RunsOf(flags), Emit(values);
    var runs := EncodeColumn(env, IntColumn(Closed(r)));
    RunsEncoded(env, r);
    RunsLaid(env, flags, before + out, after);
    Regroup(before, out, runs.out, after);
    assert LaidFilled(env, t, values, Parts(Present, vs), before, runs.out + after);
    BehindValues(env, t, NullsEncoder(values, runs, r.run, r.isNull, r.count), vs, before, after);
  }

  lemma {:induction false} BehindValues(env: Env, t: Type, e: Encoder, vs: seq<Value>, before: Body, after: Body)
    requires !t.Named? && !t.Error? && e.NullsEncoder? && e.count != 0
    requires var out := Emit(e.values);
             var data := before + (out + e.runs.out) + after;
             && Metadata(env, e.values, |before|).0 == |before + out|
             && ReadsFilled(env, t, Metadata(env, e.values, |before|).1, NewBuilder(Metadata(env, e.values, |before|).1), data, Parts(Present, vs))
             && HasFlags(env, Location(e.runs, |before + out|), data, None, true, 0, NullFlags(vs))
    ensures Laid(env, t, e, vs, before, after)
  {
  }

  lemma {:induction false} NullsLaid(env: Env, t: Type, e: Encoder, vs: seq<Value>, before: Body, after: Body)
    requires !t.Named? && !t.Error? && env.Inverse() && |vs| < UINT32_LIMIT
    requires forall a :: LaidFilled(env, t, Finish(env, e), Parts(Present, vs), before, a)
    ensures Laid(env, t, Finish(env, NullsOf(e, RunsOf(NullFlags(vs)))), vs, before, after)
  {
    RunsCount(NullFlags(vs));
    NullsAndPresent(vs);
    CountExact(Nulls(NullFlags(vs)));
    if RunsOf(NullFlags(vs)).count == 0 {
      assert LaidFilled(env, t, Finish(env, e), vs, before, after);
      NoNullsLaid(env, t, e, RunsOf(NullFlags(vs)), vs, before, after);
    } else {
      SomeNullsLaid(env, t, e, vs, before, after);
    }
  }

  lemma {:induction false} PrimitiveLaid(env: Env, t: Type, vs: seq<Value>, before: Body, after: Body)
    requires env.Inverse() && env.Agree() && Writable(Bodies(vs)) && (t.Primitive? || t.Enum?)
    ensures LaidFilled(env, t, Finish(env, PrimitiveEncoder(ColumnOf(t, true, Bodies(vs)))), vs, before, after)
  {
    ColumnStored(env, t, Bodies(vs), before, after);
    ColumnLaid(env, t, ColumnOf(t, true, Bodies(vs)), vs, before, after);
  }

  lemma {:induction false} ColumnLaid(env: Env, t: Type, w: Column, vs: seq<Value>, before: Body, after: Body)
    requires (t.Primitive? || t.Enum?) && Tiled(env, w, Bodies(vs), before, after)
    ensures LaidFilled(env, t, PrimitiveEncoder(EncodeColumn(env, w)), vs, before, after)
  {
  }

  /** The columns of a child lie behind `head`, in these data. */
  ghost predicate Behind(env: Env, t: Type, e: Encoder, col: seq<Value>, before: Body, head: Body, data: Body) {
    var (off, m) := Metadata(env, e, |before + head|);
    off == |before + head| + |Emit(e)| && Reads(env, t, m, NewBuilder(m), data, col)
  }

  lemma {:induction false} Then(env: Env, t: Type, e: Encoder, col: seq<Value>, before: Body, head: Body, after: Body, data: Body)
    requires LaidAnywhere(env, t, e, col) && data == before + head + Emit(e) + after
    ensures Behind(env, t, e, col, before, head, data)
  {
    assert Laid(env, t, e, col, before + head, after);
  }

  /** The parts of a data section, however they are put together. */
  lemma {:induction false} Parted(before: Body, x: Body, y: Body, z: Body, after: Body)
    ensures var data := before + (x + y + z) + after;
            && before + x + (y + (z + after)) == data
            && before + x + y + (z + after) == data
            && before + (x + y) + z + after == data
  {
  }

  // ---------------------------------------------------------------------------
  // The induction over the type

  /**
   For every type and every list of values Metadata moves on by the size of what Emit writes,
   and reading from where Emit wrote delivers the values.
   */
  lemma {:induction false} WrittenLaid(env: Env, t: Type, vs: seq<Value>, before: Body, after: Body)
    requires env.Inverse() && env.Agree() && Storable(t, vs)
    ensures Laid(env, t, Finish(env, Written(t, vs)), vs, before, after)
    decreases t, 1
  {
    match t
    case Named(_, inner) => WrittenLaid(env, inner, vs, before, after);
    case Error(inner) => WrittenLaid(env, inner, vs, before, after);
    case _ =>
      var present := Parts(Present, vs);
      forall a ensures LaidFilled(env, t, Finish(env, Filled(t, present)), present, before, a) {
        FilledLaid(env, t, present, before, a);
      }
      NullsLaid(env, t, Filled(t, present), vs, before, after);
  }

  lemma {:induction false} LaidWherever(env: Env, t: Type, vs: seq<Value>)
    requires env.Inverse() && env.Agree() && Storable(t, vs)
    ensures LaidAnywhere(env, t, Finish(env, Written(t, vs)), vs)
    decreases t, 2
  {
    forall before, after ensures Laid(env, t, Finish(env, Written(t, vs)), vs, before, after) {
      WrittenLaid(env, t, vs, before, after);
    }
  }

  lemma {:induction false} FilledLaid(env: Env, t: Type, vs: seq<Value>, before: Body, after: Body)
    requires !t.Named? && !t.Error?
    requires env.Inverse() && env.Agree() && StorableFilled(t, vs)
    ensures LaidFilled(env, t, Finish(env, Filled(t, vs)), vs, before, after)
    decreases t, 0
  {
    match t
    case Record(fields) => RecordLaid(env, fields, vs, before, after);
    case Array(elem) => ArrayLaid(env, t, vs, before, after);
    case Set(elem) => ArrayLaid(env, t, vs, before, after);
    case Map(key, val) => MapLaid(env, key, val, vs, before, after);
    case Union(types) => UnionLaid(env, types, vs, before, after);
    case Primitive(_) => PrimitiveLaid(env, t, vs, before, after);
    case Enum(_) => PrimitiveLaid(env, t, vs, before, after);
  }

  function FieldTypes(fields: seq<Field>): (r: seq<Type>)
    ensures |r| == |fields|
  {
    seq(|fields|, i requires 0 <= i < |fields| => fields[i].typ)
  }

  function Columns(n: nat, pick: nat -> Pick, vs: seq<Value>): (r: seq<seq<Value>>)
    ensures |r| == n
  {
    seq(n, i requires 0 <= i < n => Parts(pick(i), vs))
  }

  lemma {:induction false} RecordLaid(env: Env, fields: seq<Field>, vs: seq<Value>, before: Body, after: Body)
    requires env.Inverse() && env.Agree() && StorableFilled(Record(fields), vs)
    ensures LaidFilled(env, Record(fields), Finish(env, Filled(Record(fields), vs)), vs, before, after)
    decreases fields, 3
  {
    var ts, cols := FieldTypes(fields), Columns(|fields|, (i: nat) => At(i), vs);
    var es := FinishAll(env, WrittenFields(fields, vs));
    forall i | 0 <= i < |fields| ensures LaidAnywhere(env, ts[i], es[i], cols[i]) {
      LaidWherever(env, fields[i].typ, Parts(At(i), vs));
    }
    AllLaid(env, ts, es, cols, before, after);
  }

  lemma {:induction false} UnionLaid(env: Env, types: seq<Type>, vs: seq<Value>, before: Body, after: Body)
    requires env.Inverse() && env.Agree() && StorableFilled(Union(types), vs)
    ensures LaidFilled(env, Union(types), Finish(env, Filled(Union(types), vs)), vs, before, after)
    decreases types, 4
  {
    var cols := Columns(|types|, (i: nat) => Member(i), vs);
    MembersLaid(env, types, vs);
    UnionColumns(env, types, Finish(env, Filled(Union(types), vs)), cols, vs, before, after);
  }

  lemma {:induction false} MembersLaid(env: Env, types: seq<Type>, vs: seq<Value>)
    requires env.Inverse() && env.Agree() && StorableFilled(Union(types), vs)
    ensures var es, cols := FinishAll(env, WrittenMembers(types, vs)), Columns(|types|, (i: nat) => Member(i), vs);
            forall i :: 0 <= i < |types| ==> LaidAnywhere(env, types[i], es[i], cols[i])
    decreases types, 3
  {
    forall i | 0 <= i < |types|
      ensures LaidAnywhere(env, types[i], Finish(env, Written(types[i], Parts(Member(i), vs))), Parts(Member(i), vs))
    {
      LaidWherever(env, types[i], Parts(Member(i), vs));
    }
  }

  lemma {:induction false} UnionColumns(env: Env, types: seq<Type>, e: Encoder, cols: seq<seq<Value>>, vs: seq<Value>, before: Body, after: Body)
    requires e.UnionEncoder? && e == UnionEncoder(types, e.members, EncodeColumn(env, IntColumn(Tags(vs))), Count(|vs|))
    requires env.Inverse() && |e.members| == |types| == |cols|
    requires forall i :: 0 <= i < |cols| ==> cols[i] == Parts(Member(i), vs)
    requires forall i :: 0 <= i < |types| ==> LaidAnywhere(env, types[i], e.members[i], cols[i])
    ensures LaidFilled(env, Union(types), e, vs, before, after)
  {
    var c, es := e.tags, e.members;
    IntsStored(env, Tags(vs), before, EmitAll(es) + after);
    AllLaid(env, types, es, cols, before + c.out, after);
    Regroup(before, c.out, EmitAll(es), after);
    BehindTags(env, types, e, vs, before, after);
  }

  lemma {:induction false} BehindTags(env: Env, types: seq<Type>, e: Encoder, vs: seq<Value>, before: Body, after: Body)
    requires e.UnionEncoder?
    requires var data := before + (e.tags.out + EmitAll(e.members)) + after;
             var (off, ms) := MetadataAll(env, e.members, |before + e.tags.out|);
             && off == |before + e.tags.out| + |EmitAll(e.members)|
             && |ms| == |types|
             && HasInts(env, Location(e.tags, |before|), data, None, Tags(vs))
             && forall i :: 0 <= i < |ms| ==> Reads(env, types[i], ms[i], NewBuilder(ms[i]), data, Parts(Member(i), vs))
    ensures LaidFilled(env, Union(types), e, vs, before, after)
  {
  }

  lemma {:induction false} ArrayLaid(env: Env, t: Type, vs: seq<Value>, before: Body, after: Body)
    requires env.Inverse() && env.Agree() && (t.Array? || t.Set?) && StorableFilled(t, vs)
    ensures LaidFilled(env, t, Finish(env, Filled(t, vs)), vs, before, after)
    decreases t, -1
  {
    LaidWherever(env, t.elem, Parts(All, vs));
    ArrayParts(env, t, Finish(env, Written(t.elem, Parts(All, vs))), vs, before, after);
  }

  lemma {:induction false} ArrayParts(env: Env, t: Type, elems: Encoder, vs: seq<Value>, before: Body, after: Body)
    requires env.Inverse() && (t.Array? || t.Set?)
    requires LaidAnywhere(env, t.elem, elems, Parts(All, vs))
    ensures LaidFilled(env, t, ArrayEncoder(elems, EncodeColumn(env, IntColumn(Lengths(vs, 1))), Count(|vs|), t.Set?), vs, before, after)
  {
    IntsStored(env, Lengths(vs, 1), before, Emit(elems) + after);
    ArrayColumns(env, t, EncodeColumn(env, IntColumn(Lengths(vs, 1))), elems, vs, before, after);
  }

  lemma {:induction false} ArrayColumns(env: Env, t: Type, c: Column, elems: Encoder, vs: seq<Value>, before: Body, after: Body)
    requires t.Array? || t.Set?
    requires HasInts(env, Location(c, |before|), before + c.out + (Emit(elems) + after), None, Lengths(vs, 1))
    requires LaidAnywhere(env, t.elem, elems, Parts(All, vs))
    ensures LaidFilled(env, t, ArrayEncoder(elems, c, Count(|vs|), t.Set?), vs, before, after)
  {
    var data := before + (c.out + Emit(elems)) + after;
    Regroup(before, c.out, Emit(elems), after);
    Then(env, t.elem, elems, Parts(All, vs), before, c.out, after, data);
    BehindLengths(env, t, ArrayEncoder(elems, c, Count(|vs|), t.Set?), vs, before, after);
  }

  lemma {:induction false} BehindLengths(env: Env, t: Type, e: Encoder, vs: seq<Value>, before: Body, after: Body)
    requires e.ArrayEncoder? && (if e.isSet then t.Set? else t.Array?)
    requires var data := before + (e.lengths.out + Emit(e.elems)) + after;
             && HasInts(env, Location(e.lengths, |before|), data, None, Lengths(vs, 1))
             && Behind(env, t.elem, e.elems, Parts(All, vs), before, e.lengths.out, data)
    ensures LaidFilled(env, t, e, vs, before, after)
  {
    assert |before + e.lengths.out| == |before| + |e.lengths.out|;
  }

  lemma {:induction false} MapLaid(env: Env, key: Type, val: Type, vs: seq<Value>, before: Body, after: Body)
    requires env.Inverse() && env.Agree() && StorableFilled(Map(key, val), vs)
    ensures LaidFilled(env, Map(key, val), Finish(env, Filled(Map(key, val), vs)), vs, before, after)
    decreases Map(key, val), -1
  {
    LaidWherever(env, key, Parts(Keys, vs));
    LaidWherever(env, val, Parts(Vals, vs));
    MapParts(env, key, val, Finish(env, Filled(Map(key, val), vs)), vs, before, after);
  }

  lemma {:induction false} MapParts(env: Env, key: Type, val: Type, e: Encoder, vs: seq<Value>, before: Body, after: Body)
    requires e.MapEncoder? && e == MapEncoder(e.keys, e.vals, EncodeColumn(env, IntColumn(Lengths(vs, 2))), Count(|vs|))
    requires env.Inverse() && LaidAnywhere(env, key, e.keys, Parts(Keys, vs)) && LaidAnywhere(env, val, e.vals, Parts(Vals, vs))
    ensures LaidFilled(env, Map(key, val), e, vs, before, after)
  {
    IntsStored(env, Lengths(vs, 2), before, Emit(e.keys) + (Emit(e.vals) + after));
    MapColumns(env, key, val, e.lengths, e.keys, e.vals, vs, before, after);
  }

  lemma {:induction false} MapColumns(env: Env, key: Type, val: Type, c: Column, ks: Encoder, ws: Encoder, vs: seq<Value>, before: Body, after: Body)
    requires HasInts(env, Location(c, |before|), before + c.out + (Emit(ks) + (Emit(ws) + after)), None, Lengths(vs, 2))
    requires LaidAnywhere(env, key, ks, Parts(Keys, vs)) && LaidAnywhere(env, val, ws, Parts(Vals, vs))
    ensures LaidFilled(env, Map(key, val), MapEncoder(ks, ws, c, Count(|vs|)), vs, before, after)
  {
    var data := before + (c.out + Emit(ks) + Emit(ws)) + after;
    Parted(before, c.out, Emit(ks), Emit(ws), after);
    Then(env, key, ks, Parts(Keys, vs), before, c.out, Emit(ws) + after, data);
    Then(env, val, ws, Parts(Vals, vs), before, c.out + Emit(ks), after, data);
    BehindKeys(env, key, val, MapEncoder(ks, ws, c, Count(|vs|)), vs, before, after);
  }

  lemma {:induction false} BehindKeys(env: Env, key: Type, val: Type, e: Encoder, vs: seq<Value>, before: Body, after: Body)
    requires e.MapEncoder?
    requires var data := before + (e.lengths.out + Emit(e.keys) + Emit(e.vals)) + after;
             && HasInts(env, Location(e.lengths, |before|), data, None, Lengths(vs, 2))
             && Behind(env, key, e.keys, Parts(Keys, vs), before, e.lengths.out, data)
             && Behind(env, val, e.vals, Parts(Vals, vs), before, e.lengths.out + Emit(e.keys), data)
    ensures LaidFilled(env, Map(key, val), e, vs, before, after)
  {
    assert |before + e.lengths.out| == |before| + |e.lengths.out|;
    assert |before + (e.lengths.out + Emit(e.keys))| == |before| + |e.lengths.out| + |Emit(e.keys)|;
  }
}
