/** What the metadata says without looking at the data: how many values there are, and of which type. */
module VngShape {
  import opened Uvarint
  import opened Counted
  import opened Zcode
  import opened Types
  import opened VngColumns
  import opened VngPrimitives
  import opened VngEncoders
  import opened VngLayout

  /** Metadata.Len, in 32-bit arithmetic. */
  function MetaLen(m: Meta): nat {
    match m
    case RecordMeta(length, _, _) => length
    case ArrayMeta(length, _, _) => length
    case SetMeta(length, _, _) => length
    case MapMeta(length, _, _, _) => length
    case UnionMeta(length, _, _) => length
    case NamedMeta(_, values) => MetaLen(values)
    case ErrorMeta(values) => MetaLen(values)
    case NullsMeta(_, values, count) => (count + MetaLen(values)) % UINT32_LIMIT
    case PrimitiveMeta(_, _, _, count) => count
    case ConstMeta(_, _, count) => count
    case DynamicMeta(_, _, length) => length
  }

  /** Metadata.Type, where `unions` is what the context makes of a list of member types. */
  function MetaType(unions: seq<Type> -> Type, m: Meta): Type
    decreases m
  {
    match m
    case RecordMeta(_, names, fields) => Record(MetaFields(unions, names, fields))
    case ArrayMeta(_, _, elems) => Array(MetaType(unions, elems))
    case SetMeta(_, _, elems) => Set(MetaType(unions, elems))
    case MapMeta(_, _, keys, vals) => Map(MetaType(unions, keys), MetaType(unions, vals))
    case UnionMeta(_, _, members) => unions(MetaTypes(unions, members))
    case NamedMeta(name, values) => Named(name, MetaType(unions, values))
    case ErrorMeta(values) => Error(MetaType(unions, values))
    case NullsMeta(_, values, _) => MetaType(unions, values)
    case PrimitiveMeta(typ, _, _, _) => typ
    case ConstMeta(typ, _, _) => typ
    case DynamicMeta(_, members, _) => unions(MetaTypes(unions, members))
  }

  function MetaTypes(unions: seq<Type> -> Type, ms: seq<Meta>): (r: seq<Type>)
    ensures |r| == |ms|
    ensures forall i :: 0 <= i < |ms| ==> r[i] == MetaType(unions, ms[i])
    decreases ms
  {
    if ms == [] then [] else [MetaType(unions, ms[0])] + MetaTypes(unions, ms[1..])
  }

  function MetaFields(unions: seq<Type> -> Type, names: seq<Name>, ms: seq<Meta>): (r: seq<Field>)
    ensures |r| == |ms|
    ensures forall i :: 0 <= i < |ms| ==> r[i] == Field(if i < |names| then names[i] else [], MetaType(unions, ms[i]))
    decreases ms
  {
    if ms == [] then []
    else
      var name := if names == [] then [] else names[0];
      [Field(name, MetaType(unions, ms[0]))] + MetaFields(unions, if names == [] then [] else names[1..], ms[1..])
  }

  /** Every union in the type is the one that the context gives for its members. */
  ghost predicate Regular(unions: seq<Type> -> Type, t: Type) {
    match t
    case Named(_, inner) => Regular(unions, inner)
    case Error(inner) => Regular(unions, inner)
    case Record(fields) => forall i :: 0 <= i < |fields| ==> Regular(unions, fields[i].typ)
    case Array(elem) => Regular(unions, elem)
    case Set(elem) => Regular(unions, elem)
    case Map(key, val) => Regular(unions, key) && Regular(unions, val)
    case Union(types) => unions(types) == t && forall i :: 0 <= i < |types| ==> Regular(unions, types[i])
    case _ => true
  }

  // ---------------------------------------------------------------------------
  // Both are already known to the encoder

  function EncoderLen(e: Encoder): nat {
    match e
    case NamedEncoder(values, _) => EncoderLen(values)
    case ErrorEncoder(values) => EncoderLen(values)
    case NullsEncoder(values, _, _, _, count) =>
      if count == 0 then EncoderLen(values) else (count + EncoderLen(values)) % UINT32_LIMIT
    case RecordEncoder(_, _, count) => count
    case ArrayEncoder(_, _, count, _) => count
    case MapEncoder(_, _, _, count) => count
    case UnionEncoder(_, _, _, count) => count
    case PrimitiveEncoder(column) => column.count
  }

  function EncoderType(unions: seq<Type> -> Type, e: Encoder): Type
    decreases e
  {
    match e
    case NamedEncoder(values, name) => Named(name, EncoderType(unions, values))
    case ErrorEncoder(values) => Error(EncoderType(unions, values))
    case NullsEncoder(values, _, _, _, _) => EncoderType(unions, values)
    case RecordEncoder(names, fields, _) =>
      Record(seq(|fields|, i requires 0 <= i < |fields| => Field(if i < |names| then names[i] else [], EncoderType(unions, fields[i]))))
    case ArrayEncoder(elems, _, _, isSet) =>
      if isSet then Set(EncoderType(unions, elems)) else Array(EncoderType(unions, elems))
    case MapEncoder(keys, vals, _, _) => Map(EncoderType(unions, keys), EncoderType(unions, vals))
    case UnionEncoder(_, members, _, _) => unions(EncoderTypes(unions, members))
    case PrimitiveEncoder(column) => column.typ
  }

  function EncoderTypes(unions: seq<Type> -> Type, es: seq<Encoder>): (r: seq<Type>)
    ensures |r| == |es|
    ensures forall i :: 0 <= i < |es| ==> r[i] == EncoderType(unions, es[i])
    decreases es
  {
    if es == [] then [] else [EncoderType(unions, es[0])] + EncoderTypes(unions, es[1..])
  }

  lemma {:induction false} MetadataLen(env: Env, e: Encoder, off: nat)
    ensures MetaLen(Metadata(env, e, off).1) == EncoderLen(e)
    decreases e
  {
    match e
    case NamedEncoder(values, _) => MetadataLen(env, values, off);
    case ErrorEncoder(values) => MetadataLen(env, values, off);
    case NullsEncoder(values, _, _, _, _) => MetadataLen(env, values, off);
    case _ =>
  }

  lemma {:induction false} FinishLen(env: Env, e: Encoder)
    ensures EncoderLen(Finish(env, e)) == EncoderLen(e)
    decreases e
  {
    match e
    case NamedEncoder(values, _) => FinishLen(env, values);
    case ErrorEncoder(values) => FinishLen(env, values);
    case NullsEncoder(values, runs, run, isNull, count) =>
      FinishLen(env, values);
      RunsDontCount(values, Finish(env, values), runs, FinishRuns(env, runs, run, count), run, isNull, count);
    case _ =>
  }

  lemma {:induction false} RunsDontCount(a: Encoder, b: Encoder, runs: Column, more: Column, run: int64, isNull: bool, count: nat)
    requires EncoderLen(a) == EncoderLen(b)
    ensures EncoderLen(NullsEncoder(a, runs, run, isNull, count)) == EncoderLen(NullsEncoder(b, more, run, isNull, count))
  {
  }

  lemma {:induction false} FilledLen(t: Type, vs: seq<Value>)
    requires !t.Named? && !t.Error? && |vs| < UINT32_LIMIT
    ensures EncoderLen(Filled(t, vs)) == |vs|
  {
    CountExact(|vs|);
    match t
    case Record(_) =>
    case Array(_) =>
    case Set(_) =>
    case Map(_, _) =>
    case Union(_) =>
    case _ =>
  }

  lemma {:induction false} NullsLen(e: Encoder, vs: seq<Value>)
    requires |vs| < UINT32_LIMIT && EncoderLen(e) == |Parts(Present, vs)|
    ensures EncoderLen(NullsOf(e, RunsOf(NullFlags(vs)))) == |vs|
  {
    RunsCount(NullFlags(vs));
    NullsAndPresent(vs);
    SmallCounts(Nulls(NullFlags(vs)), |Parts(Present, vs)|);
    NullsOfLen(e, RunsOf(NullFlags(vs)));
  }

  lemma {:induction false} NullsOfLen(e: Encoder, r: Runs)
    ensures EncoderLen(NullsOf(e, r)) == if r.count == 0 then EncoderLen(e) else (r.count + EncoderLen(e)) % UINT32_LIMIT
  {
  }

  lemma SmallCounts(nulls: nat, values: nat)
    requires nulls + values < UINT32_LIMIT
    ensures Count(nulls) == nulls && (nulls + values) % UINT32_LIMIT == nulls + values
  {
    CountExact(nulls);
  }

  lemma {:induction false} WrittenLen(t: Type, vs: seq<Value>)
    requires |vs| < UINT32_LIMIT
    ensures EncoderLen(Written(t, vs)) == |vs|
    decreases t
  {
    match t
    case Named(_, inner) => WrittenLen(inner, vs);
    case Error(inner) => WrittenLen(inner, vs);
    case _ =>
      NullsAndPresent(vs);
      FilledLen(t, Parts(Present, vs));
      NullsLen(Filled(t, Parts(Present, vs)), vs);
  }

  /** The metadata counts the values that were written. */
  lemma {:induction false} LengthOfWritten(env: Env, t: Type, vs: seq<Value>, off: nat)
    requires |vs| < UINT32_LIMIT
    ensures MetaLen(Metadata(env, Finish(env, Written(t, vs)), off).1) == |vs|
  {
    MetadataLen(env, Finish(env, Written(t, vs)), off);
    FinishLen(env, Written(t, vs));
    WrittenLen(t, vs);
  }

  lemma {:induction false} MetadataType(env: Env, unions: seq<Type> -> Type, e: Encoder, off: nat)
    ensures MetaType(unions, Metadata(env, e, off).1) == EncoderType(unions, e)
    decreases e
  {
    match e
    case NamedEncoder(values, _) => MetadataType(env, unions, values, off);
    case ErrorEncoder(values) => MetadataType(env, unions, values, off);
    case NullsEncoder(values, _, _, _, _) => MetadataType(env, unions, values, off);
    case RecordEncoder(_, _, _) => RecordMetadataType(env, unions, e, off);
    case ArrayEncoder(elems, lengths, _, _) => MetadataType(env, unions, elems, off + |lengths.out|);
    case MapEncoder(_, _, _, _) => MapMetadataType(env, unions, e, off);
    case UnionEncoder(_, members, tags, _) => UnionMetadataType(env, unions, e, off);
    case PrimitiveEncoder(_) =>
  }

  lemma {:induction false} RecordMetadataType(env: Env, unions: seq<Type> -> Type, e: Encoder, off: nat)
    requires e.RecordEncoder?
    ensures MetaType(unions, Metadata(env, e, off).1) == EncoderType(unions, e)
    decreases e.fields, 1
  {
    MetadataTypes(env, unions, e.fields, off);
    assert MetaFields(unions, e.names, MetadataAll(env, e.fields, off).1) == EncoderType(unions, e).fields;
  }

  lemma {:induction false} MapMetadataType(env: Env, unions: seq<Type> -> Type, e: Encoder, off: nat)
    requires e.MapEncoder?
    ensures MetaType(unions, Metadata(env, e, off).1) == EncoderType(unions, e)
    decreases e, 0
  {
    MetadataType(env, unions, e.keys, off + |e.lengths.out|);
    MetadataType(env, unions, e.vals, Metadata(env, e.keys, off + |e.lengths.out|).0);
  }

  lemma {:induction false} UnionMetadataType(env: Env, unions: seq<Type> -> Type, e: Encoder, off: nat)
    requires e.UnionEncoder?
    ensures MetaType(unions, Metadata(env, e, off).1) == EncoderType(unions, e)
    decreases e.members, 1
  {
    MetadataTypes(env, unions, e.members, off + |e.tags.out|);
    assert MetaTypes(unions, MetadataAll(env, e.members, off + |e.tags.out|).1) == EncoderTypes(unions, e.members);
  }

  lemma {:induction false} MetadataTypes(env: Env, unions: seq<Type> -> Type, es: seq<Encoder>, off: nat)
    ensures var ms := MetadataAll(env, es, off).1;
            |ms| == |es| && forall i :: 0 <= i < |es| ==> MetaType(unions, ms[i]) == EncoderType(unions, es[i])
    decreases es, 0
  {
    if es != [] {
      MetadataType(env, unions, es[0], off);
      MetadataTypes(env, unions, es[1..], Metadata(env, es[0], off).0);
    }
  }

  lemma {:induction false} FinishType(env: Env, unions: seq<Type> -> Type, e: Encoder)
    ensures EncoderType(unions, Finish(env, e)) == EncoderType(unions, e)
    decreases e
  {
    match e
    case NamedEncoder(values, _) => FinishType(env, unions, values);
    case ErrorEncoder(values) => FinishType(env, unions, values);
    case NullsEncoder(values, _, _, _, _) => FinishType(env, unions, values);
    case RecordEncoder(_, fields, _) =>
      FinishTypes(env, unions, fields);
      assert EncoderType(unions, Finish(env, e)).fields == EncoderType(unions, e).fields;
    case ArrayEncoder(elems, _, _, _) => FinishType(env, unions, elems);
    case MapEncoder(keys, vals, _, _) => FinishType(env, unions, keys); FinishType(env, unions, vals);
    case UnionEncoder(_, members, _, _) =>
      FinishTypes(env, unions, members);
      assert EncoderTypes(unions, FinishAll(env, members)) == EncoderTypes(unions, members);
    case PrimitiveEncoder(_) =>
  }

  lemma {:induction false} FinishTypes(env: Env, unions: seq<Type> -> Type, es: seq<Encoder>)
    ensures forall i :: 0 <= i < |es| ==> EncoderType(unions, FinishAll(env, es)[i]) == EncoderType(unions, es[i])
    decreases es
  {
    forall i | 0 <= i < |es| ensures EncoderType(unions, FinishAll(env, es)[i]) == EncoderType(unions, es[i]) {
      FinishType(env, unions, es[i]);
    }
  }

  lemma {:induction false} WrittenType(unions: seq<Type> -> Type, t: Type, vs: seq<Value>)
    requires Regular(unions, t)
    ensures EncoderType(unions, Written(t, vs)) == t
    decreases t, 1
  {
    match t
    case Named(_, inner) => WrittenType(unions, inner, vs);
    case Error(inner) => WrittenType(unions, inner, vs);
    case _ => FilledType(unions, t, Parts(Present, vs));
  }

  lemma {:induction false} FilledType(unions: seq<Type> -> Type, t: Type, vs: seq<Value>)
    requires !t.Named? && !t.Error? && Regular(unions, t)
    ensures FilledShows(unions, t, vs)
    decreases t, 0
  {
    match t
    case Record(fields) => RecordType(unions, fields, vs);
    case Array(elem) => ElemsType(unions, t, vs);
    case Set(elem) => ElemsType(unions, t, vs);
    case Map(key, val) => MapType(unions, key, val, vs);
    case Union(types) => UnionType(unions, types, vs);
    case _ =>
  }

  /** The encoder shows the type that its values were written as. */
  ghost predicate FilledShows(unions: seq<Type> -> Type, t: Type, vs: seq<Value>)
    requires !t.Named? && !t.Error?
  {
    EncoderType(unions, Filled(t, vs)) == t
  }

  lemma {:induction false} ElemsType(unions: seq<Type> -> Type, t: Type, vs: seq<Value>)
    requires (t.Array? || t.Set?) && Regular(unions, t.elem)
    ensures FilledShows(unions, t, vs)
    decreases t, -1
  {
    WrittenType(unions, t.elem, Parts(All, vs));
  }

  lemma {:induction false} UnionType(unions: seq<Type> -> Type, types: seq<Type>, vs: seq<Value>)
    requires Regular(unions, Union(types))
    ensures FilledShows(unions, Union(types), vs)
    decreases types, 3
  {
    MembersType(unions, types, vs);
  }

  lemma {:induction false} MapType(unions: seq<Type> -> Type, key: Type, val: Type, vs: seq<Value>)
    requires Regular(unions, key) && Regular(unions, val)
    ensures FilledShows(unions, Map(key, val), vs)
    decreases Map(key, val), -1
  {
    var ks, ws := Written(key, Parts(Keys, vs)), Written(val, Parts(Vals, vs));
    WrittenType(unions, key, Parts(Keys, vs));
    WrittenType(unions, val, Parts(Vals, vs));
    EntriesType(unions, ks, ws, IntColumn(Lengths(vs, 2)), Count(|vs|));
  }

  lemma {:induction false} EntriesType(unions: seq<Type> -> Type, ks: Encoder, ws: Encoder, c: Column, n: nat)
    ensures EncoderType(unions, MapEncoder(ks, ws, c, n)) == Map(EncoderType(unions, ks), EncoderType(unions, ws))
  {
  }

  lemma {:induction false} RecordType(unions: seq<Type> -> Type, fields: seq<Field>, vs: seq<Value>)
    requires Regular(unions, Record(fields))
    ensures FilledShows(unions, Record(fields), vs)
    decreases fields, 3
  {
    FieldsType(unions, fields, vs);
    assert EncoderType(unions, Filled(Record(fields), vs)).fields == fields;
  }

  lemma {:induction false} FieldsType(unions: seq<Type> -> Type, fields: seq<Field>, vs: seq<Value>)
    requires Regular(unions, Record(fields))
    ensures forall i :: 0 <= i < |fields| ==> EncoderType(unions, WrittenFields(fields, vs)[i]) == fields[i].typ
    decreases fields, 2
  {
    forall i | 0 <= i < |fields| ensures EncoderType(unions, WrittenFields(fields, vs)[i]) == fields[i].typ {
      WrittenType(unions, fields[i].typ, Parts(At(i), vs));
    }
  }

  lemma {:induction false} MembersType(unions: seq<Type> -> Type, types: seq<Type>, vs: seq<Value>)
    requires Regular(unions, Union(types))
    ensures EncoderTypes(unions, WrittenMembers(types, vs)) == types
    decreases types, 2
  {
    forall i | 0 <= i < |types| ensures EncoderType(unions, WrittenMembers(types, vs)[i]) == types[i] {
      WrittenType(unions, types[i], Parts(Member(i), vs));
    }
  }

  /** The metadata says which type was written, wherever it was laid out. */
  lemma {:induction false} TypeOfWritten(env: Env, unions: seq<Type> -> Type, t: Type, vs: seq<Value>, off: nat)
    requires Regular(unions, t)
    ensures MetaType(unions, Metadata(env, Finish(env, Written(t, vs)), off).1) == t
  {
    MetadataType(env, unions, Finish(env, Written(t, vs)), off);
    FinishType(env, unions, Written(t, vs));
    WrittenType(unions, t, vs);
  }
}
