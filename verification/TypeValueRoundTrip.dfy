/** Decoding a type value gives back the type: the decoder's name table follows the encoder's bindings. */
module TypeValueRoundTrip {
  import opened Wrappers
  import opened Uvarint
  import opened Types
  import opened UnionTypes
  import opened TypeValues

  /** Every name the encoder has bound is bound to the same type in the decoder's table. */
  ghost predicate Follows(defs: Bindings, table: Bindings) {
    forall name :: name in defs ==> name in table && table[name] == Named(name, defs[name])
  }

  lemma {:induction false} LengthDecodes(n: nat, rest: seq<byte>)
    requires n < INT_LIMIT
    ensures DecodeLength(Encode(n) + rest) == Some((n, rest))
  {
    DecodeEncode(n, rest);
    assert (Encode(n) + rest)[|Encode(n)|..] == rest;
  }

  lemma {:induction false} NameDecodes(name: Name, rest: seq<byte>)
    requires Short(name)
    ensures DecodeName(EncodeName(name) + rest) == Some((name, rest))
  {
    LengthDecodes(|name|, name + rest);
    assert EncodeName(name) + rest == Encode(|name|) + (name + rest);
    assert (name + rest)[..|name|] == name && (name + rest)[|name|..] == rest;
  }

  lemma {:induction false} NamesDecode(names: seq<Name>, rest: seq<byte>)
    requires forall i :: 0 <= i < |names| ==> Short(names[i])
    ensures DecodeNames(|names|, EncodeNames(names) + rest) == Some((names, rest))
    decreases |names|
  {
    if names == [] {
      assert EncodeNames(names) + rest == rest;
    } else {
      var more := EncodeNames(names[1..]) + rest;
      assert EncodeNames(names) + rest == EncodeName(names[0]) + more;
      NameDecodes(names[0], more);
      NamesDecode(names[1..], rest);
      assert [names[0]] + names[1..] == names;
    }
  }

  // ---------------------------------------------------------------------------
  // One step of the decoder

  lemma {:induction false} StepNameDef(good: Name -> bool, tv: seq<byte>, table: Bindings, name: Name, rest: seq<byte>, d: Decoded<Type>)
    requires DecodeName(tv) == Some((name, rest)) && good(name)
    requires DecodeType(good, rest, table) == Some(d)
    ensures DecodeNameDef(good, tv, table) == Some(Decoded(Named(name, d.value), d.rest, d.table[name := Named(name, d.value)]))
  {
  }

  lemma {:induction false} StepRecord(good: Name -> bool, tv: seq<byte>, table: Bindings, n: nat, rest: seq<byte>, d: Decoded<seq<Field>>)
    requires DecodeLength(tv) == Some((n, rest)) && n <= MAX_MEMBERS
    requires DecodeFields(good, n, rest, table) == Some(d) && DistinctFields(d.value)
    ensures DecodeRecord(good, tv, table) == Some(Decoded(Record(d.value), d.rest, d.table))
  {
  }

  lemma {:induction false} StepUnion(good: Name -> bool, tv: seq<byte>, table: Bindings, n: nat, rest: seq<byte>, d: Decoded<seq<Type>>)
    requires DecodeLength(tv) == Some((n, rest)) && n <= MAX_MEMBERS
    requires DecodeTypes(good, n, rest, table) == Some(d)
    ensures DecodeUnion(good, tv, table) == Some(Decoded(Union(SortTypes(d.value)), d.rest, d.table))
  {
  }

  lemma {:induction false} StepEnum(tv: seq<byte>, table: Bindings, n: nat, rest: seq<byte>, symbols: seq<Name>, rest': seq<byte>)
    requires DecodeLength(tv) == Some((n, rest)) && n <= MAX_MEMBERS
    requires DecodeNames(n, rest) == Some((symbols, rest'))
    ensures DecodeEnum(tv, table) == Some(Decoded(Enum(symbols), rest', table))
  {
  }

  lemma {:induction false} StepMap(good: Name -> bool, tv: seq<byte>, table: Bindings, k: Decoded<Type>, v: Decoded<Type>)
    requires DecodeType(good, tv, table) == Some(k) && DecodeType(good, k.rest, k.table) == Some(v)
    ensures DecodeMap(good, tv, table) == Some(Decoded(Map(k.value, v.value), v.rest, v.table))
  {
  }

  lemma {:induction false} StepWrapper(good: Name -> bool, id: byte, tv: seq<byte>, table: Bindings, d: Decoded<Type>)
    requires DecodeType(good, tv, table) == Some(d)
    ensures var t := if id == ARRAY then Array(d.value) else if id == SET then Set(d.value) else Error(d.value);
            DecodeWrapper(good, id, tv, table) == Some(Decoded(t, d.rest, d.table))
  {
  }

  lemma {:induction false} StepFields(good: Name -> bool, n: nat, b: seq<byte>, table: Bindings,
                                      name: Name, rest: seq<byte>, d: Decoded<Type>, more: Decoded<seq<Field>>)
    requires n > 0 && DecodeName(b) == Some((name, rest)) && DecodeType(good, rest, table) == Some(d)
    requires DecodeFields(good, n - 1, d.rest, d.table) == Some(more)
    ensures DecodeFields(good, n, b, table) == Some(Decoded([Field(name, d.value)] + more.value, more.rest, more.table))
  {
  }

  lemma {:induction false} StepTypes(good: Name -> bool, n: nat, b: seq<byte>, table: Bindings, d: Decoded<Type>, more: Decoded<seq<Type>>)
    requires n > 0 && DecodeType(good, b, table) == Some(d)
    requires DecodeTypes(good, n - 1, d.rest, d.table) == Some(more)
    ensures DecodeTypes(good, n, b, table) == Some(Decoded([d.value] + more.value, more.rest, more.table))
  {
  }

  lemma {:induction false} Dispatch(good: Name -> bool, b: seq<byte>, table: Bindings, id: byte, tv: seq<byte>)
    requires b != [] && b[0] == id && b[1..] == tv
    ensures id == NAME_DEF ==> DecodeType(good, b, table) == DecodeNameDef(good, tv, table)
    ensures id == NAME_REF ==> DecodeType(good, b, table) == DecodeNameRef(tv, table)
    ensures id == RECORD ==> DecodeType(good, b, table) == DecodeRecord(good, tv, table)
    ensures id == ARRAY || id == SET || id == ERROR ==> DecodeType(good, b, table) == DecodeWrapper(good, id, tv, table)
    ensures id == MAP ==> DecodeType(good, b, table) == DecodeMap(good, tv, table)
    ensures id == UNION ==> DecodeType(good, b, table) == DecodeUnion(good, tv, table)
    ensures id == ENUM ==> DecodeType(good, b, table) == DecodeEnum(tv, table)
    ensures IsPrimitive(id) ==> DecodeType(good, b, table) == Some(Decoded(Primitive(id), tv, table))
  {
  }

  /** The first byte of a type value and what follows it. */
  lemma {:induction false} Header(id: byte, x: seq<byte>, y: seq<byte>, suffix: seq<byte>)
    ensures var b := [id] + x + y + suffix;
            b[0] == id && b[1..] == x + (y + suffix)
    ensures var b := [id] + x + suffix;
            b[0] == id && b[1..] == x + suffix
    ensures var b := [id] + suffix;
            b[0] == id && b[1..] == suffix
  {
  }

  // ---------------------------------------------------------------------------
  // The induction over the type

  /** The decoder follows the encoder step by step, whatever comes after the type value. */
  lemma {:induction false} DecodeEncodeType(good: Name -> bool, t: Type, defs: Bindings, table: Bindings, suffix: seq<byte>)
      returns (after: Bindings)
    requires WellFormed(good, t) && Follows(defs, table)
    ensures DecodeType(good, EncodeType(t, defs).0 + suffix, table) == Some(Decoded(t, suffix, after))
    ensures Follows(EncodeType(t, defs).1, after)
    decreases t, 1
  {
    match t
    case Named(_, _) => after := NamedRecovers(good, t, defs, table, suffix);
    case Record(fields) => after := RecordRecovers(good, fields, defs, table, suffix);
    case Union(types) => after := UnionRecovers(good, types, defs, table, suffix);
    case Array(elem) => after := WrapperRecovers(good, t, ARRAY, elem, defs, table, suffix);
    case Set(elem) => after := WrapperRecovers(good, t, SET, elem, defs, table, suffix);
    case Error(inner) => after := WrapperRecovers(good, t, ERROR, inner, defs, table, suffix);
    case Map(_, _) => after := MapRecovers(good, t, defs, table, suffix);
    case Enum(symbols) => after := table; EnumRecovers(good, symbols, defs, table, suffix);
    case Primitive(id) => after := table; PrimitiveRecovers(good, id, defs, table, suffix);
  }

  lemma {:induction false} PrimitiveRecovers(good: Name -> bool, id: nat, defs: Bindings, table: Bindings, suffix: seq<byte>)
    requires IsPrimitive(id)
    ensures DecodeType(good, EncodeType(Primitive(id), defs).0 + suffix, table) == Some(Decoded(Primitive(id), suffix, table))
  {
    Header(id, [], [], suffix);
    Dispatch(good, [id] + suffix, table, id, suffix);
  }

  lemma {:induction false} WrapperRecovers(good: Name -> bool, t: Type, id: byte, inner: Type, defs: Bindings, table: Bindings, suffix: seq<byte>)
      returns (after: Bindings)
    requires (id == ARRAY && t == Array(inner)) || (id == SET && t == Set(inner)) || (id == ERROR && t == Error(inner))
    requires WellFormed(good, inner) && Follows(defs, table)
    ensures DecodeType(good, EncodeType(t, defs).0 + suffix, table) == Some(Decoded(t, suffix, after))
    ensures Follows(EncodeType(t, defs).1, after)
    decreases t, 0
  {
    var b := EncodeType(inner, defs).0;
    assert EncodeType(t, defs) == ([id] + b, EncodeType(inner, defs).1);
    after := DecodeEncodeType(good, inner, defs, table, suffix);
    Header(id, b, [], suffix);
    StepWrapper(good, id, b + suffix, table, Decoded(inner, suffix, after));
  }

  lemma {:induction false} NamedRecovers(good: Name -> bool, t: Type, defs: Bindings, table: Bindings, suffix: seq<byte>)
      returns (after: Bindings)
    requires t.Named? && WellFormed(good, t) && Follows(defs, table)
    ensures DecodeType(good, EncodeType(t, defs).0 + suffix, table) == Some(Decoded(t, suffix, after))
    ensures Follows(EncodeType(t, defs).1, after)
    decreases t, 0
  {
    var name, inner := t.name, t.inner;
    if name in defs && defs[name] == inner {
      after := table;
      NameDecodes(name, suffix);
      Header(NAME_REF, EncodeName(name), [], suffix);
    } else {
      var b := EncodeType(inner, defs).0;
      var mid := DecodeEncodeType(good, inner, defs, table, suffix);
      after := mid[name := t];
      NameDecodes(name, b + suffix);
      Header(NAME_DEF, EncodeName(name), b, suffix);
      StepNameDef(good, EncodeName(name) + (b + suffix), table, name, b + suffix, Decoded(inner, suffix, mid));
    }
  }

  lemma {:induction false} MapRecovers(good: Name -> bool, t: Type, defs: Bindings, table: Bindings, suffix: seq<byte>)
      returns (after: Bindings)
    requires t.Map? && WellFormed(good, t) && Follows(defs, table)
    ensures DecodeType(good, EncodeType(t, defs).0 + suffix, table) == Some(Decoded(t, suffix, after))
    ensures Follows(EncodeType(t, defs).1, after)
    decreases t, 0
  {
    var (k, mid) := EncodeType(t.key, defs);
    var v := EncodeType(t.val, mid).0;
    var between := DecodeEncodeType(good, t.key, defs, table, v + suffix);
    after := DecodeEncodeType(good, t.val, mid, between, suffix);
    Header(MAP, k, v, suffix);
    Dispatch(good, [MAP] + k + v + suffix, table, MAP, k + (v + suffix));
    StepMap(good, k + (v + suffix), table, Decoded(t.key, v + suffix, between), Decoded(t.val, suffix, after));
  }

  lemma {:induction false} EnumRecovers(good: Name -> bool, symbols: seq<Name>, defs: Bindings, table: Bindings, suffix: seq<byte>)
    requires WellFormed(good, Enum(symbols))
    ensures DecodeType(good, EncodeType(Enum(symbols), defs).0 + suffix, table) == Some(Decoded(Enum(symbols), suffix, table))
  {
    var b := EncodeNames(symbols);
    LengthDecodes(|symbols|, b + suffix);
    NamesDecode(symbols, suffix);
    Header(ENUM, Encode(|symbols|), b, suffix);
    Dispatch(good, [ENUM] + Encode(|symbols|) + b + suffix, table, ENUM, Encode(|symbols|) + (b + suffix));
    StepEnum(Encode(|symbols|) + (b + suffix), table, |symbols|, b + suffix, symbols, suffix);
  }

  lemma {:induction false} RecordRecovers(good: Name -> bool, fields: seq<Field>, defs: Bindings, table: Bindings, suffix: seq<byte>)
      returns (after: Bindings)
    requires WellFormed(good, Record(fields)) && Follows(defs, table)
    ensures DecodeType(good, EncodeType(Record(fields), defs).0 + suffix, table) == Some(Decoded(Record(fields), suffix, after))
    ensures Follows(EncodeType(Record(fields), defs).1, after)
    decreases fields, 1
  {
    var b := EncodeFields(fields, defs).0;
    LengthDecodes(|fields|, b + suffix);
    after := FieldsRecover(good, fields, defs, table, suffix);
    Header(RECORD, Encode(|fields|), b, suffix);
    Dispatch(good, [RECORD] + Encode(|fields|) + b + suffix, table, RECORD, Encode(|fields|) + (b + suffix));
    StepRecord(good, Encode(|fields|) + (b + suffix), table, |fields|, b + suffix, Decoded(fields, suffix, after));
  }

  lemma {:induction false} FieldsRecover(good: Name -> bool, fields: seq<Field>, defs: Bindings, table: Bindings, suffix: seq<byte>)
      returns (after: Bindings)
    requires forall i :: 0 <= i < |fields| ==> Short(fields[i].name) && WellFormed(good, fields[i].typ)
    requires Follows(defs, table)
    ensures DecodeFields(good, |fields|, EncodeFields(fields, defs).0 + suffix, table) == Some(Decoded(fields, suffix, after))
    ensures Follows(EncodeFields(fields, defs).1, after)
    decreases fields, 0
  {
    if fields == [] {
      assert EncodeFields(fields, defs).0 + suffix == suffix;
      after := table;
    } else {
      var f, more := fields[0], fields[1..];
      var (b, mid) := EncodeType(f.typ, defs);
      var bs := EncodeFields(more, mid).0;
      var between := DecodeEncodeType(good, f.typ, defs, table, bs + suffix);
      after := FieldsRecover(good, more, mid, between, suffix);
      NameDecodes(f.name, b + (bs + suffix));
      Regroup(EncodeName(f.name), b, bs, suffix);
      StepFields(good, |fields|, EncodeName(f.name) + (b + (bs + suffix)), table, f.name, b + (bs + suffix),
                 Decoded(f.typ, bs + suffix, between), Decoded(more, suffix, after));
      assert [Field(f.name, f.typ)] + more == fields;
    }
  }

  lemma {:induction false} Regroup(x: seq<byte>, y: seq<byte>, z: seq<byte>, suffix: seq<byte>)
    ensures x + y + z + suffix == x + (y + (z + suffix))
    ensures x + y + suffix == x + (y + suffix)
  {
  }

  lemma {:induction false} UnionRecovers(good: Name -> bool, types: seq<Type>, defs: Bindings, table: Bindings, suffix: seq<byte>)
      returns (after: Bindings)
    requires WellFormed(good, Union(types)) && Follows(defs, table)
    ensures DecodeType(good, EncodeType(Union(types), defs).0 + suffix, table) == Some(Decoded(Union(types), suffix, after))
    ensures Follows(EncodeType(Union(types), defs).1, after)
    decreases types, 1
  {
    var b := EncodeTypes(types, defs).0;
    LengthDecodes(|types|, b + suffix);
    after := TypesRecover(good, types, defs, table, suffix);
    Header(UNION, Encode(|types|), b, suffix);
    Dispatch(good, [UNION] + Encode(|types|) + b + suffix, table, UNION, Encode(|types|) + (b + suffix));
    StepUnion(good, Encode(|types|) + (b + suffix), table, |types|, b + suffix, Decoded(types, suffix, after));
  }

  lemma {:induction false} TypesRecover(good: Name -> bool, types: seq<Type>, defs: Bindings, table: Bindings, suffix: seq<byte>)
      returns (after: Bindings)
    requires forall i :: 0 <= i < |types| ==> WellFormed(good, types[i])
    requires Follows(defs, table)
    ensures DecodeTypes(good, |types|, EncodeTypes(types, defs).0 + suffix, table) == Some(Decoded(types, suffix, after))
    ensures Follows(EncodeTypes(types, defs).1, after)
    decreases types, 0
  {
    if types == [] {
      assert EncodeTypes(types, defs).0 + suffix == suffix;
      after := table;
    } else {
      var t, more := types[0], types[1..];
      var (b, mid) := EncodeType(t, defs);
      var bs := EncodeTypes(more, mid).0;
      var between := DecodeEncodeType(good, t, defs, table, bs + suffix);
      after := TypesRecover(good, more, mid, between, suffix);
      Regroup(b, bs, [], suffix);
      StepTypes(good, |types|, b + (bs + suffix), table, Decoded(t, bs + suffix, between), Decoded(more, suffix, after));
      assert [t] + more == types;
    }
  }

  /** Whatever names a context has bound before, a type value followed by anything decodes to its type and what follows. */
  lemma {:induction false} TypeValueDecodes(good: Name -> bool, t: Type, table: Bindings, suffix: seq<byte>)
    requires WellFormed(good, t)
    ensures var r := DecodeType(good, EncodeTypeValue(t) + suffix, table);
            r.Some? && r.value.value == t && r.value.rest == suffix
  {
    var after := DecodeEncodeType(good, t, map[], table, suffix);
  }

  /** Distinct types have distinct type values, and none is the beginning of another. */
  lemma {:induction false} TypeValueInjective(good: Name -> bool, t: Type, u: Type, suffix: seq<byte>)
    requires WellFormed(good, t) && WellFormed(good, u)
    requires EncodeTypeValue(t) + suffix == EncodeTypeValue(u)
    ensures t == u && suffix == []
  {
    TypeValueDecodes(good, t, map[], suffix);
    TypeValueDecodes(good, u, map[], []);
    assert EncodeTypeValue(u) + [] == EncodeTypeValue(u);
  }
}
