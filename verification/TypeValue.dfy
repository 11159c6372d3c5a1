/**
 Type values: a type as bytes.  A name is written with its type where it is first met
 or bound to something else, and alone where it is still bound to the same type.
 */
module TypeValues {
  import opened Wrappers
  import opened Uvarint
  import opened Types
  import opened UnionTypes

  const MAX_MEMBERS := 100_000
  const INT_LIMIT: nat := 0x8000_0000_0000_0000

  const RECORD: byte := 30
  const ARRAY: byte := 31
  const SET: byte := 32
  const MAP: byte := 33
  const UNION: byte := 34
  const ENUM: byte := 35
  const ERROR: byte := 36
  const NAME_DEF: byte := 37
  const NAME_REF: byte := 38

  /** The primitive types that are implemented. */
  predicate IsPrimitive(id: nat) {
    id <= 3 || 6 <= id <= 9 || 12 <= id <= 16 || 23 <= id <= 29
  }

  /** Which type each name is bound to. */
  type Bindings = map<Name, Type>

  // ---------------------------------------------------------------------------
  // Encoding

  function EncodeName(name: Name): seq<byte> {
    Encode(|name|) + name
  }

  /** appendTypeValue: the bytes of a type, and the bindings after it. */
  function EncodeType(t: Type, defs: Bindings): (r: (seq<byte>, Bindings))
    ensures |r.0| > 0
    decreases t
  {
    match t
    case Named(name, inner) =>
      if name in defs && defs[name] == inner then ([NAME_REF] + EncodeName(name), defs)
      else
        var (b, after) := EncodeType(inner, defs);
        ([NAME_DEF] + EncodeName(name) + b, after[name := inner])
    case Record(fields) =>
      var (b, after) := EncodeFields(fields, defs);
      ([RECORD] + Encode(|fields|) + b, after)
    case Union(types) =>
      var (b, after) := EncodeTypes(types, defs);
      ([UNION] + Encode(|types|) + b, after)
    case Set(elem) =>
      var (b, after) := EncodeType(elem, defs);
      ([SET] + b, after)
    case Array(elem) =>
      var (b, after) := EncodeType(elem, defs);
      ([ARRAY] + b, after)
    case Enum(symbols) => ([ENUM] + Encode(|symbols|) + EncodeNames(symbols), defs)
    case Map(key, val) =>
      var (k, mid) := EncodeType(key, defs);
      var (v, after) := EncodeType(val, mid);
      ([MAP] + k + v, after)
    case Error(inner) =>
      var (b, after) := EncodeType(inner, defs);
      ([ERROR] + b, after)
    case Primitive(id) => ([id % 256], defs)
  }

  function EncodeFields(fields: seq<Field>, defs: Bindings): (seq<byte>, Bindings)
    decreases fields
  {
    if fields == [] then ([], defs)
    else
      var (b, mid) := EncodeType(fields[0].typ, defs);
      var (bs, after) := EncodeFields(fields[1..], mid);
      (EncodeName(fields[0].name) + b + bs, after)
  }

  function EncodeTypes(types: seq<Type>, defs: Bindings): (seq<byte>, Bindings)
    decreases types
  {
    if types == [] then ([], defs)
    else
      var (b, mid) := EncodeType(types[0], defs);
      var (bs, after) := EncodeTypes(types[1..], mid);
      (b + bs, after)
  }

  function EncodeNames(names: seq<Name>): seq<byte> {
    if names == [] then [] else EncodeName(names[0]) + EncodeNames(names[1..])
  }

  function EncodeTypeValue(t: Type): seq<byte> {
    EncodeType(t, map[]).0
  }

  // ---------------------------------------------------------------------------
  // Decoding

  /** What was decoded, the bytes that follow, and the name table of the context. */
  datatype Decoded<T> = Decoded(value: T, rest: seq<byte>, table: Bindings)

  function DecodeLength(b: seq<byte>): (r: Option<(nat, seq<byte>)>)
    ensures r.Some? ==> |r.value.1| < |b|
  {
    match Decode(b)
    case None => None
    case Some((n, size)) => if n < INT_LIMIT then Some((n, b[size..])) else None
  }

  function DecodeName(b: seq<byte>): (r: Option<(Name, seq<byte>)>)
    ensures r.Some? ==> |r.value.1| < |b|
  {
    match DecodeLength(b)
    case None => None
    case Some((n, rest)) => if n > |rest| then None else Some((rest[..n], rest[n..]))
  }

  /** DecodeTypeValue; `good` says which strings may name a type. */
  function DecodeType(good: Name -> bool, b: seq<byte>, table: Bindings): (r: Option<Decoded<Type>>)
    ensures r.Some? ==> |r.value.rest| < |b|
    decreases |b|, 0
  {
    if b == [] then None
    else
      var id, tv := b[0], b[1..];
      if id == NAME_DEF then DecodeNameDef(good, tv, table)
      else if id == NAME_REF then DecodeNameRef(tv, table)
      else if id == RECORD then DecodeRecord(good, tv, table)
      else if id == ARRAY || id == SET || id == ERROR then DecodeWrapper(good, id, tv, table)
      else if id == MAP then DecodeMap(good, tv, table)
      else if id == UNION then DecodeUnion(good, tv, table)
      else if id == ENUM then DecodeEnum(tv, table)
      else if IsPrimitive(id) then Some(Decoded(Primitive(id), tv, table))
      else None
  }

  function DecodeNameDef(good: Name -> bool, tv: seq<byte>, table: Bindings): (r: Option<Decoded<Type>>)
    ensures r.Some? ==> |r.value.rest| <= |tv|
    decreases |tv|, 2
  {
    match DecodeName(tv)
    case None => None
    case Some((name, rest)) =>
      match DecodeType(good, rest, table)
      case None => None
      case Some(Decoded(inner, rest', table')) =>
        if good(name) then Some(Decoded(Named(name, inner), rest', table'[name := Named(name, inner)])) else None
  }

  function DecodeNameRef(tv: seq<byte>, table: Bindings): (r: Option<Decoded<Type>>)
    ensures r.Some? ==> |r.value.rest| <= |tv|
  {
    match DecodeName(tv)
    case None => None
    case Some((name, rest)) => if name in table then Some(Decoded(table[name], rest, table)) else None
  }

  function DecodeRecord(good: Name -> bool, tv: seq<byte>, table: Bindings): (r: Option<Decoded<Type>>)
    ensures r.Some? ==> |r.value.rest| <= |tv|
    decreases |tv|, 2
  {
    match DecodeLength(tv)
    case None => None
    case Some((n, rest)) =>
      if n > MAX_MEMBERS then None
      else
        match DecodeFields(good, n, rest, table)
        case None => None
        case Some(Decoded(fields, rest', table')) =>
          if DistinctFields(fields) then Some(Decoded(Record(fields), rest', table')) else None
  }

  function DecodeWrapper(good: Name -> bool, id: byte, tv: seq<byte>, table: Bindings): (r: Option<Decoded<Type>>)
    ensures r.Some? ==> |r.value.rest| <= |tv|
    decreases |tv|, 2
  {
    match DecodeType(good, tv, table)
    case None => None
    case Some(Decoded(t, rest, table')) =>
      Some(Decoded(if id == ARRAY then Array(t) else if id == SET then Set(t) else Error(t), rest, table'))
  }

  function DecodeMap(good: Name -> bool, tv: seq<byte>, table: Bindings): (r: Option<Decoded<Type>>)
    ensures r.Some? ==> |r.value.rest| <= |tv|
    decreases |tv|, 2
  {
    match DecodeType(good, tv, table)
    case None => None
    case Some(Decoded(key, rest, table')) =>
      match DecodeType(good, rest, table')
      case None => None
      case Some(Decoded(val, rest', table'')) => Some(Decoded(Map(key, val), rest', table''))
  }

  function DecodeUnion(good: Name -> bool, tv: seq<byte>, table: Bindings): (r: Option<Decoded<Type>>)
    ensures r.Some? ==> |r.value.rest| <= |tv|
    decreases |tv|, 2
  {
    match DecodeLength(tv)
    case None => None
    case Some((n, rest)) =>
      if n > MAX_MEMBERS then None
      else
        match DecodeTypes(good, n, rest, table)
        case None => None
        case Some(Decoded(types, rest', table')) => Some(Decoded(Union(SortTypes(types)), rest', table'))
  }

  function DecodeEnum(tv: seq<byte>, table: Bindings): (r: Option<Decoded<Type>>)
    ensures r.Some? ==> |r.value.rest| <= |tv|
  {
    match DecodeLength(tv)
    case None => None
    case Some((n, rest)) =>
      if n > MAX_MEMBERS then None
      else
        match DecodeNames(n, rest)
        case None => None
        case Some((symbols, rest')) => Some(Decoded(Enum(symbols), rest', table))
  }

  function DecodeFields(good: Name -> bool, n: nat, b: seq<byte>, table: Bindings): (r: Option<Decoded<seq<Field>>>)
    ensures r.Some? ==> |r.value.rest| <= |b|
    decreases |b|, 1, n
  {
    if n == 0 then Some(Decoded([], b, table))
    else
      match DecodeName(b)
      case None => None
      case Some((name, rest)) =>
        match DecodeType(good, rest, table)
        case None => None
        case Some(Decoded(t, rest', table')) =>
          match DecodeFields(good, n - 1, rest', table')
          case None => None
          case Some(Decoded(fields, rest'', table'')) => Some(Decoded([Field(name, t)] + fields, rest'', table''))
  }

  function DecodeTypes(good: Name -> bool, n: nat, b: seq<byte>, table: Bindings): (r: Option<Decoded<seq<Type>>>)
    ensures r.Some? ==> |r.value.rest| <= |b|
    decreases |b|, 1, n
  {
    if n == 0 then Some(Decoded([], b, table))
    else
      match DecodeType(good, b, table)
      case None => None
      case Some(Decoded(t, rest, table')) =>
        match DecodeTypes(good, n - 1, rest, table')
        case None => None
        case Some(Decoded(types, rest', table'')) => Some(Decoded([t] + types, rest', table''))
  }

  function DecodeNames(n: nat, b: seq<byte>): (r: Option<(seq<Name>, seq<byte>)>)
    ensures r.Some? ==> |r.value.1| <= |b|
  {
    if n == 0 then Some(([], b))
    else
      match DecodeName(b)
      case None => None
      case Some((name, rest)) =>
        match DecodeNames(n - 1, rest)
        case None => None
        case Some((names, rest')) => Some(([name] + names, rest'))
  }

  // ---------------------------------------------------------------------------
  // The types of a context

  predicate Short(name: Name) {
    |name| < INT_LIMIT
  }

  /** A type that a context can hold, within the decoder's limits. */
  predicate WellFormed(good: Name -> bool, t: Type) {
    match t
    case Named(name, inner) => good(name) && Short(name) && WellFormed(good, inner)
    case Record(fields) =>
      && |fields| <= MAX_MEMBERS && DistinctFields(fields)
      && forall i :: 0 <= i < |fields| ==> Short(fields[i].name) && WellFormed(good, fields[i].typ)
    case Union(types) =>
      && |types| <= MAX_MEMBERS && SortTypes(types) == types
      && forall i :: 0 <= i < |types| ==> WellFormed(good, types[i])
    case Array(elem) => WellFormed(good, elem)
    case Set(elem) => WellFormed(good, elem)
    case Map(key, val) => WellFormed(good, key) && WellFormed(good, val)
    case Enum(symbols) => |symbols| <= MAX_MEMBERS && forall i :: 0 <= i < |symbols| ==> Short(symbols[i])
    case Error(inner) => WellFormed(good, inner)
    case Primitive(id) => IsPrimitive(id)
  }
}
