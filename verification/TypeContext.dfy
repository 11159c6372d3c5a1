/** The type context: every type is entered once, under its type value, and is known by its position. */
module TypeContexts {
  import opened Wrappers
  import opened Uvarint
  import opened Types
  import opened TypeValues
  import opened TypeValueRoundTrip
  import opened UnionTypes

  const FIRST_ID: nat := 30

  /** An entry of the context: a complex type whose components are given by their ids. */
  datatype Node =
    | RecordNode(names: seq<Name>, ids: seq<nat>)
    | ArrayNode(id: nat)
    | SetNode(id: nat)
    | MapNode(key: nat, val: nat)
    | UnionNode(ids: seq<nat>)
    | EnumNode(symbols: seq<Name>)
    | ErrorNode(id: nat)
    | NamedNode(name: Name, id: nat)

  function Components(n: Node): seq<nat> {
    match n
    case RecordNode(_, ids) => ids
    case ArrayNode(id) => [id]
    case SetNode(id) => [id]
    case MapNode(key, val) => [key, val]
    case UnionNode(ids) => ids
    case EnumNode(_) => []
    case ErrorNode(id) => [id]
    case NamedNode(_, id) => [id]
  }

  /** An id among the primitive types or the first `k` entries. */
  predicate Known(id: nat, k: nat) {
    if id < FIRST_ID then IsPrimitive(id) else id < FIRST_ID + k
  }

  predicate AllKnown(ids: seq<nat>, k: nat) {
    forall i :: 0 <= i < |ids| ==> Known(ids[i], k)
  }

  /** The components of every entry come before it. */
  predicate Ordered(nodes: seq<Node>) {
    forall i :: 0 <= i < |nodes| ==> AllKnown(Components(nodes[i]), i)
  }

  /** The type that an id stands for. */
  function TypeOf(nodes: seq<Node>, id: nat): Type
    requires Ordered(nodes) && Known(id, |nodes|)
    decreases id, 1
  {
    if id < FIRST_ID then Primitive(id)
    else
      var n := nodes[id - FIRST_ID];
      assert AllKnown(Components(n), id - FIRST_ID);
      match n
      case RecordNode(names, ids) => Record(FieldsOf(names, TypesOf(nodes, ids, id)))
      case ArrayNode(e) => assert Components(n)[0] == e; Array(TypeOf(nodes, e))
      case SetNode(e) => assert Components(n)[0] == e; Set(TypeOf(nodes, e))
      case MapNode(k, v) => assert Components(n)[0] == k && Components(n)[1] == v; Map(TypeOf(nodes, k), TypeOf(nodes, v))
      case UnionNode(ids) => Union(TypesOf(nodes, ids, id))
      case EnumNode(symbols) => Enum(symbols)
      case ErrorNode(e) => assert Components(n)[0] == e; Error(TypeOf(nodes, e))
      case NamedNode(name, e) => assert Components(n)[0] == e; Named(name, TypeOf(nodes, e))
  }

  function TypesOf(nodes: seq<Node>, ids: seq<nat>, bound: nat): (r: seq<Type>)
    requires Ordered(nodes) && forall i :: 0 <= i < |ids| ==> ids[i] < bound && Known(ids[i], |nodes|)
    ensures |r| == |ids|
    decreases bound, 0
  {
    seq(|ids|, i requires 0 <= i < |ids| => TypeOf(nodes, ids[i]))
  }

  function FieldsOf(names: seq<Name>, types: seq<Type>): (r: seq<Field>)
    ensures |r| == |types|
  {
    seq(|types|, i requires 0 <= i < |types| => Field(if i < |names| then names[i] else [], types[i]))
  }

  /** The type that an entry would have. */
  function NodeType(nodes: seq<Node>, n: Node): Type
    requires Ordered(nodes) && AllKnown(Components(n), |nodes|)
  {
    assert Ordered(nodes + [n]);
    TypeOf(nodes + [n], FIRST_ID + |nodes|)
  }

  /** Entering a type changes no other. */
  lemma {:induction false} TypeOfPrefix(nodes: seq<Node>, more: seq<Node>, id: nat)
    requires nodes <= more && Ordered(more) && Known(id, |nodes|)
    ensures Ordered(nodes) && Known(id, |more|) && TypeOf(nodes, id) == TypeOf(more, id)
    decreases id
  {
    if id >= FIRST_ID {
      var n := nodes[id - FIRST_ID];
      assert n == more[id - FIRST_ID];
      forall i | 0 <= i < |Components(n)| ensures TypeOf(nodes, Components(n)[i]) == TypeOf(more, Components(n)[i]) {
        assert AllKnown(Components(n), id - FIRST_ID);
        TypeOfPrefix(nodes, more, Components(n)[i]);
      }
      match n
      case RecordNode(names, ids) => assert TypesOf(nodes, ids, id) == TypesOf(more, ids, id);
      case UnionNode(ids) => assert TypesOf(nodes, ids, id) == TypesOf(more, ids, id);
      case EnumNode(_) =>
      case MapNode(k, v) => assert Components(n)[0] == k && Components(n)[1] == v;
      case _ => assert Components(n)[0] == n.id;
    }
  }

  // ---------------------------------------------------------------------------
  // What every operation keeps

  /** Every entry is a type within the limits. */
  ghost predicate AllWellFormed(good: Name -> bool, nodes: seq<Node>)
    requires Ordered(nodes)
  {
    forall id: nat :: Known(id, |nodes|) ==> WellFormed(good, TypeOf(nodes, id))
  }

  /** The type value of every entry leads to it. */
  ghost predicate Keyed(nodes: seq<Node>, toType: map<seq<byte>, nat>)
    requires Ordered(nodes)
  {
    forall id: nat :: FIRST_ID <= id < FIRST_ID + |nodes| ==>
      EncodeTypeValue(TypeOf(nodes, id)) in toType && toType[EncodeTypeValue(TypeOf(nodes, id))] == id
  }

  /** The type value of a type. */
  ghost predicate Written(good: Name -> bool, tv: seq<byte>) {
    exists t :: WellFormed(good, t) && EncodeTypeValue(t) == tv
  }

  /**
   Bytes only lead to the type whose value they are. Bytes in `odd` are no type's value and lead to
   what they were decoded to.
   */
  ghost predicate Sound(good: Name -> bool, nodes: seq<Node>, toType: map<seq<byte>, nat>, odd: set<seq<byte>>)
    requires Ordered(nodes)
  {
    && (forall tv :: tv in toType ==> Known(toType[tv], |nodes|) && (tv in odd || EncodeTypeValue(TypeOf(nodes, toType[tv])) == tv))
    && forall tv :: tv in odd ==> tv in toType && !Written(good, tv)
  }

  /** The bytes cached for a type lead to it, and every type that bytes lead to has some. */
  ghost predicate Cached(nodes: seq<Node>, toType: map<seq<byte>, nat>, toValue: map<nat, seq<byte>>) {
    && (forall id :: id in toValue ==> Known(id, |nodes|) && toValue[id] in toType && toType[toValue[id]] == id)
    && forall tv :: tv in toType ==> toType[tv] in toValue
  }

  /** The last binding of each name. */
  ghost predicate Bound(nodes: seq<Node>, typedefs: map<Name, nat>)
    requires Ordered(nodes)
  {
    forall name :: name in typedefs ==>
      Known(typedefs[name], |nodes|) && TypeOf(nodes, typedefs[name]).Named? && TypeOf(nodes, typedefs[name]).name == name
  }

  ghost predicate Interned(good: Name -> bool, nodes: seq<Node>, toType: map<seq<byte>, nat>, toValue: map<nat, seq<byte>>,
                           typedefs: map<Name, nat>, odd: set<seq<byte>>) {
    && Ordered(nodes)
    && AllWellFormed(good, nodes)
    && Keyed(nodes, toType)
    && Sound(good, nodes, toType, odd)
    && Cached(nodes, toType, toValue)
    && Bound(nodes, typedefs)
  }

  /** A context is hash-consed: no two ids stand for the same type. */
  lemma {:induction false} HashConsed(nodes: seq<Node>, toType: map<seq<byte>, nat>, x: nat, y: nat)
    requires Ordered(nodes) && Keyed(nodes, toType) && Known(x, |nodes|) && Known(y, |nodes|)
    requires TypeOf(nodes, x) == TypeOf(nodes, y)
    ensures x == y
  {
  }

  /** A type value in the table leads to the type it is the value of. */
  lemma {:induction false} Leads(good: Name -> bool, nodes: seq<Node>, toType: map<seq<byte>, nat>, odd: set<seq<byte>>, t: Type)
    requires Ordered(nodes) && AllWellFormed(good, nodes) && Sound(good, nodes, toType, odd)
    requires WellFormed(good, t) && EncodeTypeValue(t) in toType
    ensures Known(toType[EncodeTypeValue(t)], |nodes|) && TypeOf(nodes, toType[EncodeTypeValue(t)]) == t
  {
    var id := toType[EncodeTypeValue(t)];
    var u := TypeOf(nodes, id);
    assert Written(good, EncodeTypeValue(t));
    assert EncodeTypeValue(u) + [] == EncodeTypeValue(t);
    TypeValueInjective(good, u, t, []);
  }

  lemma {:induction false} OrderedGrows(nodes: seq<Node>, n: Node)
    requires Ordered(nodes) && AllKnown(Components(n), |nodes|)
    ensures Ordered(nodes + [n])
  {
  }

  /** An entry is added under its type value and leaves the others as they were. */
  lemma {:induction false} EnterKeeps(good: Name -> bool, nodes: seq<Node>, toType: map<seq<byte>, nat>, odd: set<seq<byte>>, n: Node)
    requires Ordered(nodes) && AllKnown(Components(n), |nodes|)
    requires AllWellFormed(good, nodes) && Keyed(nodes, toType) && Sound(good, nodes, toType, odd)
    requires WellFormed(good, NodeType(nodes, n)) && EncodeTypeValue(NodeType(nodes, n)) !in toType
    ensures var more, entered := nodes + [n], toType[EncodeTypeValue(NodeType(nodes, n)) := FIRST_ID + |nodes|];
            Ordered(more) && AllWellFormed(good, more) && Keyed(more, entered) && Sound(good, more, entered, odd)
  {
    var more, entered, next := nodes + [n], toType[EncodeTypeValue(NodeType(nodes, n)) := FIRST_ID + |nodes|], FIRST_ID + |nodes|;
    OrderedGrows(nodes, n);
    forall id: nat | Known(id, |nodes|) ensures TypeOf(more, id) == TypeOf(nodes, id) {
      TypeOfPrefix(nodes, more, id);
    }
    forall id: nat | Known(id, |more|) ensures WellFormed(good, TypeOf(more, id)) {
      assert id == next || Known(id, |nodes|);
    }
    forall id: nat | FIRST_ID <= id < FIRST_ID + |more|
      ensures EncodeTypeValue(TypeOf(more, id)) in entered && entered[EncodeTypeValue(TypeOf(more, id))] == id
    {
      assert id == next || Known(id, |nodes|);
    }
  }

  /** Where some bytes already lead is the type they are to be filed for. */
  lemma {:induction false} FiledOnce(good: Name -> bool, nodes: seq<Node>, toType: map<seq<byte>, nat>, odd: set<seq<byte>>, tv: seq<byte>, id: nat)
    requires Ordered(nodes) && AllWellFormed(good, nodes) && Keyed(nodes, toType) && Sound(good, nodes, toType, odd)
    requires Known(id, |nodes|) && tv !in odd && (Written(good, tv) ==> tv == EncodeTypeValue(TypeOf(nodes, id)))
    ensures tv in toType ==> tv == EncodeTypeValue(TypeOf(nodes, id)) && toType[tv] == id
    ensures forall x: nat :: FIRST_ID <= x < FIRST_ID + |nodes| && EncodeTypeValue(TypeOf(nodes, x)) == tv ==> x == id
  {
    if tv in toType {
      assert Written(good, tv);
      Leads(good, nodes, toType, odd, TypeOf(nodes, id));
      HashConsed(nodes, toType, toType[tv], id);
    }
  }

  lemma {:induction false} FiledSoundly(good: Name -> bool, nodes: seq<Node>, toType: map<seq<byte>, nat>, odd: set<seq<byte>>, tv: seq<byte>, id: nat)
    requires Ordered(nodes) && Sound(good, nodes, toType, odd)
    requires Known(id, |nodes|) && tv !in odd && (Written(good, tv) ==> tv == EncodeTypeValue(TypeOf(nodes, id)))
    requires tv == EncodeTypeValue(TypeOf(nodes, id)) ==> Written(good, tv)
    ensures Sound(good, nodes, toType[tv := id], if tv == EncodeTypeValue(TypeOf(nodes, id)) then odd else odd + {tv})
  {
  }

  lemma {:induction false} FiledCached(nodes: seq<Node>, toType: map<seq<byte>, nat>, toValue: map<nat, seq<byte>>, tv: seq<byte>, id: nat)
    requires Cached(nodes, toType, toValue) && Known(id, |nodes|) && (tv in toType ==> toType[tv] == id)
    ensures Cached(nodes, toType[tv := id], toValue[id := tv])
  {
  }

  /** Filing a type under bytes that are its value or no type's. */
  lemma {:induction false} FiledUnder(good: Name -> bool, nodes: seq<Node>, toType: map<seq<byte>, nat>, toValue: map<nat, seq<byte>>,
                                      typedefs: map<Name, nat>, odd: set<seq<byte>>, tv: seq<byte>, id: nat)
    requires Interned(good, nodes, toType, toValue, typedefs, odd) && Known(id, |nodes|)
    requires tv !in odd && (Written(good, tv) ==> tv == EncodeTypeValue(TypeOf(nodes, id)))
    ensures Interned(good, nodes, toType[tv := id], toValue[id := tv], typedefs,
                     if tv == EncodeTypeValue(TypeOf(nodes, id)) then odd else odd + {tv})
  {
    FiledOnce(good, nodes, toType, odd, tv, id);
    assert tv == EncodeTypeValue(TypeOf(nodes, id)) ==> Written(good, tv);
    FiledSoundly(good, nodes, toType, odd, tv, id);
    FiledCached(nodes, toType, toValue, tv, id);
  }

  lemma {:induction false} CachedIs(good: Name -> bool, nodes: seq<Node>, toType: map<seq<byte>, nat>, toValue: map<nat, seq<byte>>,
                                    typedefs: map<Name, nat>, odd: set<seq<byte>>, id: nat)
    requires Interned(good, nodes, toType, toValue, typedefs, odd) && Known(id, |nodes|) && id in toValue
    ensures toValue[id] in toType && toType[toValue[id]] == id
    ensures toValue[id] == EncodeTypeValue(TypeOf(nodes, id)) <==> toValue[id] !in odd
  {
    assert Written(good, EncodeTypeValue(TypeOf(nodes, id)));
  }

  /** Only a primitive type can be without cached bytes. */
  lemma {:induction false} Uncached(good: Name -> bool, nodes: seq<Node>, toType: map<seq<byte>, nat>, toValue: map<nat, seq<byte>>,
                                    typedefs: map<Name, nat>, odd: set<seq<byte>>, id: nat)
    requires Interned(good, nodes, toType, toValue, typedefs, odd) && Known(id, |nodes|) && id !in toValue
    ensures TypeOf(nodes, id).Primitive? && EncodeTypeValue(TypeOf(nodes, id)) !in toType
    ensures WellFormed(good, TypeOf(nodes, id)) && Written(good, EncodeTypeValue(TypeOf(nodes, id)))
    ensures EncodeTypeValue(TypeOf(nodes, id)) !in odd
  {
    assert Written(good, EncodeTypeValue(TypeOf(nodes, id)));
    if EncodeTypeValue(TypeOf(nodes, id)) in toType {
      Leads(good, nodes, toType, odd, TypeOf(nodes, id));
      HashConsed(nodes, toType, toType[EncodeTypeValue(TypeOf(nodes, id))], id);
    }
  }

  lemma {:induction false} BindingsKeep(nodes: seq<Node>, n: Node, typedefs: map<Name, nat>)
    requires Ordered(nodes) && AllKnown(Components(n), |nodes|) && Bound(nodes, typedefs)
    ensures Ordered(nodes + [n]) && Bound(nodes + [n], typedefs)
  {
    OrderedGrows(nodes, n);
    forall id: nat | Known(id, |nodes|) ensures TypeOf(nodes + [n], id) == TypeOf(nodes, id) {
      TypeOfPrefix(nodes, nodes + [n], id);
    }
  }

  lemma {:induction false} NamedEnters(good: Name -> bool, nodes: seq<Node>, name: Name, inner: nat)
    requires Ordered(nodes) && AllWellFormed(good, nodes) && Known(inner, |nodes|) && Short(name) && good(name)
    ensures AllKnown(Components(NamedNode(name, inner)), |nodes|)
    ensures NodeType(nodes, NamedNode(name, inner)) == Named(name, TypeOf(nodes, inner))
    ensures WellFormed(good, NodeType(nodes, NamedNode(name, inner)))
  {
    NodeTypeIs(nodes, NamedNode(name, inner));
  }

  lemma {:induction false} BoundTo(nodes: seq<Node>, typedefs: map<Name, nat>, name: Name, id: nat)
    requires Ordered(nodes) && Bound(nodes, typedefs) && Known(id, |nodes|)
    requires TypeOf(nodes, id).Named? && TypeOf(nodes, id).name == name
    ensures Bound(nodes, typedefs[name := id])
  {
  }

  class Context {
    const good: Name -> bool
    var nodes: seq<Node>
    var toType: map<seq<byte>, nat>
    var toValue: map<nat, seq<byte>>
    var typedefs: map<Name, nat>
    /** The bytes in the table that are no type's value. */
    ghost var odd: set<seq<byte>>

    ghost predicate Valid()
      reads this
    {
      Interned(good, nodes, toType, toValue, typedefs, odd)
    }

    constructor (good: Name -> bool)
      ensures Valid() && this.good == good && nodes == [] && odd == {}
    {
      this.good, nodes, toType, toValue, typedefs, odd := good, [], map[], map[], map[], {};
    }

    /** The part that all lookups share: the entry with this type value, entered if there is none. */
    method Lookup(n: Node) returns (id: nat)
      requires Valid() && AllKnown(Components(n), |nodes|) && WellFormed(good, NodeType(nodes, n))
      modifies this`nodes, this`toType, this`toValue
      ensures Valid() && old(nodes) <= nodes
      ensures Known(id, |nodes|) && TypeOf(nodes, id) == NodeType(old(nodes), n)
    {
      var tv := EncodeTypeValue(NodeType(nodes, n));
      if tv in toType {
        Leads(good, nodes, toType, odd, NodeType(nodes, n));
        return toType[tv];
      }
      EnterKeeps(good, nodes, toType, odd, n);
      BindingsKeep(nodes, n, typedefs);
      id := FIRST_ID + |nodes|;
      toValue := toValue[id := tv];
      toType := toType[tv := id];
      nodes := nodes + [n];
    }

    method LookupTypeArray(inner: nat) returns (id: nat)
      requires Valid() && Known(inner, |nodes|)
      modifies this`nodes, this`toType, this`toValue
      ensures Valid() && old(nodes) <= nodes
      ensures Known(id, |nodes|) && TypeOf(nodes, id) == Array(TypeOf(old(nodes), inner))
    {
      NodeTypeIs(nodes, ArrayNode(inner));
      id := Lookup(ArrayNode(inner));
    }

    method LookupTypeSet(inner: nat) returns (id: nat)
      requires Valid() && Known(inner, |nodes|)
      modifies this`nodes, this`toType, this`toValue
      ensures Valid() && old(nodes) <= nodes
      ensures Known(id, |nodes|) && TypeOf(nodes, id) == Set(TypeOf(old(nodes), inner))
    {
      NodeTypeIs(nodes, SetNode(inner));
      id := Lookup(SetNode(inner));
    }

    method LookupTypeError(inner: nat) returns (id: nat)
      requires Valid() && Known(inner, |nodes|)
      modifies this`nodes, this`toType, this`toValue
      ensures Valid() && old(nodes) <= nodes
      ensures Known(id, |nodes|) && TypeOf(nodes, id) == Error(TypeOf(old(nodes), inner))
    {
      NodeTypeIs(nodes, ErrorNode(inner));
      id := Lookup(ErrorNode(inner));
    }

    method LookupTypeMap(key: nat, val: nat) returns (id: nat)
      requires Valid() && Known(key, |nodes|) && Known(val, |nodes|)
      modifies this`nodes, this`toType, this`toValue
      ensures Valid() && old(nodes) <= nodes
      ensures Known(id, |nodes|) && TypeOf(nodes, id) == Map(TypeOf(old(nodes), key), TypeOf(old(nodes), val))
    {
      NodeTypeIs(nodes, MapNode(key, val));
      id := Lookup(MapNode(key, val));
    }

    method LookupTypeEnum(symbols: seq<Name>) returns (id: nat)
      requires Valid() && WellFormed(good, Enum(symbols))
      modifies this`nodes, this`toType, this`toValue
      ensures Valid() && old(nodes) <= nodes
      ensures Known(id, |nodes|) && TypeOf(nodes, id) == Enum(symbols)
    {
      NodeTypeIs(nodes, EnumNode(symbols));
      id := Lookup(EnumNode(symbols));
    }

    /** Nothing for a duplicate field. */
    method LookupTypeRecord(names: seq<Name>, ids: seq<nat>) returns (r: Option<nat>)
      requires Valid() && AllKnown(ids, |nodes|) && |names| == |ids| <= MAX_MEMBERS
      requires forall i :: 0 <= i < |names| ==> Short(names[i])
      modifies this`nodes, this`toType, this`toValue
      ensures Valid() && old(nodes) <= nodes
      ensures r.Some? <==> forall i, j :: 0 <= i < j < |names| ==> names[i] != names[j]
      ensures r.Some? ==> Known(r.value, |nodes|) && TypeOf(nodes, r.value) == Record(FieldsOf(names, Listed(old(nodes), ids)))
      ensures r.None? ==> nodes == old(nodes)
    {
      if i, j :| 0 <= i < j < |names| && names[i] == names[j] {
        return None;
      }
      NodeTypeIs(nodes, RecordNode(names, ids));
      var id := Lookup(RecordNode(names, ids));
      r := Some(id);
    }

    /** The union of these types, whatever their order. */
    method LookupTypeUnion(ids: seq<nat>) returns (id: nat)
      requires Valid() && AllKnown(ids, |nodes|) && |ids| <= MAX_MEMBERS
      modifies this`nodes, this`toType, this`toValue
      ensures Valid() && old(nodes) <= nodes
      ensures Known(id, |nodes|) && TypeOf(nodes, id) == Union(SortTypes(Listed(old(nodes), ids)))
    {
      SortedUnion(good, nodes, ids);
      id := Lookup(UnionNode(SortIds(nodes, ids)));
    }

    /** Also binds the name; nothing for a string that may not name a type. */
    method LookupTypeNamed(name: Name, inner: nat) returns (r: Option<nat>)
      requires Valid() && Known(inner, |nodes|) && Short(name)
      modifies this`nodes, this`toType, this`toValue, this`typedefs
      ensures Valid() && old(nodes) <= nodes
      ensures r.Some? <==> good(name)
      ensures r.Some? ==> Known(r.value, |nodes|) && TypeOf(nodes, r.value) == Named(name, TypeOf(old(nodes), inner))
      ensures typedefs == if r.Some? then old(typedefs)[name := r.value] else old(typedefs)
    {
      if !good(name) {
        return None;
      }
      NamedEnters(good, nodes, name, inner);
      var id := Lookup(NamedNode(name, inner));
      BoundTo(nodes, typedefs, name, id);
      typedefs := typedefs[name := id];
      r := Some(id);
    }

    /** Decodes the type value at the front of some bytes, entering its types and binding its names as it goes. */
    method DecodeTypeValue(tv: seq<byte>) returns (r: Option<(nat, seq<byte>)>)
      requires Valid()
      modifies this`nodes, this`toType, this`toValue, this`typedefs
      ensures Valid() && old(nodes) <= nodes
      ensures Decodes(DecodeType(good, tv, TableOf(old(nodes), old(typedefs))), r, nodes, typedefs)
      ensures tv != [] && IsPrimitive(tv[0]) ==> nodes == old(nodes)
      decreases |tv|, 0
    {
      if tv == [] {
        return None;
      }
      var id, rest := tv[0], tv[1..];
      if id == NAME_DEF {
        r := DecodeDef(rest);
      } else if id == NAME_REF {
        r := DecodeRef(rest);
      } else if id == RECORD {
        r := DecodeRecordValue(rest);
      } else if id == ARRAY || id == SET || id == ERROR {
        r := DecodeInner(id, rest);
      } else if id == MAP {
        r := DecodeKeyAndValue(rest);
      } else if id == UNION {
        r := DecodeUnionValue(rest);
      } else if id == ENUM {
        r := DecodeEnumValue(rest);
      } else if IsPrimitive(id) {
        r := Some((id, rest));
      } else {
        r := None;
      }
    }

    method DecodeDef(tv: seq<byte>) returns (r: Option<(nat, seq<byte>)>)
      requires Valid()
      modifies this`nodes, this`toType, this`toValue, this`typedefs
      ensures Valid() && old(nodes) <= nodes
      ensures Decodes(DecodeNameDef(good, tv, TableOf(old(nodes), old(typedefs))), r, nodes, typedefs)
      decreases |tv|, 2
    {
      match DecodeName(tv)
      case None => return None;
      case Some((name, rest)) =>
        var inner := DecodeTypeValue(rest);
        if inner.None? {
          return None;
        }
        ghost var before, defs := nodes, typedefs;
        var named := LookupTypeNamed(name, inner.value.0);
        if named.None? {
          return None;
        }
        TableBinds(before, nodes, defs, name, named.value);
        r := Some((named.value, inner.value.1));
    }

    method DecodeRef(tv: seq<byte>) returns (r: Option<(nat, seq<byte>)>)
      requires Valid()
      ensures Decodes(DecodeNameRef(tv, TableOf(nodes, typedefs)), r, nodes, typedefs)
    {
      match DecodeName(tv)
      case None => return None;
      case Some((name, rest)) =>
        r := if name in typedefs then Some((typedefs[name], rest)) else None;
    }

    method DecodeInner(id: byte, tv: seq<byte>) returns (r: Option<(nat, seq<byte>)>)
      requires Valid() && (id == ARRAY || id == SET || id == ERROR)
      modifies this`nodes, this`toType, this`toValue, this`typedefs
      ensures Valid() && old(nodes) <= nodes
      ensures Decodes(DecodeWrapper(good, id, tv, TableOf(old(nodes), old(typedefs))), r, nodes, typedefs)
      decreases |tv|, 2
    {
      var inner := DecodeTypeValue(tv);
      if inner.None? {
        return None;
      }
      ghost var before := nodes;
      var t;
      if id == ARRAY {
        t := LookupTypeArray(inner.value.0);
      } else if id == SET {
        t := LookupTypeSet(inner.value.0);
      } else {
        t := LookupTypeError(inner.value.0);
      }
      TableStays(before, nodes, typedefs);
      r := Some((t, inner.value.1));
    }

    method DecodeKeyAndValue(tv: seq<byte>) returns (r: Option<(nat, seq<byte>)>)
      requires Valid()
      modifies this`nodes, this`toType, this`toValue, this`typedefs
      ensures Valid() && old(nodes) <= nodes
      ensures Decodes(DecodeMap(good, tv, TableOf(old(nodes), old(typedefs))), r, nodes, typedefs)
      decreases |tv|, 2
    {
      var key := DecodeTypeValue(tv);
      if key.None? {
        return None;
      }
      ghost var before := nodes;
      var val := DecodeTypeValue(key.value.1);
      if val.None? {
        return None;
      }
      TypeOfPrefix(before, nodes, key.value.0);
      before := nodes;
      var t := LookupTypeMap(key.value.0, val.value.0);
      TableStays(before, nodes, typedefs);
      r := Some((t, val.value.1));
    }

    method DecodeEnumValue(tv: seq<byte>) returns (r: Option<(nat, seq<byte>)>)
      requires Valid()
      modifies this`nodes, this`toType, this`toValue, this`typedefs
      ensures Valid() && old(nodes) <= nodes
      ensures Decodes(DecodeEnum(tv, TableOf(old(nodes), old(typedefs))), r, nodes, typedefs)
    {
      match DecodeLength(tv)
      case None => return None;
      case Some((n, rest)) =>
        if n > MAX_MEMBERS {
          return None;
        }
        match DecodeNames(n, rest)
        case None => return None;
        case Some((symbols, rest')) =>
          NamesShort(n, rest);
          ghost var before := nodes;
          var t := LookupTypeEnum(symbols);
          TableStays(before, nodes, typedefs);
          r := Some((t, rest'));
    }

    method DecodeRecordValue(tv: seq<byte>) returns (r: Option<(nat, seq<byte>)>)
      requires Valid()
      modifies this`nodes, this`toType, this`toValue, this`typedefs
      ensures Valid() && old(nodes) <= nodes
      ensures Decodes(DecodeRecord(good, tv, TableOf(old(nodes), old(typedefs))), r, nodes, typedefs)
      decreases |tv|, 2
    {
      match DecodeLength(tv)
      case None => return None;
      case Some((n, rest)) =>
        if n > MAX_MEMBERS {
          return None;
        }
        var fields := DecodeFieldList(n, rest);
        if fields.None? {
          return None;
        }
        var (names, ids, rest') := fields.value;
        ghost var before := nodes;
        FieldsDistinct(names, Listed(nodes, ids));
        var t := LookupTypeRecord(names, ids);
        if t.None? {
          return None;
        }
        TableStays(before, nodes, typedefs);
        r := Some((t.value, rest'));
    }

    /** The names and types of `n` fields. */
    method DecodeFieldList(n: nat, b: seq<byte>) returns (r: Option<(seq<Name>, seq<nat>, seq<byte>)>)
      requires Valid()
      modifies this`nodes, this`toType, this`toValue, this`typedefs
      ensures Valid() && old(nodes) <= nodes
      ensures DecodesFields(DecodeFields(good, n, b, TableOf(old(nodes), old(typedefs))), n, r, nodes, typedefs)
      decreases |b|, 1, n
    {
      if n == 0 {
        return Some(([], [], b));
      }
      match DecodeName(b)
      case None => return None;
      case Some((name, rest)) =>
        var t := DecodeTypeValue(rest);
        if t.None? {
          return None;
        }
        ghost var before := nodes;
        var more := DecodeFieldList(n - 1, t.value.1);
        if more.None? {
          return None;
        }
        TypeOfPrefix(before, nodes, t.value.0);
        FieldsCons(nodes, name, t.value.0, more.value.0, more.value.1);
        r := Some(([name] + more.value.0, [t.value.0] + more.value.1, more.value.2));
    }

    method DecodeUnionValue(tv: seq<byte>) returns (r: Option<(nat, seq<byte>)>)
      requires Valid()
      modifies this`nodes, this`toType, this`toValue, this`typedefs
      ensures Valid() && old(nodes) <= nodes
      ensures Decodes(DecodeUnion(good, tv, TableOf(old(nodes), old(typedefs))), r, nodes, typedefs)
      decreases |tv|, 2
    {
      match DecodeLength(tv)
      case None => return None;
      case Some((n, rest)) =>
        if n > MAX_MEMBERS {
          return None;
        }
        var members := DecodeTypeList(n, rest);
        if members.None? {
          return None;
        }
        ghost var before := nodes;
        var t := LookupTypeUnion(members.value.0);
        TableStays(before, nodes, typedefs);
        r := Some((t, members.value.1));
    }

    method DecodeTypeList(n: nat, b: seq<byte>) returns (r: Option<(seq<nat>, seq<byte>)>)
      requires Valid()
      modifies this`nodes, this`toType, this`toValue, this`typedefs
      ensures Valid() && old(nodes) <= nodes
      ensures DecodesTypes(DecodeTypes(good, n, b, TableOf(old(nodes), old(typedefs))), n, r, nodes, typedefs)
      decreases |b|, 1, n
    {
      if n == 0 {
        return Some(([], b));
      }
      var t := DecodeTypeValue(b);
      if t.None? {
        return None;
      }
      ghost var before := nodes;
      var more := DecodeTypeList(n - 1, t.value.1);
      if more.None? {
        return None;
      }
      TypeOfPrefix(before, nodes, t.value.0);
      TypesCons(nodes, t.value.0, more.value.0);
      r := Some(([t.value.0] + more.value.0, more.value.1));
    }

    /**
     The type that these bytes lead to. If they are not in the table they are decoded, whatever
     follows the type in them is ignored, and the type is filed under all of them.
     */
    method LookupByValue(tv: seq<byte>) returns (r: Option<nat>)
      requires Valid()
      modifies this
      ensures Valid() && old(nodes) <= nodes
      ensures tv in old(toType) ==>
        r == Some(old(toType)[tv]) && nodes == old(nodes) && toValue == old(toValue) && typedefs == old(typedefs) && odd == old(odd)
      ensures tv !in old(toType) ==>
        var d := DecodeType(good, tv, TableOf(old(nodes), old(typedefs)));
        && (r.Some? <==> d.Some?)
        && (r.Some? ==> Known(r.value, |nodes|) && TypeOf(nodes, r.value) == d.value.value
                        && TableOf(nodes, typedefs) == d.value.table
                        && r.value in toValue && toValue[r.value] == tv
                        && odd == if tv == EncodeTypeValue(d.value.value) then old(odd) else old(odd) + {tv})
      ensures r.Some? ==> Known(r.value, |nodes|) && tv in toType && toType[tv] == r.value
      ensures Written(good, tv) ==> r.Some? && EncodeTypeValue(TypeOf(nodes, r.value)) == tv
      ensures tv in old(toType) || (tv != [] && IsPrimitive(tv[0])) ==> nodes == old(nodes)
    {
      if tv in toType {
        return Some(toType[tv]);
      }
      ghost var table := TableOf(nodes, typedefs);
      var d := DecodeTypeValue(tv);
      if Written(good, tv) {
        WrittenDecodes(good, tv, table);
      }
      if d.None? {
        return None;
      }
      File(tv, d.value.0);
      r := Some(d.value.0);
    }

    /** Files a type under the bytes it was decoded from. */
    method File(tv: seq<byte>, id: nat)
      requires Valid() && Known(id, |nodes|) && tv !in odd
      requires Written(good, tv) ==> tv == EncodeTypeValue(TypeOf(nodes, id))
      modifies this`toType, this`toValue, this`odd
      ensures Valid()
      ensures toType == old(toType)[tv := id] && toValue == old(toValue)[id := tv]
      ensures odd == if tv == EncodeTypeValue(TypeOf(nodes, id)) then old(odd) else old(odd) + {tv}
    {
      FiledUnder(good, nodes, toType, toValue, typedefs, odd, tv, id);
      odd := if tv == EncodeTypeValue(TypeOf(nodes, id)) then odd else odd + {tv};
      toValue := toValue[id := tv];
      toType := toType[tv := id];
    }

    /**
     The bytes cached for a type, which lead back to it. They are its type value unless it was last
     filed under other bytes.
     */
    method LookupTypeValue(id: nat) returns (tv: seq<byte>)
      requires Valid() && Known(id, |nodes|)
      modifies this
      ensures Valid() && nodes == old(nodes) && odd == old(odd)
      ensures tv in toType && toType[tv] == id && (id in old(toValue) ==> tv == old(toValue)[id])
      ensures tv == EncodeTypeValue(TypeOf(nodes, id)) <==> !(id in old(toValue) && old(toValue)[id] in odd)
    {
      if id in toValue {
        CachedIs(good, nodes, toType, toValue, typedefs, odd, id);
        return toValue[id];
      }
      tv := EncodeTypeValue(TypeOf(nodes, id));
      Uncached(good, nodes, toType, toValue, typedefs, odd, id);
      ValueDecodes(good, TypeOf(nodes, id), tv, TableOf(nodes, typedefs));
      var r := LookupByValue(tv);
      HashConsed(nodes, toType, id, r.value);
      tv := toValue[r.value];
    }

    /** The same type in this context. */
    method TranslateType(ext: Type) returns (r: Option<nat>)
      requires Valid() && WellFormed(good, ext)
      modifies this
      ensures Valid() && old(nodes) <= nodes && odd == old(odd)
      ensures r.Some? && Known(r.value, |nodes|) && TypeOf(nodes, r.value) == ext
      ensures EncodeTypeValue(ext) in old(toType) || ext.Primitive? ==> nodes == old(nodes)
    {
      ValueDecodes(good, ext, EncodeTypeValue(ext), TableOf(nodes, typedefs));
      assert Written(good, EncodeTypeValue(ext));
      r := LookupByValue(EncodeTypeValue(ext));
      Leads(good, nodes, toType, odd, ext);
    }
  }

  /** Translating a type to another context and back is the identity. */
  method ThereAndBack(home: Context, away: Context, id: nat) returns (back: nat)
    requires home.Valid() && away.Valid() && home != away && home.good == away.good
    requires Known(id, |home.nodes|)
    modifies home, away
    ensures home.Valid() && away.Valid()
    ensures back == id && home.nodes == old(home.nodes)
  {
    var there := away.TranslateType(TypeOf(home.nodes, id));
    ghost var nodes := home.nodes;
    var r := home.TranslateType(TypeOf(away.nodes, there.value));
    back := r.value;
    TypeOfPrefix(nodes, home.nodes, id);
    HashConsed(home.nodes, home.toType, back, id);
  }

  /** A type that was looked up by its type value and something behind it is given out with both, whatever its own value. */
  method TrailingBytesStay(c: Context, t: Type, extra: seq<byte>) returns (tv: seq<byte>)
    requires c.Valid() && WellFormed(c.good, t) && extra != [] && EncodeTypeValue(t) + extra !in c.toType
    modifies c
    ensures c.Valid() && tv == EncodeTypeValue(t) + extra != EncodeTypeValue(t)
    ensures tv in c.toType && Known(c.toType[tv], |c.nodes|) && TypeOf(c.nodes, c.toType[tv]) == t
  {
    TypeValueDecodes(c.good, t, TableOf(c.nodes, c.typedefs), extra);
    var id := c.LookupByValue(EncodeTypeValue(t) + extra);
    assert |EncodeTypeValue(t) + extra| > |EncodeTypeValue(t)|;
    tv := c.LookupTypeValue(id.value);
  }

  // ---------------------------------------------------------------------------
  // Decoding and the name table

  /** The name table as types. */
  function TableOf(nodes: seq<Node>, typedefs: map<Name, nat>): Bindings
    requires Ordered(nodes) && forall name :: name in typedefs ==> Known(typedefs[name], |nodes|)
  {
    map name | name in typedefs :: TypeOf(nodes, typedefs[name])
  }

  /** A decoding in the context has the outcome of the decoding of types: the type, the rest and the name table. */
  ghost predicate Decodes(d: Option<Decoded<Type>>, r: Option<(nat, seq<byte>)>, nodes: seq<Node>, typedefs: map<Name, nat>)
    requires Ordered(nodes) && forall name :: name in typedefs ==> Known(typedefs[name], |nodes|)
  {
    if r.None? then d.None?
    else
      && Known(r.value.0, |nodes|)
      && d == Some(Decoded(TypeOf(nodes, r.value.0), r.value.1, TableOf(nodes, typedefs)))
  }

  ghost predicate DecodesTypes(d: Option<Decoded<seq<Type>>>, n: nat, r: Option<(seq<nat>, seq<byte>)>, nodes: seq<Node>, typedefs: map<Name, nat>)
    requires Ordered(nodes) && forall name :: name in typedefs ==> Known(typedefs[name], |nodes|)
  {
    if r.None? then d.None?
    else
      && |r.value.0| == n && AllKnown(r.value.0, |nodes|)
      && d == Some(Decoded(Listed(nodes, r.value.0), r.value.1, TableOf(nodes, typedefs)))
  }

  ghost predicate DecodesFields(d: Option<Decoded<seq<Field>>>, n: nat, r: Option<(seq<Name>, seq<nat>, seq<byte>)>,
                                nodes: seq<Node>, typedefs: map<Name, nat>)
    requires Ordered(nodes) && forall name :: name in typedefs ==> Known(typedefs[name], |nodes|)
  {
    if r.None? then d.None?
    else
      && |r.value.0| == |r.value.1| == n && AllKnown(r.value.1, |nodes|)
      && (forall i :: 0 <= i < n ==> Short(r.value.0[i]))
      && d == Some(Decoded(FieldsOf(r.value.0, Listed(nodes, r.value.1)), r.value.2, TableOf(nodes, typedefs)))
  }

  lemma {:induction false} ValueDecodes(good: Name -> bool, t: Type, tv: seq<byte>, table: Bindings)
    requires WellFormed(good, t) && tv == EncodeTypeValue(t)
    ensures tv != [] && (t.Primitive? ==> IsPrimitive(tv[0]))
    ensures var d := DecodeType(good, tv, table); d.Some? && d.value.value == t && d.value.rest == []
  {
    TypeValueDecodes(good, t, table, []);
    assert tv + [] == tv;
  }

  /** What is some type's value decodes to that type. */
  lemma {:induction false} WrittenDecodes(good: Name -> bool, tv: seq<byte>, table: Bindings)
    requires Written(good, tv)
    ensures DecodeType(good, tv, table).Some? && EncodeTypeValue(DecodeType(good, tv, table).value.value) == tv
  {
    var t :| WellFormed(good, t) && EncodeTypeValue(t) == tv;
    ValueDecodes(good, t, tv, table);
  }

  /** Entering types changes no binding. */
  lemma {:induction false} TableStays(nodes: seq<Node>, more: seq<Node>, typedefs: map<Name, nat>)
    requires nodes <= more && Ordered(more) && Ordered(nodes) && forall name :: name in typedefs ==> Known(typedefs[name], |nodes|)
    ensures forall name :: name in typedefs ==> Known(typedefs[name], |more|)
    ensures TableOf(more, typedefs) == TableOf(nodes, typedefs)
  {
    forall name | name in typedefs
      ensures Known(typedefs[name], |more|) && TypeOf(more, typedefs[name]) == TypeOf(nodes, typedefs[name])
    {
      TypeOfPrefix(nodes, more, typedefs[name]);
    }
  }

  lemma {:induction false} TableBinds(nodes: seq<Node>, more: seq<Node>, typedefs: map<Name, nat>, name: Name, id: nat)
    requires nodes <= more && Ordered(more) && Ordered(nodes) && forall n :: n in typedefs ==> Known(typedefs[n], |nodes|)
    requires Known(id, |more|)
    ensures forall n :: n in typedefs ==> Known(typedefs[n], |more|)
    ensures TableOf(more, typedefs[name := id]) == TableOf(nodes, typedefs)[name := TypeOf(more, id)]
  {
    TableStays(nodes, more, typedefs);
  }

  lemma {:induction false} TypesCons(nodes: seq<Node>, id: nat, ids: seq<nat>)
    requires Ordered(nodes) && Known(id, |nodes|) && AllKnown(ids, |nodes|)
    ensures AllKnown([id] + ids, |nodes|)
    ensures Listed(nodes, [id] + ids) == [TypeOf(nodes, id)] + Listed(nodes, ids)
  {
    assert AllKnown([id] + ids, |nodes|);
  }

  lemma {:induction false} FieldsCons(nodes: seq<Node>, name: Name, id: nat, names: seq<Name>, ids: seq<nat>)
    requires Ordered(nodes) && Known(id, |nodes|) && AllKnown(ids, |nodes|) && |names| == |ids|
    ensures AllKnown([id] + ids, |nodes|)
    ensures FieldsOf([name] + names, Listed(nodes, [id] + ids)) == [Field(name, TypeOf(nodes, id))] + FieldsOf(names, Listed(nodes, ids))
  {
    assert AllKnown([id] + ids, |nodes|);
  }

  lemma {:induction false} FieldsDistinct(names: seq<Name>, types: seq<Type>)
    requires |names| == |types|
    ensures DistinctFields(FieldsOf(names, types)) <==> forall i, j :: 0 <= i < j < |names| ==> names[i] != names[j]
  {
    assert forall i :: 0 <= i < |names| ==> FieldsOf(names, types)[i].name == names[i];
  }

  lemma {:induction false} NamesShort(n: nat, b: seq<byte>)
    requires DecodeNames(n, b).Some?
    ensures |DecodeNames(n, b).value.0| == n
    ensures forall i :: 0 <= i < n ==> Short(DecodeNames(n, b).value.0[i])
    decreases n
  {
    if n > 0 {
      NamesShort(n - 1, DecodeName(b).value.1);
    }
  }

  /** The types of some ids. */
  function Listed(nodes: seq<Node>, ids: seq<nat>): (r: seq<Type>)
    requires Ordered(nodes) && AllKnown(ids, |nodes|)
    ensures |r| == |ids|
    ensures forall i :: 0 <= i < |ids| ==> r[i] == TypeOf(nodes, ids[i])
  {
    seq(|ids|, i requires 0 <= i < |ids| => TypeOf(nodes, ids[i]))
  }

  /** An entry's type in terms of the types of its components. */
  lemma {:induction false} NodeTypeIs(nodes: seq<Node>, n: Node)
    requires Ordered(nodes) && AllKnown(Components(n), |nodes|)
    ensures n.ArrayNode? ==> Known(n.id, |nodes|) && NodeType(nodes, n) == Array(TypeOf(nodes, n.id))
    ensures n.SetNode? ==> Known(n.id, |nodes|) && NodeType(nodes, n) == Set(TypeOf(nodes, n.id))
    ensures n.ErrorNode? ==> Known(n.id, |nodes|) && NodeType(nodes, n) == Error(TypeOf(nodes, n.id))
    ensures n.NamedNode? ==> Known(n.id, |nodes|) && NodeType(nodes, n) == Named(n.name, TypeOf(nodes, n.id))
    ensures n.MapNode? ==>
      Known(n.key, |nodes|) && Known(n.val, |nodes|) && NodeType(nodes, n) == Map(TypeOf(nodes, n.key), TypeOf(nodes, n.val))
    ensures n.EnumNode? ==> NodeType(nodes, n) == Enum(n.symbols)
    ensures n.UnionNode? ==> NodeType(nodes, n) == Union(Listed(nodes, n.ids))
    ensures n.RecordNode? ==> NodeType(nodes, n) == Record(FieldsOf(n.names, Listed(nodes, n.ids)))
  {
    var more := nodes + [n];
    OrderedGrows(nodes, n);
    forall i | 0 <= i < |Components(n)|
      ensures Known(Components(n)[i], |nodes|) && TypeOf(more, Components(n)[i]) == TypeOf(nodes, Components(n)[i])
    {
      TypeOfPrefix(nodes, more, Components(n)[i]);
    }
    var id := FIRST_ID + |nodes|;
    match n
    case RecordNode(names, ids) => assert TypesOf(more, ids, id) == Listed(nodes, ids);
    case UnionNode(ids) => assert TypesOf(more, ids, id) == Listed(nodes, ids);
    case EnumNode(_) =>
    case MapNode(k, v) => assert Components(n)[0] == k && Components(n)[1] == v;
    case _ => assert Components(n)[0] == n.id;
  }

  // ---------------------------------------------------------------------------
  // Sorting ids by their types

  function InsertId(nodes: seq<Node>, ids: seq<nat>, id: nat): (r: seq<nat>)
    requires Ordered(nodes) && AllKnown(ids, |nodes|) && Known(id, |nodes|)
    ensures AllKnown(r, |nodes|) && |r| == |ids| + 1
    decreases |ids|
  {
    var n := |ids| - 1;
    if ids == [] || TypeOrder.CompareTypes(TypeOf(nodes, id), TypeOf(nodes, ids[n])) >= 0 then ids + [id]
    else InsertId(nodes, ids[..n], id) + [ids[n]]
  }

  function SortIds(nodes: seq<Node>, ids: seq<nat>): (r: seq<nat>)
    requires Ordered(nodes) && AllKnown(ids, |nodes|)
    ensures AllKnown(r, |nodes|) && |r| == |ids|
    decreases |ids|
  {
    if ids == [] then [] else InsertId(nodes, SortIds(nodes, ids[..|ids| - 1]), ids[|ids| - 1])
  }

  lemma {:induction false} InsertIdInserts(nodes: seq<Node>, ids: seq<nat>, id: nat)
    requires Ordered(nodes) && AllKnown(ids, |nodes|) && Known(id, |nodes|)
    ensures Listed(nodes, InsertId(nodes, ids, id)) == Insert(Listed(nodes, ids), TypeOf(nodes, id))
    decreases |ids|
  {
    var n := |ids| - 1;
    if ids != [] && TypeOrder.CompareTypes(TypeOf(nodes, id), TypeOf(nodes, ids[n])) < 0 {
      InsertIdInserts(nodes, ids[..n], id);
      assert Listed(nodes, ids)[..n] == Listed(nodes, ids[..n]);
    }
  }

  lemma {:induction false} SortIdsSorts(nodes: seq<Node>, ids: seq<nat>)
    requires Ordered(nodes) && AllKnown(ids, |nodes|)
    ensures Listed(nodes, SortIds(nodes, ids)) == SortTypes(Listed(nodes, ids))
    decreases |ids|
  {
    if ids != [] {
      var n := |ids| - 1;
      SortIdsSorts(nodes, ids[..n]);
      InsertIdInserts(nodes, SortIds(nodes, ids[..n]), ids[n]);
      assert Listed(nodes, ids)[..n] == Listed(nodes, ids[..n]);
    }
  }

  lemma {:induction false} SortedUnion(good: Name -> bool, nodes: seq<Node>, ids: seq<nat>)
    requires Ordered(nodes) && AllWellFormed(good, nodes) && AllKnown(ids, |nodes|)
    requires |ids| <= MAX_MEMBERS
    ensures var n := UnionNode(SortIds(nodes, ids));
            && AllKnown(Components(n), |nodes|)
            && NodeType(nodes, n) == Union(SortTypes(Listed(nodes, ids)))
            && WellFormed(good, NodeType(nodes, n))
  {
    SortIdsSorts(nodes, ids);
    SortedUnionWellFormed(good, nodes, ids, SortIds(nodes, ids));
    NodeTypeIs(nodes, UnionNode(SortIds(nodes, ids)));
  }

  lemma {:induction false} SortedUnionWellFormed(good: Name -> bool, nodes: seq<Node>, ids: seq<nat>, sorted: seq<nat>)
    requires Ordered(nodes) && AllWellFormed(good, nodes) && AllKnown(ids, |nodes|) && AllKnown(sorted, |nodes|)
    requires |sorted| == |ids| <= MAX_MEMBERS
    requires Listed(nodes, sorted) == SortTypes(Listed(nodes, ids))
    ensures WellFormed(good, Union(Listed(nodes, sorted)))
  {
    SortedTwice(Listed(nodes, ids));
  }
}
