/**
 Which values a union column gives back as they were written.  A column stores the tag that
 the union's lookup table has for the member's type, which is the last position of that type.
 */
module VngTags {
  import opened Uvarint
  import opened Zcode
  import opened Counted
  import opened Types
  import opened VngColumns
  import opened VngEncoders
  import opened VngReading

  /** A test of a union's member types and one of its values. */
  type TagTest = (seq<Type>, Value) -> bool

  /** Every tagged value inside of a value passes the test. */
  ghost predicate AllTags(ok: TagTest, t: Type, v: Value)
    decreases v, t
  {
    match t
    case Named(_, inner) => AllTags(ok, inner, v)
    case Error(inner) => AllTags(ok, inner, v)
    case Record(fields) =>
      v.Group? ==> forall i :: 0 <= i < |fields| && i < |v.items| ==> AllTags(ok, fields[i].typ, v.items[i])
    case Array(elem) => v.Group? ==> ItemTags(ok, elem, v.items)
    case Set(elem) => v.Group? ==> ItemTags(ok, elem, v.items)
    case Map(key, val) => v.Group? ==> EntryTags(ok, key, val, v.items)
    case Union(types) =>
      IsTagged(v) && 0 <= TagIn(v) < |types| ==> ok(types, v) && AllTags(ok, types[TagIn(v)], v.items[1])
    case _ => true
  }

  ghost predicate ItemTags(ok: TagTest, t: Type, vs: seq<Value>)
    decreases vs
  {
    vs != [] ==> AllTags(ok, t, vs[0]) && ItemTags(ok, t, vs[1..])
  }

  ghost predicate EntryTags(ok: TagTest, key: Type, val: Type, items: seq<Value>)
    decreases items
  {
    |items| >= 2 ==> AllTags(ok, key, items[0]) && AllTags(ok, val, items[1]) && EntryTags(ok, key, val, items[1..][1..])
  }

  /** The tag is written in its shortest form. */
  predicate ShortTag(types: seq<Type>, v: Value) {
    IsTagged(v) && v.items[0].body == EncodeInt(TagIn(v))
  }

  /** The tag is in its shortest form and names the last of the members of its type. */
  predicate LastTag(types: seq<Type>, v: Value) {
    ShortTag(types, v) && 0 <= TagIn(v) < |types| && forall j :: TagIn(v) < j < |types| ==> types[j] != types[TagIn(v)]
  }

  /** The lookup table keeps a tag exactly if no later member has its type. */
  lemma {:induction false} TagKept(types: seq<Type>, i: nat)
    requires i < |types|
    ensures TagOf(types, types[i]) == i <==> forall j :: i < j < |types| ==> types[j] != types[i]
  {
    TagOfIsLast(types, types[i]);
  }

  // ---------------------------------------------------------------------------
  // Values that come back

  /** A value is given back as it was written exactly if all of its tags are the shortest ones of the last such members. */
  lemma {:induction false} CanonKeeps(t: Type, v: Value)
    requires HasType(t, v)
    ensures Canon(t, v) == v <==> AllTags(LastTag, t, v)
    decreases v, t
  {
    if !v.Null? {
      match t
      case Named(_, inner) => CanonKeeps(inner, v);
      case Error(inner) => CanonKeeps(inner, v);
      case Record(fields) => RecordKept(fields, v);
      case Array(elem) => ItemsKept(elem, v.items);
      case Set(elem) => ItemsKept(elem, v.items);
      case Map(key, val) => EntriesKept(key, val, v.items);
      case Union(types) => UnionKept(types, v);
      case _ =>
    } else {
      NullKept(t);
    }
  }

  lemma {:induction false} NullKept(t: Type)
    ensures Canon(t, Null) == Null && AllTags(LastTag, t, Null)
  {
    match t
    case Named(_, inner) => NullKept(inner);
    case Error(inner) => NullKept(inner);
    case _ =>
  }

  lemma {:induction false} RecordKept(fields: seq<Field>, v: Value)
    requires v.Group? && HasType(Record(fields), v)
    ensures Canon(Record(fields), v) == v <==> AllTags(LastTag, Record(fields), v)
    decreases v, Record(fields), 0
  {
    var c := CanonFields(fields, v.items);
    assert HaveFields(fields, v.items);
    forall i | 0 <= i < |fields| ensures c[i] == v.items[i] <==> AllTags(LastTag, fields[i].typ, v.items[i]) {
      CanonKeeps(fields[i].typ, v.items[i]);
    }
    assert c == v.items <==> forall i :: 0 <= i < |fields| ==> c[i] == v.items[i];
  }

  lemma {:induction false} ItemsKept(t: Type, vs: seq<Value>)
    requires HaveType(t, vs)
    ensures Canons(t, vs) == vs <==> ItemTags(LastTag, t, vs)
    decreases vs
  {
    if vs != [] {
      CanonKeeps(t, vs[0]);
      ItemsKept(t, vs[1..]);
      OneAndRest(Canon(t, vs[0]), Canons(t, vs[1..]), vs);
    }
  }

  lemma {:induction false} OneAndRest(first: Value, rest: seq<Value>, vs: seq<Value>)
    requires vs != []
    ensures [first] + rest == vs <==> first == vs[0] && rest == vs[1..]
  {
    assert [vs[0]] + vs[1..] == vs;
    assert ([first] + rest)[0] == first && ([first] + rest)[1..] == rest;
  }

  lemma {:induction false} EntriesKept(key: Type, val: Type, items: seq<Value>)
    requires HaveTypes(key, val, items)
    ensures CanonEntries(key, val, items) == items <==> EntryTags(LastTag, key, val, items)
    decreases items
  {
    if items != [] {
      CanonKeeps(key, items[0]);
      CanonKeeps(val, items[1]);
      EntriesKept(key, val, items[1..][1..]);
      var k, w, rest := Canon(key, items[0]), Canon(val, items[1]), CanonEntries(key, val, items[1..][1..]);
      OneAndRest(k, [w] + rest, items);
      OneAndRest(w, rest, items[1..]);
      assert [k, w] + rest == [k] + ([w] + rest);
    }
  }

  lemma {:induction false} UnionKept(types: seq<Type>, v: Value)
    requires !v.Null? && HasType(Union(types), v)
    ensures Canon(Union(types), v) == v <==> AllTags(LastTag, Union(types), v)
    decreases v, Union(types), 0
  {
    var tag := TagIn(v);
    var last := TagOf(types, types[tag]);
    CanonKeeps(types[tag], v.items[1]);
    TagKept(types, tag);
    var c := Tagged(last, Canon(types[tag], v.items[1]));
    assert Canon(Union(types), v) == c;
    if c == v {
      assert c.items[0] == v.items[0] && c.items[1] == v.items[1];
      DecodeEncodeInt(last);
    }
  }

  // ---------------------------------------------------------------------------
  // Types all of whose values come back

  /** Every union in the type has distinct members. */
  predicate UnionsDistinct(t: Type) {
    match t
    case Named(_, inner) => UnionsDistinct(inner)
    case Error(inner) => UnionsDistinct(inner)
    case Record(fields) => forall i :: 0 <= i < |fields| ==> UnionsDistinct(fields[i].typ)
    case Array(elem) => UnionsDistinct(elem)
    case Set(elem) => UnionsDistinct(elem)
    case Map(key, val) => UnionsDistinct(key) && UnionsDistinct(val)
    case Union(types) => DistinctTypes(types) && forall i :: 0 <= i < |types| ==> UnionsDistinct(types[i])
    case _ => true
  }

  /** Every tag is in its shortest form, as the program writes them. */
  ghost predicate Minimal(t: Type, v: Value) {
    AllTags(ShortTag, t, v)
  }

  lemma {:induction false} DistinctUnionsKeep(t: Type, v: Value)
    requires HasType(t, v) && UnionsDistinct(t) && Minimal(t, v)
    ensures AllTags(LastTag, t, v)
    decreases v, t
  {
    match t
    case Named(_, inner) => DistinctUnionsKeep(inner, v);
    case Error(inner) => DistinctUnionsKeep(inner, v);
    case Record(fields) =>
      if v.Group? {
        assert HaveFields(fields, v.items);
        forall i | 0 <= i < |fields| ensures AllTags(LastTag, fields[i].typ, v.items[i]) {
          DistinctUnionsKeep(fields[i].typ, v.items[i]);
        }
      }
    case Array(elem) => if v.Group? { DistinctItemsKeep(elem, v.items); }
    case Set(elem) => if v.Group? { DistinctItemsKeep(elem, v.items); }
    case Map(key, val) => if v.Group? { DistinctEntriesKeep(key, val, v.items); }
    case Union(types) => if !v.Null? { DistinctUnionsKeep(types[TagIn(v)], v.items[1]); }
    case _ =>
  }

  lemma {:induction false} DistinctItemsKeep(t: Type, vs: seq<Value>)
    requires HaveType(t, vs) && UnionsDistinct(t) && ItemTags(ShortTag, t, vs)
    ensures ItemTags(LastTag, t, vs)
    decreases vs
  {
    if vs != [] {
      DistinctUnionsKeep(t, vs[0]);
      DistinctItemsKeep(t, vs[1..]);
    }
  }

  lemma {:induction false} DistinctEntriesKeep(key: Type, val: Type, items: seq<Value>)
    requires HaveTypes(key, val, items) && UnionsDistinct(key) && UnionsDistinct(val) && EntryTags(ShortTag, key, val, items)
    ensures EntryTags(LastTag, key, val, items)
    decreases items
  {
    if items != [] {
      DistinctUnionsKeep(key, items[0]);
      DistinctUnionsKeep(val, items[1]);
      DistinctEntriesKeep(key, val, items[1..][1..]);
    }
  }

  // ---------------------------------------------------------------------------
  // Types some of whose values do not

  /** No union in the type has more members than a 64-bit tag can name. */
  predicate Nameable(t: Type) {
    match t
    case Named(_, inner) => Nameable(inner)
    case Error(inner) => Nameable(inner)
    case Record(fields) => forall i :: 0 <= i < |fields| ==> Nameable(fields[i].typ)
    case Array(elem) => Nameable(elem)
    case Set(elem) => Nameable(elem)
    case Map(key, val) => Nameable(key) && Nameable(val)
    case Union(types) => |types| < INT64_LIMIT && forall i :: 0 <= i < |types| ==> Nameable(types[i])
    case _ => true
  }

  /** A value that is written and does not come back. */
  ghost predicate Changed(t: Type, v: Value) {
    HasType(t, v) && Minimal(t, v) && Canon(t, v) != v
  }

  lemma {:induction false} NullOfAnyType(t: Type)
    ensures HasType(t, Null) && AllTags(ShortTag, t, Null)
  {
    match t
    case Named(_, inner) => NullOfAnyType(inner);
    case Error(inner) => NullOfAnyType(inner);
    case _ =>
  }

  /** A type with a union in which a member occurs twice has a value that does not come back. */
  lemma {:induction false} RepeatedMemberChanges(t: Type) returns (v: Value)
    requires Nameable(t) && !UnionsDistinct(t)
    ensures Changed(t, v)
    decreases t
  {
    match t
    case Named(_, inner) => v := RepeatedMemberChanges(inner);
    case Error(inner) => v := RepeatedMemberChanges(inner);
    case Record(fields) => v := ChangedField(fields);
    case Array(elem) => var w := RepeatedMemberChanges(elem); v := ChangedItem(t, elem, w);
    case Set(elem) => var w := RepeatedMemberChanges(elem); v := ChangedItem(t, elem, w);
    case Map(key, val) => v := ChangedEntry(key, val);
    case Union(types) => v := ChangedTag(types);
  }

  lemma {:induction false} ChangedItem(t: Type, elem: Type, w: Value) returns (v: Value)
    requires (t == Array(elem) || t == Set(elem)) && Changed(elem, w)
    ensures Changed(t, v)
  {
    v := Group([w]);
    assert [w][1..] == [];
    assert HaveType(elem, [w]) && ItemTags(ShortTag, elem, [w]);
    assert Canons(elem, [w])[0] == Canon(elem, w);
  }

  lemma {:induction false} ChangedEntry(key: Type, val: Type) returns (v: Value)
    requires Nameable(key) && Nameable(val) && !(UnionsDistinct(key) && UnionsDistinct(val))
    ensures Changed(Map(key, val), v)
    decreases Map(key, val), 0
  {
    var k, w := Null, Null;
    NullOfAnyType(key);
    NullOfAnyType(val);
    if !UnionsDistinct(key) {
      k := RepeatedMemberChanges(key);
    } else {
      w := RepeatedMemberChanges(val);
    }
    v := Group([k, w]);
    assert [k, w][1..][1..] == [];
    assert HaveTypes(key, val, [k, w]) && EntryTags(ShortTag, key, val, [k, w]);
    assert CanonEntries(key, val, [k, w])[0] == Canon(key, k) && CanonEntries(key, val, [k, w])[1] == Canon(val, w);
  }

  lemma {:induction false} ChangedField(fields: seq<Field>) returns (v: Value)
    requires Nameable(Record(fields)) && !UnionsDistinct(Record(fields))
    ensures Changed(Record(fields), v)
    decreases Record(fields), 0
  {
    var i :| 0 <= i < |fields| && !UnionsDistinct(fields[i].typ);
    var w := RepeatedMemberChanges(fields[i].typ);
    var items := seq(|fields|, k requires 0 <= k < |fields| => if k == i then w else Null);
    forall k | 0 <= k < |fields| ensures HasType(fields[k].typ, items[k]) && AllTags(ShortTag, fields[k].typ, items[k]) {
      NullOfAnyType(fields[k].typ);
    }
    assert HaveFields(fields, items);
    v := Group(items);
    assert CanonFields(fields, items)[i] == Canon(fields[i].typ, w);
  }

  lemma {:induction false} ChangedTag(types: seq<Type>) returns (v: Value)
    requires Nameable(Union(types)) && !UnionsDistinct(Union(types))
    ensures Changed(Union(types), v)
    decreases Union(types), 0
  {
    var tag, w := 0, Null;
    if !DistinctTypes(types) {
      var i, j :| 0 <= i < j < |types| && types[i] == types[j];
      tag := i;
      TagKept(types, i);
      NullOfAnyType(types[i]);
    } else {
      tag :| 0 <= tag < |types| && !UnionsDistinct(types[tag]);
      w := RepeatedMemberChanges(types[tag]);
    }
    DecodeEncodeInt(tag);
    v := Tagged(tag, w);
    var last := TagOf(types, types[tag]);
    DecodeEncodeInt(last);
    assert Canon(Union(types), v) == Tagged(last, Canon(types[tag], w));
    assert v.items[0] == Bytes(EncodeInt(tag)) && v.items[1] == w;
    assert Canon(Union(types), v).items[0] == Bytes(EncodeInt(last)) && Canon(Union(types), v).items[1] == Canon(types[tag], w);
  }

  /** Every value of a type comes back as the program writes it exactly if no union in the type has a member twice. */
  lemma {:induction false} AllValuesComeBack(t: Type)
    requires Nameable(t)
    ensures UnionsDistinct(t) <==> forall v :: HasType(t, v) && Minimal(t, v) ==> Canon(t, v) == v
  {
    if UnionsDistinct(t) {
      forall v | HasType(t, v) && Minimal(t, v) ensures Canon(t, v) == v {
        DistinctUnionsKeep(t, v);
        CanonKeeps(t, v);
      }
    } else {
      var v := RepeatedMemberChanges(t);
    }
  }
}
