/** Types as structures: in one context two types are the same object exactly when these are equal. */
module Types {
  import opened Uvarint

  /** A name as the bytes of its string. */
  type Name = seq<byte>

  datatype Field = Field(name: Name, typ: Type)

  datatype Type =
    | Primitive(id: nat)
    | Record(fields: seq<Field>)
    | Array(elem: Type)
    | Set(elem: Type)
    | Map(key: Type, val: Type)
    | Union(types: seq<Type>)
    | Enum(symbols: seq<Name>)
    | Error(inner: Type)
    | Named(name: Name, inner: Type)

  function FieldNames(fields: seq<Field>): (r: seq<Name>)
    ensures |r| == |fields|
  {
    seq(|fields|, i requires 0 <= i < |fields| => fields[i].name)
  }

  predicate DistinctFields(fields: seq<Field>) {
    forall i, j :: 0 <= i < j < |fields| ==> fields[i].name != fields[j].name
  }

  function TypeUnder(t: Type): (r: Type)
    ensures !r.Named? && (r == t || r < t)
  {
    if t.Named? then TypeUnder(t.inner) else t
  }

  /** The tag that a union's lookup table holds for a member: the last of its positions. */
  function TagOf(types: seq<Type>, t: Type): (r: int)
    ensures -1 <= r < |types|
    ensures r == -1 <==> t !in types
    ensures r >= 0 ==> types[r] == t
  {
    if types == [] then -1
    else
      var n := |types| - 1;
      if types[n] == t then n else TagOf(types[..n], t)
  }

  lemma {:induction false} TagOfIsLast(types: seq<Type>, t: Type)
    ensures forall i :: TagOf(types, t) < i < |types| ==> types[i] != t
  {
    if types != [] {
      TagOfIsLast(types[..|types| - 1], t);
    }
  }

  predicate DistinctTypes(types: seq<Type>) {
    forall i, j :: 0 <= i < j < |types| ==> types[i] != types[j]
  }

  lemma DistinctGrows(types: seq<Type>, t: Type)
    requires DistinctTypes(types) && t !in types
    ensures DistinctTypes(types + [t])
  {
  }

  /** A tag is its own canonical tag unless its type occurs again later. */
  lemma TagOfDistinct(types: seq<Type>)
    ensures DistinctTypes(types) <==> forall i :: 0 <= i < |types| ==> TagOf(types, types[i]) == i
  {
    if forall i :: 0 <= i < |types| ==> TagOf(types, types[i]) == i {
      forall i, j | 0 <= i < j < |types| ensures types[i] != types[j] {
        assert TagOf(types, types[i]) == i && TagOf(types, types[j]) == j;
      }
    }
  }
}
