/** Metadata names the types of a context: its unions are the ones that the context gives for their members. */
module VngContextTypes {
  import opened Types
  import opened UnionTypes
  import opened TypeValues
  import opened VngShape

  /** LookupTypeUnion, as a function of the member types. */
  function UnionOfTypes(types: seq<Type>): Type {
    Union(SortTypes(types))
  }

  /** Every type of a context can be read back from its metadata. */
  lemma {:induction false} ContextTypesRegular(good: Name -> bool, t: Type)
    requires WellFormed(good, t)
    ensures Regular(UnionOfTypes, t)
  {
    match t
    case Named(_, inner) => ContextTypesRegular(good, inner);
    case Error(inner) => ContextTypesRegular(good, inner);
    case Record(fields) =>
      forall i | 0 <= i < |fields| ensures Regular(UnionOfTypes, fields[i].typ) {
        ContextTypesRegular(good, fields[i].typ);
      }
    case Array(elem) => ContextTypesRegular(good, elem);
    case Set(elem) => ContextTypesRegular(good, elem);
    case Map(key, val) => ContextTypesRegular(good, key); ContextTypesRegular(good, val);
    case Union(types) =>
      forall i | 0 <= i < |types| ensures Regular(UnionOfTypes, types[i]) {
        ContextTypesRegular(good, types[i]);
      }
    case _ =>
  }
}
