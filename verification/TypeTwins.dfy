/** Distinct types that compare equal, and where the order of types is lawful. */
module TypeTwins {
  import opened Types
  import opened TypeOrder

  // ---------------------------------------------------------------------------
  // Types without names over names

  /** The type with every name over names put on the type under them, so that only the outer one is left. */
  function Flat(t: Type): Type
    decreases t, 0
  {
    match t
    case Record(fields) => Record(FlatFields(fields))
    case Array(elem) => Array(Flat(elem))
    case Set(elem) => Set(Flat(elem))
    case Map(key, val) => Map(Flat(key), Flat(val))
    case Union(types) => Union(FlatAll(types))
    case Error(inner) => Error(Flat(inner))
    case Named(name, inner) => Named(name, Flat(TypeUnder(inner)))
    case _ => t
  }

  function FlatFields(fields: seq<Field>): (r: seq<Field>)
    ensures |r| == |fields|
    ensures forall i :: 0 <= i < |fields| ==> r[i] == Field(fields[i].name, Flat(fields[i].typ))
    decreases fields
  {
    if fields == [] then [] else [Field(fields[0].name, Flat(fields[0].typ))] + FlatFields(fields[1..])
  }

  function FlatAll(types: seq<Type>): (r: seq<Type>)
    ensures |r| == |types|
    ensures forall i :: 0 <= i < |types| ==> r[i] == Flat(types[i])
    decreases types
  {
    if types == [] then [] else [Flat(types[0])] + FlatAll(types[1..])
  }

  /** It has no name over a name, and is the type itself exactly if that has none. */
  lemma {:induction false} FlatIsSingle(t: Type)
    ensures Single(Flat(t)) && (Flat(t) == t <==> Single(t))
    ensures !t.Named? ==> !Flat(t).Named?
    decreases t
  {
    match t
    case Record(fields) =>
      forall i | 0 <= i < |fields| ensures Single(Flat(fields[i].typ)) && (Flat(fields[i].typ) == fields[i].typ <==> Single(fields[i].typ)) {
        FlatIsSingle(fields[i].typ);
      }
      assert FlatFields(fields) == fields <==> forall i :: 0 <= i < |fields| ==> FlatFields(fields)[i] == fields[i];
    case Array(elem) => FlatIsSingle(elem);
    case Set(elem) => FlatIsSingle(elem);
    case Map(key, val) => FlatIsSingle(key); FlatIsSingle(val);
    case Union(types) =>
      forall i | 0 <= i < |types| ensures Single(Flat(types[i])) && (Flat(types[i]) == types[i] <==> Single(types[i])) {
        FlatIsSingle(types[i]);
      }
      assert FlatAll(types) == types <==> forall i :: 0 <= i < |types| ==> FlatAll(types)[i] == types[i];
    case Error(inner) => FlatIsSingle(inner);
    case Named(_, inner) => FlatIsSingle(TypeUnder(inner));
    case _ =>
  }

  lemma {:induction false} SameType(t: Type)
    ensures CompareTypes(t, t) == 0
  {
    if t.Named? {
      NamesPair(t.name, t.name);
    }
  }

  /** The two compare equal. */
  lemma {:induction false} FlatTies(t: Type)
    ensures CompareTypes(t, Flat(t)) == 0
    decreases t, 1
  {
    if t.Named? {
      FlatUnder(t);
      NamesPair(t.name, t.name);
      if TypeUnder(t) != TypeUnder(Flat(t)) {
        UnderOfUnder(t, Flat(t));
        FlatUnderTies(TypeUnder(t));
      }
    } else {
      FlatUnderTies(t);
      FlatIsSingle(t);
    }
  }

  lemma {:induction false} FlatUnder(t: Type)
    requires t.Named?
    ensures TypeUnder(Flat(t)) == Flat(TypeUnder(t))
  {
    FlatIsSingle(TypeUnder(t));
    UnderOneName(t.name, Flat(TypeUnder(t.inner)));
  }

  lemma {:induction false} FlatUnderTies(t: Type)
    requires !t.Named?
    ensures CompareUnder(t, Flat(t)) == 0
    decreases t, 0
  {
    FlatIsSingle(t);
    match t
    case Record(fields) => FlatFieldsTie(fields);
    case Array(elem) => FlatTies(elem);
    case Set(elem) => FlatTies(elem);
    case Map(key, val) => FlatTies(key); FlatTies(val);
    case Union(types) => FlatAllTie(types);
    case Error(inner) => FlatTies(inner);
    case Enum(symbols) => SymbolsTie(symbols, symbols);
    case _ =>
  }

  lemma {:induction false} FlatFieldsTie(fields: seq<Field>)
    ensures CompareFieldNames(fields, FlatFields(fields)) == 0 && CompareFieldTypes(fields, FlatFields(fields)) == 0
    decreases fields
  {
    if fields != [] {
      NamesPair(fields[0].name, fields[0].name);
      FlatTies(fields[0].typ);
      FlatFieldsTie(fields[1..]);
      assert FlatFields(fields)[1..] == FlatFields(fields[1..]);
    }
  }

  lemma {:induction false} FlatAllTie(types: seq<Type>)
    ensures CompareAll(types, FlatAll(types)) == 0
    decreases types
  {
    if types != [] {
      FlatTies(types[0]);
      FlatAllTie(types[1..]);
      assert FlatAll(types)[1..] == FlatAll(types[1..]);
    }
  }

  // ---------------------------------------------------------------------------
  // Where the order is lawful

  /** Two types that compare equal, under three names: the first and the last compare equal with the middle, not with each other. */
  lemma {:induction false} TwinsBreakTheLaw(u: Type, w: Type)
    requires !u.Named? && !w.Named? && u != w && CompareTypes(u, w) == 0
    ensures !TypesLaw(Named([0], u), Named([1], w), Named([1], u))
  {
    UnderOneName([0], u);
    UnderOneName([1], u);
    UnderOneName([1], w);
    assert TypeUnder(u) == u && TypeUnder(w) == w;
    UnderOfUnder(Named([0], u), Named([1], w));
    assert CompareTypes(Named([0], u), Named([1], w)) == CompareUnder(u, w) == 0;
    assert CompareTypes(Named([0], u), Named([1], u)) == CompareNames([0], [1]) == -1;
    assert CompareTypes(Named([1], w), Named([1], u)) == CompareUnder(w, u) by {
      UnderOfUnder(Named([1], w), Named([1], u));
    }
    TypesPair(u, w);
  }

  /**
   Among types with no name over a name below their outer names the order is lawful, and no type can
   be added to them: with names on a type that has one, it is not.
   */
  lemma {:induction false} LawfulExactly(u: Type)
    requires !u.Named?
    ensures Single(u) <==> forall x, y, b :: SingleBelow(b) ==> TypesLaw(Named(x, u), b, Named(y, u))
  {
    if Single(u) {
      forall x, y, b | SingleBelow(b) ensures TypesLaw(Named(x, u), b, Named(y, u)) {
        UnderOneName(x, u);
        UnderOneName(y, u);
        BelowLawful(Named(x, u), b, Named(y, u));
      }
    } else {
      FlatIsSingle(u);
      FlatTies(u);
      UnderOneName([1], Flat(u));
      TwinsBreakTheLaw(u, Flat(u));
      var b := Named([1], Flat(u));
      assert SingleBelow(b) && !TypesLaw(Named([0], u), b, Named([1], u));
    }
  }

  // ---------------------------------------------------------------------------
  // Against any types at all

  predicate Nameless(t: Type) {
    match t
    case Record(fields) => forall i :: 0 <= i < |fields| ==> Nameless(fields[i].typ)
    case Array(elem) => Nameless(elem)
    case Set(elem) => Nameless(elem)
    case Map(key, val) => Nameless(key) && Nameless(val)
    case Union(types) => forall i :: 0 <= i < |types| ==> Nameless(types[i])
    case Error(inner) => Nameless(inner)
    case Named(_, _) => false
    case _ => true
  }

  /** No other type compares equal to one without names. */
  lemma {:induction false} NamelessTie(t: Type, b: Type)
    requires Nameless(t)
    ensures CompareTypes(t, b) == 0 <==> t == b
    decreases t, 1
  {
    assert TypeUnder(t) == t;
    if TypeUnder(b) != t {
      NamelessUnderTie(t, b);
    }
  }

  lemma {:induction false} NamelessUnderTie(t: Type, b: Type)
    requires Nameless(t)
    ensures CompareUnder(t, b) == 0 <==> t == TypeUnder(b)
    decreases t, 0
  {
    match (t, TypeUnder(b))
    case (Record(f), Record(g)) => if |f| == |g| { NamelessFieldsTie(f, g); }
    case (Array(x), Array(y)) => NamelessTie(x, y);
    case (Set(x), Set(y)) => NamelessTie(x, y);
    case (Map(k, v), Map(l, w)) => NamelessTie(k, l); NamelessTie(v, w);
    case (Union(p), Union(q)) => if |p| == |q| { NamelessAllTie(p, q); }
    case (Enum(p), Enum(q)) => if |p| == |q| { SymbolsTie(p, q); }
    case (Error(x), Error(y)) => NamelessTie(x, y);
    case _ =>
  }

  lemma {:induction false} NamelessFieldsTie(f: seq<Field>, g: seq<Field>)
    requires |f| == |g| && forall i :: 0 <= i < |f| ==> Nameless(f[i].typ)
    ensures CompareFieldNames(f, g) == 0 && CompareFieldTypes(f, g) == 0 <==> f == g
    decreases f
  {
    if f != [] {
      NamesPair(f[0].name, g[0].name);
      NamelessTie(f[0].typ, g[0].typ);
      NamelessFieldsTie(f[1..], g[1..]);
      assert f == [f[0]] + f[1..] && g == [g[0]] + g[1..];
    }
  }

  lemma {:induction false} NamelessAllTie(s: seq<Type>, t: seq<Type>)
    requires |s| == |t| && forall i :: 0 <= i < |s| ==> Nameless(s[i])
    ensures CompareAll(s, t) == 0 <==> s == t
    decreases s
  {
    if s != [] {
      NamelessTie(s[0], t[0]);
      NamelessAllTie(s[1..], t[1..]);
      assert s == [s[0]] + s[1..] && t == [t[0]] + t[1..];
    }
  }

  /** The type with another name under each of its outermost names. */
  function Doubled(t: Type): Type {
    match t
    case Record(fields) => Record(DoubledFields(fields))
    case Array(elem) => Array(Doubled(elem))
    case Set(elem) => Set(Doubled(elem))
    case Map(key, val) => Map(Doubled(key), Doubled(val))
    case Union(types) => Union(DoubledAll(types))
    case Error(inner) => Error(Doubled(inner))
    case Named(name, inner) => Named(name, Named([], inner))
    case _ => t
  }

  function DoubledFields(fields: seq<Field>): (r: seq<Field>)
    ensures |r| == |fields|
    ensures forall i :: 0 <= i < |fields| ==> r[i] == Field(fields[i].name, Doubled(fields[i].typ))
  {
    if fields == [] then [] else [Field(fields[0].name, Doubled(fields[0].typ))] + DoubledFields(fields[1..])
  }

  function DoubledAll(types: seq<Type>): (r: seq<Type>)
    ensures |r| == |types|
    ensures forall i :: 0 <= i < |types| ==> r[i] == Doubled(types[i])
  {
    if types == [] then [] else [Doubled(types[0])] + DoubledAll(types[1..])
  }

  lemma {:induction false} DoubledDiffers(t: Type)
    ensures Doubled(t) == t <==> Nameless(t)
    ensures !t.Named? ==> !Doubled(t).Named?
  {
    match t
    case Record(fields) =>
      forall i | 0 <= i < |fields| ensures Doubled(fields[i].typ) == fields[i].typ <==> Nameless(fields[i].typ) {
        DoubledDiffers(fields[i].typ);
      }
      assert DoubledFields(fields) == fields <==> forall i :: 0 <= i < |fields| ==> DoubledFields(fields)[i] == fields[i];
    case Array(elem) => DoubledDiffers(elem);
    case Set(elem) => DoubledDiffers(elem);
    case Map(key, val) => DoubledDiffers(key); DoubledDiffers(val);
    case Union(types) =>
      forall i | 0 <= i < |types| ensures Doubled(types[i]) == types[i] <==> Nameless(types[i]) {
        DoubledDiffers(types[i]);
      }
      assert DoubledAll(types) == types <==> forall i :: 0 <= i < |types| ==> DoubledAll(types)[i] == types[i];
    case Error(inner) => DoubledDiffers(inner);
    case Named(_, inner) => assert Named([], inner) > inner;
    case _ =>
  }

  lemma {:induction false} DoubledTies(t: Type)
    ensures CompareTypes(t, Doubled(t)) == 0
    decreases t, 1
  {
    if t.Named? {
      assert TypeUnder(Doubled(t)) == TypeUnder(Named([], t.inner)) == TypeUnder(t.inner);
      NamesPair(t.name, t.name);
    } else {
      DoubledDiffers(t);
      DoubledUnderTies(t);
    }
  }

  lemma {:induction false} DoubledUnderTies(t: Type)
    requires !t.Named?
    ensures CompareUnder(t, Doubled(t)) == 0
    decreases t, 0
  {
    DoubledDiffers(t);
    match t
    case Record(fields) => DoubledFieldsTie(fields);
    case Array(elem) => DoubledTies(elem);
    case Set(elem) => DoubledTies(elem);
    case Map(key, val) => DoubledTies(key); DoubledTies(val);
    case Union(types) => DoubledAllTie(types);
    case Error(inner) => DoubledTies(inner);
    case Enum(symbols) => SymbolsTie(symbols, symbols);
    case _ =>
  }

  lemma {:induction false} DoubledFieldsTie(fields: seq<Field>)
    ensures CompareFieldNames(fields, DoubledFields(fields)) == 0 && CompareFieldTypes(fields, DoubledFields(fields)) == 0
    decreases fields
  {
    if fields != [] {
      NamesPair(fields[0].name, fields[0].name);
      DoubledTies(fields[0].typ);
      DoubledFieldsTie(fields[1..]);
      assert DoubledFields(fields)[1..] == DoubledFields(fields[1..]);
    }
  }

  lemma {:induction false} DoubledAllTie(types: seq<Type>)
    ensures CompareAll(types, DoubledAll(types)) == 0
    decreases types
  {
    if types != [] {
      DoubledTies(types[0]);
      DoubledAllTie(types[1..]);
      assert DoubledAll(types)[1..] == DoubledAll(types[1..]);
    }
  }

  /** Against every type, the order is lawful for names on a type exactly if that has no names in it. */
  lemma {:induction false} NamelessExactly(u: Type)
    requires !u.Named?
    ensures Nameless(u) <==> forall x, y, b :: TypesLaw(Named(x, u), b, Named(y, u))
  {
    if Nameless(u) {
      forall x, y, b ensures TypesLaw(Named(x, u), b, Named(y, u)) {
        NamelessLawful(u, x, y, b);
      }
    } else {
      DoubledDiffers(u);
      DoubledTies(u);
      TwinsBreakTheLaw(u, Doubled(u));
      assert !TypesLaw(Named([0], u), Named([1], Doubled(u)), Named([1], u));
    }
  }

  lemma {:induction false} NamelessLawful(u: Type, x: Name, y: Name, b: Type)
    requires Nameless(u)
    ensures TypesLaw(Named(x, u), b, Named(y, u))
  {
    var a, c := Named(x, u), Named(y, u);
    UnderOneName(x, u);
    UnderOneName(y, u);
    TypesPair(a, b);
    TypesPair(b, c);
    TypesPair(a, c);
    if TypeUnder(b) == u {
      OuterNamesLawful(a, b, c);
    } else {
      UnderOfUnder(a, b);
      UnderOfUnder(c, b);
      NamelessUnderTie(u, TypeUnder(b));
      assert TypeUnder(TypeUnder(b)) == TypeUnder(b);
      assert CompareTypes(a, b) == CompareUnder(u, TypeUnder(b)) == CompareTypes(c, b);
    }
  }
}
