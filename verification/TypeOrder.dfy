/** The order of types, which decides the member order of unions. */
module TypeOrder {
  import opened Types

  function CompareInts(a: int, b: int): int {
    if a < b then -1 else if a > b then 1 else 0
  }

  /** strings.Compare. */
  function CompareNames(a: Name, b: Name): int
    decreases |a|
  {
    if a == [] then (if b == [] then 0 else -1)
    else if b == [] then 1
    else if a[0] != b[0] then CompareInts(a[0], b[0])
    else CompareNames(a[1..], b[1..])
  }

  function Kind(t: Type): nat {
    match t
    case Primitive(_) => 0
    case Record(_) => 1
    case Array(_) => 2
    case Set(_) => 3
    case Map(_, _) => 4
    case Union(_) => 5
    case Enum(_) => 6
    case Error(_) => 7
    case Named(_, inner) => Kind(inner)
  }

  /** A first result unless it is a tie. */
  function Then(first: int, second: int): int {
    if first != 0 then first else second
  }

  /** The order of types with the same type under their names: the unnamed one, then by name. */
  function CompareOuterNames(a: Type, b: Type): int {
    if a.Named? then (if b.Named? then CompareNames(a.name, b.name) else 1)
    else if b.Named? then -1 else 0
  }

  function CompareTypes(a: Type, b: Type): int
    decreases a, 1
  {
    if TypeUnder(a) == TypeUnder(b) then CompareOuterNames(a, b)
    else CompareUnder(a, b)
  }

  /** The order by kind and then by components, looking through names. */
  function CompareUnder(a: Type, b: Type): int
    decreases a, 0
  {
    if a.Named? then CompareUnder(a.inner, b)
    else
      var u := TypeUnder(b);
      if Kind(a) != Kind(u) then CompareInts(Kind(a), Kind(u))
      else
        match (a, u)
        case (Primitive(i), Primitive(j)) => CompareInts(i, j)
        case (Record(f), Record(g)) =>
          if |f| != |g| then CompareInts(|f|, |g|) else Then(CompareFieldNames(f, g), CompareFieldTypes(f, g))
        case (Array(x), Array(y)) => CompareTypes(x, y)
        case (Set(x), Set(y)) => CompareTypes(x, y)
        case (Map(k, v), Map(l, w)) => Then(CompareTypes(k, l), CompareTypes(v, w))
        case (Union(s), Union(t)) => if |s| != |t| then CompareInts(|s|, |t|) else CompareAll(s, t)
        case (Enum(s), Enum(t)) => if |s| != |t| then CompareInts(|s|, |t|) else CompareSymbols(s, t)
        case (Error(x), Error(y)) => CompareTypes(x, y)
        case _ => 0
  }

  function CompareFieldNames(f: seq<Field>, g: seq<Field>): int
    requires |f| == |g|
    decreases |f|
  {
    if f == [] then 0 else Then(CompareNames(f[0].name, g[0].name), CompareFieldNames(f[1..], g[1..]))
  }

  function CompareFieldTypes(f: seq<Field>, g: seq<Field>): int
    requires |f| == |g|
    decreases f
  {
    if f == [] then 0 else Then(CompareTypes(f[0].typ, g[0].typ), CompareFieldTypes(f[1..], g[1..]))
  }

  function CompareAll(s: seq<Type>, t: seq<Type>): int
    requires |s| == |t|
    decreases s
  {
    if s == [] then 0 else Then(CompareTypes(s[0], t[0]), CompareAll(s[1..], t[1..]))
  }

  function CompareSymbols(s: seq<Name>, t: seq<Name>): int
    requires |s| == |t|
    decreases |s|
  {
    if s == [] then 0 else Then(CompareNames(s[0], t[0]), CompareSymbols(s[1..], t[1..]))
  }

  // ---------------------------------------------------------------------------
  // Laws of a three-way comparison at three points

  /** `ab`, `bc` and so on compare three things as a total order does. */
  ghost predicate Lawful(ab: int, ba: int, bc: int, cb: int, ac: int, ca: int) {
    && -1 <= ab <= 1 && -1 <= bc <= 1 && -1 <= ac <= 1
    && ba == -ab && cb == -bc && ca == -ac
    && (ab == 0 ==> ac == bc) && (bc == 0 ==> ac == ab)
    && (ab == bc ==> ac == ab)
  }

  lemma ThenLawful(ab: int, ba: int, bc: int, cb: int, ac: int, ca: int, ab': int, ba': int, bc': int, cb': int, ac': int, ca': int)
    requires Lawful(ab, ba, bc, cb, ac, ca)
    requires Lawful(ab', ba', bc', cb', ac', ca')
    ensures Lawful(Then(ab, ab'), Then(ba, ba'), Then(bc, bc'), Then(cb, cb'), Then(ac, ac'), Then(ca, ca'))
  {
  }

  lemma {:induction false} NamesLawful(a: Name, b: Name, c: Name)
    ensures Lawful(CompareNames(a, b), CompareNames(b, a), CompareNames(b, c), CompareNames(c, b), CompareNames(a, c), CompareNames(c, a))
    decreases |a|
  {
    if a != [] && b != [] && c != [] {
      NamesLawful(a[1..], b[1..], c[1..]);
    } else if a != [] && b != [] {
      NamesPair(a, b);
    } else if a != [] && c != [] {
      NamesPair(a, c);
    } else if b != [] && c != [] {
      NamesPair(b, c);
    }
  }

  lemma {:induction false} NamesPair(a: Name, b: Name)
    ensures -1 <= CompareNames(a, b) <= 1
    ensures CompareNames(b, a) == -CompareNames(a, b)
    ensures CompareNames(a, b) == 0 <==> a == b
    decreases |a|
  {
    if a != [] && b != [] {
      NamesPair(a[1..], b[1..]);
      assert a == [a[0]] + a[1..] && b == [b[0]] + b[1..];
    }
  }

  // ---------------------------------------------------------------------------
  // Ties

  /** No name directly wraps a name, anywhere in the type. */
  predicate Single(t: Type) {
    match t
    case Primitive(_) => true
    case Record(fields) => forall i :: 0 <= i < |fields| ==> Single(fields[i].typ)
    case Array(elem) => Single(elem)
    case Set(elem) => Single(elem)
    case Map(key, val) => Single(key) && Single(val)
    case Union(types) => forall i :: 0 <= i < |types| ==> Single(types[i])
    case Enum(_) => true
    case Error(inner) => Single(inner)
    case Named(_, inner) => !inner.Named? && Single(inner)
  }

  lemma {:induction false} SingleUnder(t: Type)
    requires Single(t)
    ensures Single(TypeUnder(t))
  {
    if t.Named? {
      SingleUnder(t.inner);
    }
  }

  /** On types where no name wraps a name, only identical types compare equal. */
  lemma {:induction false} TypesTie(a: Type, b: Type)
    requires Single(a) && Single(b)
    ensures CompareTypes(a, b) == 0 <==> a == b
    decreases a, 1
  {
    if TypeUnder(a) == TypeUnder(b) {
      assert TypeUnder(a) == if a.Named? then a.inner else a;
      assert TypeUnder(b) == if b.Named? then b.inner else b;
      if a.Named? && b.Named? {
        NamesPair(a.name, b.name);
      }
    } else {
      UnderTie(a, b);
    }
  }

  lemma {:induction false} UnderTie(a: Type, b: Type)
    requires Single(a) && Single(b)
    ensures CompareUnder(a, b) == 0 <==> TypeUnder(a) == TypeUnder(b)
    decreases a, 0
  {
    if a.Named? {
      UnderTie(a.inner, b);
    } else {
      var u := TypeUnder(b);
      SingleUnder(b);
      match (a, u)
      case (Record(f), Record(g)) => if |f| == |g| { FieldsTie(f, g); }
      case (Array(x), Array(y)) => TypesTie(x, y);
      case (Set(x), Set(y)) => TypesTie(x, y);
      case (Map(k, v), Map(l, w)) => TypesTie(k, l); TypesTie(v, w);
      case (Union(s), Union(t)) => if |s| == |t| { AllTie(s, t); }
      case (Enum(s), Enum(t)) => if |s| == |t| { SymbolsTie(s, t); }
      case (Error(x), Error(y)) => TypesTie(x, y);
      case _ =>
    }
  }

  lemma {:induction false} FieldsTie(f: seq<Field>, g: seq<Field>)
    requires |f| == |g|
    requires forall i :: 0 <= i < |f| ==> Single(f[i].typ) && Single(g[i].typ)
    ensures CompareFieldNames(f, g) == 0 && CompareFieldTypes(f, g) == 0 <==> f == g
    decreases f
  {
    if f != [] {
      NamesPair(f[0].name, g[0].name);
      TypesTie(f[0].typ, g[0].typ);
      FieldsTie(f[1..], g[1..]);
      assert f == [f[0]] + f[1..] && g == [g[0]] + g[1..];
    }
  }

  lemma {:induction false} AllTie(s: seq<Type>, t: seq<Type>)
    requires |s| == |t|
    requires forall i :: 0 <= i < |s| ==> Single(s[i]) && Single(t[i])
    ensures CompareAll(s, t) == 0 <==> s == t
    decreases s
  {
    if s != [] {
      TypesTie(s[0], t[0]);
      AllTie(s[1..], t[1..]);
      assert s == [s[0]] + s[1..] && t == [t[0]] + t[1..];
    }
  }

  lemma {:induction false} SymbolsTie(s: seq<Name>, t: seq<Name>)
    requires |s| == |t|
    ensures CompareSymbols(s, t) == 0 <==> s == t
    decreases |s|
  {
    if s != [] {
      NamesPair(s[0], t[0]);
      SymbolsTie(s[1..], t[1..]);
      assert s == [s[0]] + s[1..] && t == [t[0]] + t[1..];
    }
  }

  /** No name directly wraps a name below the outer names. */
  predicate SingleBelow(t: Type) {
    Single(TypeUnder(t))
  }

  predicate SameOuterName(a: Type, b: Type) {
    a.Named? == b.Named? && (a.Named? ==> a.name == b.name)
  }

  /**
   Two types compare equal exactly when they agree under their names and in their outer name.  So
   distinct ones do exactly when both are named alike and the names wrap different types: that of
   a name over a name, which the comparison of types with one id does not look at.
   */
  lemma {:induction false} TieExactly(a: Type, b: Type)
    requires SingleBelow(a) && SingleBelow(b)
    ensures CompareTypes(a, b) == 0 <==> TypeUnder(a) == TypeUnder(b) && SameOuterName(a, b)
    ensures CompareTypes(a, b) == 0 && a != b <==>
      TypeUnder(a) == TypeUnder(b) && a.Named? && b.Named? && a.name == b.name && a.inner != b.inner
  {
    if TypeUnder(a) == TypeUnder(b) {
      if a.Named? && b.Named? {
        NamesPair(a.name, b.name);
      }
    } else {
      UnderOfUnder(a, b);
      UnderTie(TypeUnder(a), TypeUnder(b));
      assert TypeUnder(TypeUnder(a)) == TypeUnder(a) && TypeUnder(TypeUnder(b)) == TypeUnder(b);
    }
  }

  /** Where a name wraps a name, distinct types can compare equal. */
  lemma DoubleNamesTie(outer: Name, x: Name, y: Name, t: Type)
    requires x != y
    ensures Named(outer, Named(x, t)) != Named(outer, Named(y, t))
    ensures CompareTypes(Named(outer, Named(x, t)), Named(outer, Named(y, t))) == 0
  {
    assert TypeUnder(Named(outer, Named(x, t))) == TypeUnder(Named(x, t)) == TypeUnder(t);
    assert TypeUnder(Named(outer, Named(y, t))) == TypeUnder(Named(y, t)) == TypeUnder(t);
    NamesPair(outer, outer);
  }

  // ---------------------------------------------------------------------------
  // The order is total

  /** The comparison looks at what is under the names first and at the names then. */
  lemma {:induction false} CompareInTwoSteps(a: Type, b: Type)
    requires Single(a) && Single(b)
    ensures CompareTypes(a, b) == Then(CompareUnder(a, b), CompareOuterNames(a, b))
  {
    UnderTie(a, b);
  }

  lemma {:induction false} OuterNamesLawful(a: Type, b: Type, c: Type)
    ensures Lawful(CompareOuterNames(a, b), CompareOuterNames(b, a), CompareOuterNames(b, c),
                   CompareOuterNames(c, b), CompareOuterNames(a, c), CompareOuterNames(c, a))
  {
    NamesLawful(if a.Named? then a.name else [], if b.Named? then b.name else [], if c.Named? then c.name else []);
    if a.Named? && b.Named? {
      NamesPair(a.name, b.name);
    }
    if b.Named? && c.Named? {
      NamesPair(b.name, c.name);
    }
    if a.Named? && c.Named? {
      NamesPair(a.name, c.name);
    }
  }

  ghost predicate TypesLaw(a: Type, b: Type, c: Type) {
    Lawful(CompareTypes(a, b), CompareTypes(b, a), CompareTypes(b, c), CompareTypes(c, b), CompareTypes(a, c), CompareTypes(c, a))
  }

  ghost predicate UnderLaw(a: Type, b: Type, c: Type) {
    Lawful(CompareUnder(a, b), CompareUnder(b, a), CompareUnder(b, c), CompareUnder(c, b), CompareUnder(a, c), CompareUnder(c, a))
  }

  /** Comparing types is antisymmetric and transitive. */
  lemma {:induction false} TypesLawful(a: Type, b: Type, c: Type)
    requires Single(a) && Single(b) && Single(c)
    ensures TypesLaw(a, b, c)
    decreases a, 5
  {
    CompareInTwoSteps(a, b);
    CompareInTwoSteps(b, a);
    CompareInTwoSteps(b, c);
    CompareInTwoSteps(c, b);
    CompareInTwoSteps(a, c);
    CompareInTwoSteps(c, a);
    UnderLawful(a, b, c);
    OuterNamesLawful(a, b, c);
    ThenLawful(CompareUnder(a, b), CompareUnder(b, a), CompareUnder(b, c), CompareUnder(c, b), CompareUnder(a, c), CompareUnder(c, a),
               CompareOuterNames(a, b), CompareOuterNames(b, a), CompareOuterNames(b, c),
               CompareOuterNames(c, b), CompareOuterNames(a, c), CompareOuterNames(c, a));
  }

  /** It is so on types with names over names, which tie, as long as the names are the outer ones. */
  lemma {:induction false} BelowLawful(a: Type, b: Type, c: Type)
    requires SingleBelow(a) && SingleBelow(b) && SingleBelow(c)
    ensures TypesLaw(a, b, c)
  {
    var u, v, w := TypeUnder(a), TypeUnder(b), TypeUnder(c);
    CompareBelow(a, b);
    CompareBelow(b, a);
    CompareBelow(b, c);
    CompareBelow(c, b);
    CompareBelow(a, c);
    CompareBelow(c, a);
    UnderLawful(u, v, w);
    OuterNamesLawful(a, b, c);
    ThenLawful(CompareUnder(u, v), CompareUnder(v, u), CompareUnder(v, w), CompareUnder(w, v), CompareUnder(u, w), CompareUnder(w, u),
               CompareOuterNames(a, b), CompareOuterNames(b, a), CompareOuterNames(b, c),
               CompareOuterNames(c, b), CompareOuterNames(a, c), CompareOuterNames(c, a));
  }

  lemma {:induction false} CompareBelow(a: Type, b: Type)
    requires SingleBelow(a) && SingleBelow(b)
    ensures CompareTypes(a, b) == Then(CompareUnder(TypeUnder(a), TypeUnder(b)), CompareOuterNames(a, b))
  {
    UnderOfUnder(a, b);
    UnderTie(TypeUnder(a), TypeUnder(b));
    assert TypeUnder(TypeUnder(a)) == TypeUnder(a) && TypeUnder(TypeUnder(b)) == TypeUnder(b);
  }

  /** Further down names over names make the comparison intransitive: the first and the last do not tie. */
  lemma {:induction false} DeepDoubleNames(x: Name, y: Name, n: Name, p: Name, q: Name, t: Type)
    requires x != y && p != q
    ensures var u, w := Array(Named(n, Named(p, t))), Array(Named(n, Named(q, t)));
            && CompareTypes(Named(x, u), Named(y, w)) == 0
            && CompareTypes(Named(y, w), Named(y, u)) == 0
            && CompareTypes(Named(x, u), Named(y, u)) != 0
  {
    DoubleNamesTie(n, p, q, t);
    DoubleNamesTie(n, q, p, t);
    NamedArrays(x, y, Named(n, Named(p, t)), Named(n, Named(q, t)));
    NamedArrays(y, y, Named(n, Named(q, t)), Named(n, Named(p, t)));
    NamesPair(x, y);
  }

  lemma {:induction false} UnderOneName(x: Name, t: Type)
    requires !t.Named?
    ensures TypeUnder(Named(x, t)) == t
  {
    assert TypeUnder(t) == t;
  }

  lemma {:induction false} NamedArrays(x: Name, y: Name, a: Type, b: Type)
    requires a != b
    ensures CompareTypes(Named(x, Array(a)), Named(y, Array(b))) == CompareTypes(a, b)
  {
    UnderOneName(x, Array(a));
    UnderOneName(y, Array(b));
    UnderOfUnder(Named(x, Array(a)), Named(y, Array(b)));
    assert CompareUnder(Array(a), Array(b)) == CompareTypes(a, b);
  }

  lemma {:induction false} UnderOfUnder(a: Type, b: Type)
    ensures CompareUnder(a, b) == CompareUnder(TypeUnder(a), TypeUnder(b))
    decreases a
  {
    if a.Named? {
      UnderOfUnder(a.inner, b);
    } else {
      assert TypeUnder(TypeUnder(b)) == TypeUnder(b);
    }
  }

  lemma {:induction false} UnderLawful(a: Type, b: Type, c: Type)
    requires Single(a) && Single(b) && Single(c)
    ensures UnderLaw(a, b, c)
    decreases a, 4
  {
    UnderOfUnder(a, b);
    UnderOfUnder(b, a);
    UnderOfUnder(b, c);
    UnderOfUnder(c, b);
    UnderOfUnder(a, c);
    UnderOfUnder(c, a);
    if a.Named? {
      UnderOfUnder(a.inner, b);
      UnderOfUnder(a.inner, c);
      UnderOfUnder(b, a.inner);
      UnderOfUnder(c, a.inner);
      UnderLawful(a.inner, b, c);
    } else {
      SingleUnder(b);
      SingleUnder(c);
      UnnamedLawful(a, TypeUnder(b), TypeUnder(c));
    }
  }

  lemma {:induction false} UnnamedLawful(a: Type, b: Type, c: Type)
    requires Single(a) && Single(b) && Single(c) && !a.Named? && !b.Named? && !c.Named?
    ensures UnderLaw(a, b, c)
    decreases a, 3
  {
    if Kind(a) == Kind(b) == Kind(c) {
      SameKindLawful(a, b, c);
    } else {
      UnderPair(a, b);
      UnderPair(b, c);
      UnderPair(a, c);
    }
  }

  lemma {:induction false} SameKindLawful(a: Type, b: Type, c: Type)
    requires Single(a) && Single(b) && Single(c) && !a.Named? && !b.Named? && !c.Named?
    requires Kind(a) == Kind(b) == Kind(c)
    ensures UnderLaw(a, b, c)
    decreases a, 2
  {
    match a
    case Primitive(_) =>
    case Record(f) => RecordsLawful(f, b.fields, c.fields);
    case Array(x) => TypesLawful(x, b.elem, c.elem);
    case Set(x) => TypesLawful(x, b.elem, c.elem);
    case Map(k, v) => MapsLawful(a, b, c);
    case Union(s) => UnionsLawful(s, b.types, c.types);
    case Enum(s) => EnumsLawful(s, b.symbols, c.symbols);
    case Error(x) => TypesLawful(x, b.inner, c.inner);
  }

  lemma {:induction false} MapsLawful(a: Type, b: Type, c: Type)
    requires a.Map? && b.Map? && c.Map? && Single(a) && Single(b) && Single(c)
    ensures UnderLaw(a, b, c)
    decreases a, 1
  {
    TypesLawful(a.key, b.key, c.key);
    TypesLawful(a.val, b.val, c.val);
    ThenLawful(CompareTypes(a.key, b.key), CompareTypes(b.key, a.key), CompareTypes(b.key, c.key),
               CompareTypes(c.key, b.key), CompareTypes(a.key, c.key), CompareTypes(c.key, a.key),
               CompareTypes(a.val, b.val), CompareTypes(b.val, a.val), CompareTypes(b.val, c.val),
               CompareTypes(c.val, b.val), CompareTypes(a.val, c.val), CompareTypes(c.val, a.val));
  }

  lemma {:induction false} RecordsLawful(f: seq<Field>, g: seq<Field>, h: seq<Field>)
    requires Single(Record(f)) && Single(Record(g)) && Single(Record(h))
    ensures UnderLaw(Record(f), Record(g), Record(h))
    decreases f, 1
  {
    if |f| == |g| == |h| {
      FieldNamesLawful(f, g, h);
      FieldTypesLawful(f, g, h);
      ThenLawful(CompareFieldNames(f, g), CompareFieldNames(g, f), CompareFieldNames(g, h),
                 CompareFieldNames(h, g), CompareFieldNames(f, h), CompareFieldNames(h, f),
                 CompareFieldTypes(f, g), CompareFieldTypes(g, f), CompareFieldTypes(g, h),
                 CompareFieldTypes(h, g), CompareFieldTypes(f, h), CompareFieldTypes(h, f));
    } else {
      UnderPair(Record(f), Record(g));
      UnderPair(Record(g), Record(h));
      UnderPair(Record(f), Record(h));
    }
  }

  lemma {:induction false} FieldNamesLawful(f: seq<Field>, g: seq<Field>, h: seq<Field>)
    requires |f| == |g| == |h|
    ensures Lawful(CompareFieldNames(f, g), CompareFieldNames(g, f), CompareFieldNames(g, h),
                   CompareFieldNames(h, g), CompareFieldNames(f, h), CompareFieldNames(h, f))
    decreases |f|
  {
    if f != [] {
      var a, b, c, f', g', h' := f[0].name, g[0].name, h[0].name, f[1..], g[1..], h[1..];
      NamesLawful(a, b, c);
      FieldNamesLawful(f', g', h');
      ThenLawful(CompareNames(a, b), CompareNames(b, a), CompareNames(b, c), CompareNames(c, b), CompareNames(a, c), CompareNames(c, a),
                 CompareFieldNames(f', g'), CompareFieldNames(g', f'), CompareFieldNames(g', h'),
                 CompareFieldNames(h', g'), CompareFieldNames(f', h'), CompareFieldNames(h', f'));
    }
  }

  lemma {:induction false} FieldTypesLawful(f: seq<Field>, g: seq<Field>, h: seq<Field>)
    requires |f| == |g| == |h| && Single(Record(f)) && Single(Record(g)) && Single(Record(h))
    ensures Lawful(CompareFieldTypes(f, g), CompareFieldTypes(g, f), CompareFieldTypes(g, h),
                   CompareFieldTypes(h, g), CompareFieldTypes(f, h), CompareFieldTypes(h, f))
    decreases f, 0
  {
    if f != [] {
      var a, b, c, f', g', h' := f[0].typ, g[0].typ, h[0].typ, f[1..], g[1..], h[1..];
      TypesLawful(a, b, c);
      FieldTypesLawful(f', g', h');
      ThenLawful(CompareTypes(a, b), CompareTypes(b, a), CompareTypes(b, c), CompareTypes(c, b), CompareTypes(a, c), CompareTypes(c, a),
                 CompareFieldTypes(f', g'), CompareFieldTypes(g', f'), CompareFieldTypes(g', h'),
                 CompareFieldTypes(h', g'), CompareFieldTypes(f', h'), CompareFieldTypes(h', f'));
    }
  }

  lemma {:induction false} UnionsLawful(s: seq<Type>, t: seq<Type>, u: seq<Type>)
    requires Single(Union(s)) && Single(Union(t)) && Single(Union(u))
    ensures UnderLaw(Union(s), Union(t), Union(u))
    decreases s, 1
  {
    if |s| == |t| == |u| {
      AllLawful(s, t, u);
    } else {
      UnderPair(Union(s), Union(t));
      UnderPair(Union(t), Union(u));
      UnderPair(Union(s), Union(u));
    }
  }

  lemma {:induction false} AllLawful(s: seq<Type>, t: seq<Type>, u: seq<Type>)
    requires |s| == |t| == |u| && Single(Union(s)) && Single(Union(t)) && Single(Union(u))
    ensures Lawful(CompareAll(s, t), CompareAll(t, s), CompareAll(t, u), CompareAll(u, t), CompareAll(s, u), CompareAll(u, s))
    decreases s, 0
  {
    if s != [] {
      var a, b, c, s', t', u' := s[0], t[0], u[0], s[1..], t[1..], u[1..];
      TypesLawful(a, b, c);
      AllLawful(s', t', u');
      ThenLawful(CompareTypes(a, b), CompareTypes(b, a), CompareTypes(b, c), CompareTypes(c, b), CompareTypes(a, c), CompareTypes(c, a),
                 CompareAll(s', t'), CompareAll(t', s'), CompareAll(t', u'), CompareAll(u', t'), CompareAll(s', u'), CompareAll(u', s'));
    }
  }

  lemma {:induction false} EnumsLawful(s: seq<Name>, t: seq<Name>, u: seq<Name>)
    ensures UnderLaw(Enum(s), Enum(t), Enum(u))
  {
    if |s| == |t| == |u| {
      SymbolsLawful(s, t, u);
    } else {
      UnderPair(Enum(s), Enum(t));
      UnderPair(Enum(t), Enum(u));
      UnderPair(Enum(s), Enum(u));
    }
  }

  lemma {:induction false} SymbolsLawful(s: seq<Name>, t: seq<Name>, u: seq<Name>)
    requires |s| == |t| == |u|
    ensures Lawful(CompareSymbols(s, t), CompareSymbols(t, s), CompareSymbols(t, u),
                   CompareSymbols(u, t), CompareSymbols(s, u), CompareSymbols(u, s))
    decreases |s|
  {
    if s != [] {
      var a, b, c, s', t', u' := s[0], t[0], u[0], s[1..], t[1..], u[1..];
      NamesLawful(a, b, c);
      SymbolsLawful(s', t', u');
      ThenLawful(CompareNames(a, b), CompareNames(b, a), CompareNames(b, c), CompareNames(c, b), CompareNames(a, c), CompareNames(c, a),
                 CompareSymbols(s', t'), CompareSymbols(t', s'), CompareSymbols(t', u'),
                 CompareSymbols(u', t'), CompareSymbols(s', u'), CompareSymbols(u', s'));
    }
  }

  // ---------------------------------------------------------------------------
  // Two types

  /** A comparison and its mirror image. */
  ghost predicate Mirrors(ab: int, ba: int) {
    -1 <= ab <= 1 && ba == -ab
  }

  lemma {:induction false} TypesPair(a: Type, b: Type)
    ensures Mirrors(CompareTypes(a, b), CompareTypes(b, a))
    decreases a, 1
  {
    if TypeUnder(a) == TypeUnder(b) {
      if a.Named? && b.Named? {
        NamesPair(a.name, b.name);
      }
    } else {
      UnderPair(a, b);
    }
  }

  lemma {:induction false} UnderPair(a: Type, b: Type)
    ensures Mirrors(CompareUnder(a, b), CompareUnder(b, a))
    decreases a, 0
  {
    UnderOfUnder(a, b);
    UnderOfUnder(b, a);
    if a.Named? {
      UnderOfUnder(b, a.inner);
      UnderPair(a.inner, b);
    } else {
      UnnamedPair(a, TypeUnder(b));
    }
  }

  lemma {:induction false} UnnamedPair(a: Type, b: Type)
    requires !a.Named? && !b.Named?
    ensures Mirrors(CompareUnder(a, b), CompareUnder(b, a))
    decreases a, -1
  {
    match (a, b)
    case (Record(f), Record(g)) => if |f| == |g| { FieldsPair(f, g); }
    case (Array(x), Array(y)) => TypesPair(x, y);
    case (Set(x), Set(y)) => TypesPair(x, y);
    case (Map(k, v), Map(l, w)) => TypesPair(k, l); TypesPair(v, w);
    case (Union(s), Union(t)) => if |s| == |t| { AllPair(s, t); }
    case (Enum(s), Enum(t)) => if |s| == |t| { SymbolsPair(s, t); }
    case (Error(x), Error(y)) => TypesPair(x, y);
    case _ =>
  }

  lemma {:induction false} FieldsPair(f: seq<Field>, g: seq<Field>)
    requires |f| == |g|
    ensures Mirrors(CompareFieldNames(f, g), CompareFieldNames(g, f))
    ensures Mirrors(CompareFieldTypes(f, g), CompareFieldTypes(g, f))
    decreases f
  {
    if f != [] {
      NamesPair(f[0].name, g[0].name);
      TypesPair(f[0].typ, g[0].typ);
      FieldsPair(f[1..], g[1..]);
    }
  }

  lemma {:induction false} AllPair(s: seq<Type>, t: seq<Type>)
    requires |s| == |t|
    ensures Mirrors(CompareAll(s, t), CompareAll(t, s))
    decreases s
  {
    if s != [] {
      TypesPair(s[0], t[0]);
      AllPair(s[1..], t[1..]);
    }
  }

  lemma {:induction false} SymbolsPair(s: seq<Name>, t: seq<Name>)
    requires |s| == |t|
    ensures Mirrors(CompareSymbols(s, t), CompareSymbols(t, s))
    decreases |s|
  {
    if s != [] {
      NamesPair(s[0], t[0]);
      SymbolsPair(s[1..], t[1..]);
    }
  }
}
