/** A builder delivers the values of its columns one by one, each as it was written. */
module VngReading {
  import opened Wrappers
  import opened Uvarint
  import opened Counted
  import opened Zcode
  import opened Types
  import opened VngColumns
  import opened VngPrimitives
  import opened VngEncoders
  import opened VngReaders

  /** A value of the type whose tags are the ones the lookup table gives. */
  ghost predicate Canonical(t: Type, v: Value) {
    HasType(t, v) && Canon(t, v) == v
  }

  ghost predicate AllCanonical(t: Type, vs: seq<Value>) {
    HaveType(t, vs) && Canons(t, vs) == vs
  }

  ghost predicate EntriesCanonical(key: Type, val: Type, items: seq<Value>) {
    HaveTypes(key, val, items) && CanonEntries(key, val, items) == items
  }

  lemma {:induction false} AllCanonicalStep(t: Type, vs: seq<Value>)
    requires AllCanonical(t, vs) && vs != []
    ensures Canonical(t, vs[0]) && AllCanonical(t, vs[1..])
  {
    assert Canons(t, vs)[0] == Canon(t, vs[0]) && Canons(t, vs)[1..] == Canons(t, vs[1..]);
  }

  lemma {:induction false} EntriesCanonicalStep(key: Type, val: Type, items: seq<Value>)
    requires EntriesCanonical(key, val, items) && items != []
    ensures |items| >= 2 && Canonical(key, items[0]) && Canonical(val, items[1])
    ensures EntriesCanonical(key, val, items[1..][1..])
  {
    var c := CanonEntries(key, val, items);
    assert c[0] == Canon(key, items[0]) && c[1] == Canon(val, items[1]);
    assert c[1..][1..] == CanonEntries(key, val, items[1..][1..]);
  }

  /** The builder gives this value next and then the rest. */
  ghost predicate Delivers(env: Env, t: Type, m: Meta, c: Cursor, data: Body, v: Value, rest: seq<Value>) {
    var r := Build(env, m, c, data);
    r.Some? && r.value.0 == v && Reads(env, t, m, r.value.1, data, rest)
  }

  ghost predicate DeliversFilled(env: Env, t: Type, m: Meta, c: Cursor, data: Body, v: Value, rest: seq<Value>)
    requires !t.Named? && !t.Error?
  {
    var r := Build(env, m, c, data);
    r.Some? && r.value.0 == v && ReadsFilled(env, t, m, r.value.1, data, rest)
  }

  lemma {:induction false} PartsCons(p: Pick, v: Value, rest: seq<Value>)
    ensures Parts(p, [v] + rest) == Part(p, v) + Parts(p, rest)
  {
    assert ([v] + rest)[1..] == rest;
  }

  // ---------------------------------------------------------------------------
  // One step of each builder, whatever its children do

  lemma {:induction false} BuildNull(env: Env, m: Meta, c: Cursor, data: Body, flags: seq<bool>)
    requires m.NullsMeta? && c.NullsCursor?
    requires HasFlags(env, m.runs, data, c.runs, c.isNull, c.run, flags) && flags != []
    ensures flags[0] ==>
      var r := Build(env, m, c, data);
      && r.Some? && r.value.0 == Null && r.value.1.NullsCursor? && r.value.1.values == c.values
      && HasFlags(env, m.runs, data, r.value.1.runs, r.value.1.isNull, r.value.1.run, flags[1..])
    ensures !flags[0] && Build(env, m.values, c.values, data).Some? ==>
      var r := Build(env, m, c, data);
      && r.Some? && r.value.0 == Build(env, m.values, c.values, data).value.0
      && r.value.1.NullsCursor? && r.value.1.values == Build(env, m.values, c.values, data).value.1
      && HasFlags(env, m.runs, data, r.value.1.runs, r.value.1.isNull, r.value.1.run, flags[1..])
  {
    ReadRunStep(env, m.runs, data, c.runs, c.isNull, c.run, flags);
  }

  lemma {:induction false} BuildFieldsOf(env: Env, ms: seq<Meta>, cs: seq<Cursor>, data: Body, vs: seq<Value>, after: seq<Cursor>)
    requires |ms| == |cs| == |vs| == |after|
    requires forall i :: 0 <= i < |ms| ==> Build(env, ms[i], cs[i], data) == Some((vs[i], after[i]))
    ensures BuildFields(env, ms, cs, data) == Some((vs, after))
    decreases |ms|
  {
    if ms != [] {
      BuildFieldsOf(env, ms[1..], cs[1..], data, vs[1..], after[1..]);
      assert [vs[0]] + vs[1..] == vs && [after[0]] + after[1..] == after;
    }
  }

  lemma {:induction false} LengthStep(env: Env, loc: Segment, data: Body, buf: Option<Body>, v: Value, rest: seq<Value>, size: nat, n: nat)
    requires size > 0 && v.Group? && n == |v.items| / size < INT64_LIMIT
    requires HasInts(env, loc, data, buf, Lengths([v] + rest, size))
    ensures var r := ReadInt(env, loc, data, buf);
            r.Some? && r.value.0 == n && HasInts(env, loc, data, Some(r.value.1), Lengths(rest, size))
  {
    var xs := Lengths([v] + rest, size);
    ReadIntStep(env, loc, data, buf, xs);
    assert xs[1..] == Lengths(rest, size);
  }

  lemma {:induction false} TagStep(env: Env, loc: Segment, data: Body, buf: Option<Body>, v: Value, rest: seq<Value>)
    requires HasInts(env, loc, data, buf, Tags([v] + rest))
    ensures var r := ReadInt(env, loc, data, buf);
            r.Some? && r.value.0 == TagIn(v) && HasInts(env, loc, data, Some(r.value.1), Tags(rest))
  {
    var xs := Tags([v] + rest);
    ReadIntStep(env, loc, data, buf, xs);
    assert xs[1..] == Tags(rest);
  }

  lemma {:induction false} MapStep(env: Env, m: Meta, c: Cursor, data: Body, n: nat, rest: Body, items: seq<Value>, kc: Cursor, vc: Cursor)
    requires m.MapMeta? && c.MapCursor? && n < INT64_LIMIT
    requires ReadInt(env, m.lengths, data, c.lengths) == Some((n, rest))
    requires BuildEntries(env, m, c.keys, c.vals, n, data) == Some((items, kc, vc))
    ensures Build(env, m, c, data) == Some((Group(items), MapCursor(kc, vc, Some(rest))))
  {
  }

  lemma {:induction false} ManyStep(env: Env, m: Meta, c: Cursor, data: Body, vs: seq<Value>, next: Cursor, after: Cursor)
    requires vs != []
    requires Build(env, m, c, data) == Some((vs[0], next))
    requires BuildMany(env, m, next, |vs| - 1, data) == Some((vs[1..], after))
    ensures BuildMany(env, m, c, |vs|, data) == Some((vs, after))
  {
    assert [vs[0]] + vs[1..] == vs;
  }

  lemma {:induction false} EntryStep(env: Env, m: Meta, c: (Cursor, Cursor), data: Body, n: nat,
                                     k: Value, v: Value, next: (Cursor, Cursor), items: seq<Value>, after: (Cursor, Cursor))
    requires m.MapMeta? && n > 0
    requires Build(env, m.keys, c.0, data) == Some((k, next.0)) && Build(env, m.vals, c.1, data) == Some((v, next.1))
    requires BuildEntries(env, m, next.0, next.1, n - 1, data) == Some((items, after.0, after.1))
    ensures BuildEntries(env, m, c.0, c.1, n, data) == Some(([k, v] + items, after.0, after.1))
  {
  }

  lemma {:induction false} UnionStep(env: Env, m: Meta, c: Cursor, data: Body, tag: int64, rest: Body, inner: Value, after: Cursor)
    requires m.UnionMeta? && c.UnionCursor? && 0 <= tag < |c.members| == |m.members|
    requires ReadInt(env, m.tags, data, c.tags) == Some((tag, rest))
    requires Build(env, m.members[tag], c.members[tag], data) == Some((inner, after))
    ensures Build(env, m, c, data) == Some((Tagged(tag, inner), UnionCursor(c.members[tag := after], Some(rest))))
  {
  }

  // ---------------------------------------------------------------------------
  // The induction over the value and its type

  lemma {:induction false} BuildReads(env: Env, t: Type, m: Meta, c: Cursor, data: Body, v: Value, rest: seq<Value>)
    requires Reads(env, t, m, c, data, [v] + rest) && Canonical(t, v)
    ensures Delivers(env, t, m, c, data, v, rest)
    decreases v, t, 5, 0
  {
    match t
    case Named(_, inner) => BuildReads(env, inner, m.values, c, data, v, rest);
    case Error(inner) => BuildReads(env, inner, m.values, c, data, v, rest);
    case _ =>
      if m.NullsMeta? {
        BuildNullable(env, t, m, c, data, v, rest);
      } else {
        BuildNotNull(env, t, m, c, data, v, rest);
      }
  }

  lemma {:induction false} NoNullsCons(v: Value, rest: seq<Value>)
    requires NoNulls([v] + rest)
    ensures !v.Null? && NoNulls(rest)
  {
    assert ([v] + rest)[0] == v && forall i :: 0 <= i < |rest| ==> ([v] + rest)[i + 1] == rest[i];
  }

  lemma {:induction false} BuildNotNull(env: Env, t: Type, m: Meta, c: Cursor, data: Body, v: Value, rest: seq<Value>)
    requires !t.Named? && !t.Error? && !m.NullsMeta?
    requires Reads(env, t, m, c, data, [v] + rest) && Canonical(t, v)
    ensures Delivers(env, t, m, c, data, v, rest)
    decreases v, t, 4, 0
  {
    NoNullsCons(v, rest);
    BuildFilled(env, t, m, c, data, v, rest);
  }

  lemma {:induction false} BuildNullable(env: Env, t: Type, m: Meta, c: Cursor, data: Body, v: Value, rest: seq<Value>)
    requires !t.Named? && !t.Error? && m.NullsMeta?
    requires Reads(env, t, m, c, data, [v] + rest) && Canonical(t, v)
    ensures Delivers(env, t, m, c, data, v, rest)
    decreases v, t, 4, 0
  {
    var flags := NullFlags([v] + rest);
    assert flags[1..] == NullFlags(rest) && flags[0] == v.Null?;
    PartsCons(Present, v, rest);
    if v.Null? {
      assert Parts(Present, [v] + rest) == Parts(Present, rest);
    } else {
      BuildFilled(env, t, m.values, c.values, data, v, Parts(Present, rest));
    }
    BuildNull(env, m, c, data, flags);
  }

  lemma {:induction false} BuildFilled(env: Env, t: Type, m: Meta, c: Cursor, data: Body, v: Value, rest: seq<Value>)
    requires !t.Named? && !t.Error? && !v.Null?
    requires ReadsFilled(env, t, m, c, data, [v] + rest) && Canonical(t, v)
    ensures DeliversFilled(env, t, m, c, data, v, rest)
    decreases v, t, 3, 0
  {
    match t
    case Record(fields) => BuildRecord(env, fields, m, c, data, v, rest);
    case Array(elem) => BuildElems(env, elem, m.elems, m.lengths, c, data, v, rest);
    case Set(elem) => BuildElems(env, elem, m.elems, m.lengths, c, data, v, rest);
    case Map(key, val) => BuildMap(env, key, val, m, c, data, v, rest);
    case Union(types) => BuildUnion(env, types, m, c, data, v, rest);
    case Primitive(_) => BuildPrimitive(env, m, c, data, v, rest);
    case Enum(_) => BuildPrimitive(env, m, c, data, v, rest);
  }

  lemma {:induction false} BuildPrimitive(env: Env, m: Meta, c: Cursor, data: Body, v: Value, rest: seq<Value>)
    requires v.Bytes? && Fits(Some(v.body)) && HasBodies(env, m, c, data, Bodies([v] + rest))
    ensures var r := Build(env, m, c, data);
            r.Some? && r.value.0 == v && HasBodies(env, m, r.value.1, data, Bodies(rest))
  {
    var bodies := Bodies([v] + rest);
    assert bodies[0] == v.body && bodies[1..] == Bodies(rest);
    BuildBody(env, m, c, data, bodies);
  }

  lemma {:induction false} BuildRecord(env: Env, fields: seq<Field>, m: Meta, c: Cursor, data: Body, v: Value, rest: seq<Value>)
    requires v.Group? && Canonical(Record(fields), v)
    requires ReadsFilled(env, Record(fields), m, c, data, [v] + rest)
    ensures DeliversFilled(env, Record(fields), m, c, data, v, rest)
    decreases v, Record(fields), 2, 0
  {
    forall i | 0 <= i < |fields| ensures Delivers(env, fields[i].typ, m.fields[i], c.fields[i], data, v.items[i], Parts(At(i), rest)) {
      PartsCons(At(i), v, rest);
      assert HaveFields(fields, v.items);
      assert CanonFields(fields, v.items)[i] == Canon(fields[i].typ, v.items[i]);
      BuildReads(env, fields[i].typ, m.fields[i], c.fields[i], data, v.items[i], Parts(At(i), rest));
    }
    var after := seq(|fields|, i requires 0 <= i < |fields| => Build(env, m.fields[i], c.fields[i], data).value.1);
    BuildFieldsOf(env, m.fields, c.fields, data, v.items, after);
  }

  /** The builder of an array gives this array next and then the rest. */
  ghost predicate DeliversList(env: Env, elem: Type, m: Meta, loc: Segment, c: Cursor, data: Body, v: Value, rest: seq<Value>)
    requires c.ArrayCursor?
  {
    var r := BuildArray(env, m, loc, c.elems, c.lengths, data);
    && r.Some? && r.value.0 == v && r.value.1.ArrayCursor?
    && HasInts(env, loc, data, r.value.1.lengths, Lengths(rest, 1))
    && Reads(env, elem, m, r.value.1.elems, data, Parts(All, rest))
  }

  /** The builder gives these values one after the other and then the rest. */
  ghost predicate DeliversMany(env: Env, t: Type, m: Meta, c: Cursor, data: Body, vs: seq<Value>, rest: seq<Value>) {
    var r := BuildMany(env, m, c, |vs|, data);
    r.Some? && r.value.0 == vs && Reads(env, t, m, r.value.1, data, rest)
  }

  lemma {:induction false} ArrayStep(env: Env, elem: Type, m: Meta, loc: Segment, c: Cursor, data: Body, v: Value, rest: seq<Value>, n: nat)
    requires c.ArrayCursor? && v.Group? && n == |v.items| && DeliversMany(env, elem, m, c.elems, data, v.items, Parts(All, rest))
    requires var r := ReadInt(env, loc, data, c.lengths);
             r.Some? && r.value.0 == n && HasInts(env, loc, data, Some(r.value.1), Lengths(rest, 1))
    ensures DeliversList(env, elem, m, loc, c, data, v, rest)
  {
  }

  lemma {:induction false} BuildElems(env: Env, elem: Type, m: Meta, loc: Segment, c: Cursor, data: Body, v: Value, rest: seq<Value>)
    requires c.ArrayCursor? && v.Group? && |v.items| < INT64_LIMIT && AllCanonical(elem, v.items)
    requires HasInts(env, loc, data, c.lengths, Lengths([v] + rest, 1))
    requires Reads(env, elem, m, c.elems, data, Parts(All, [v] + rest))
    ensures DeliversList(env, elem, m, loc, c, data, v, rest)
    decreases v, elem, 7, 0
  {
    LengthStep(env, loc, data, c.lengths, v, rest, 1, |v.items|);
    PartsCons(All, v, rest);
    BuildManyReads(env, elem, m, c.elems, data, v.items, Parts(All, rest), v);
    ArrayStep(env, elem, m, loc, c, data, v, rest, |v.items|);
  }

  /** Whenever the builder has this value next, it delivers it and has the rest next. */
  ghost predicate Steps(env: Env, m: Meta, data: Body, holds: (Cursor, seq<Value>) -> bool, v: Value) {
    forall c, tail :: holds(c, [v] + tail) ==>
      var r := Build(env, m, c, data);
      r.Some? && r.value.0 == v && holds(r.value.1, tail)
  }

  lemma {:induction false} ManySteps(env: Env, m: Meta, c: Cursor, data: Body, holds: (Cursor, seq<Value>) -> bool, vs: seq<Value>, rest: seq<Value>)
    requires holds(c, vs + rest) && forall i :: 0 <= i < |vs| ==> Steps(env, m, data, holds, vs[i])
    ensures var r := BuildMany(env, m, c, |vs|, data);
            r.Some? && r.value.0 == vs && holds(r.value.1, rest)
    decreases |vs|
  {
    if vs == [] {
      assert vs + rest == rest;
    } else {
      assert Steps(env, m, data, holds, vs[0]);
      assert vs + rest == [vs[0]] + (vs[1..] + rest);
      var next := Build(env, m, c, data).value.1;
      ManySteps(env, m, next, data, holds, vs[1..], rest);
      ManyStep(env, m, c, data, vs, next, BuildMany(env, m, next, |vs| - 1, data).value.1);
    }
  }

  lemma {:induction false} BuildManyReads(env: Env, t: Type, m: Meta, c: Cursor, data: Body, vs: seq<Value>, rest: seq<Value>, whole: Value)
    requires Reads(env, t, m, c, data, vs + rest) && AllCanonical(t, vs)
    requires forall i :: 0 <= i < |vs| ==> vs[i] < whole
    ensures DeliversMany(env, t, m, c, data, vs, rest)
    decreases whole, t, 6, 1
  {
    forall i | 0 <= i < |vs| ensures Steps(env, m, data, Reader(env, t, m, data), vs[i]) {
      CanonicalAt(t, vs, i);
      StepsOf(env, t, m, data, vs[i], whole);
    }
    ManySteps(env, m, c, data, Reader(env, t, m, data), vs, rest);
  }

  /** What a builder has left to deliver, as a test. */
  ghost function Reader(env: Env, t: Type, m: Meta, data: Body): (Cursor, seq<Value>) -> bool {
    (c: Cursor, us: seq<Value>) => Reads(env, t, m, c, data, us)
  }

  lemma {:induction false} StepsOf(env: Env, t: Type, m: Meta, data: Body, v: Value, whole: Value)
    requires Canonical(t, v) && v < whole
    ensures Steps(env, m, data, Reader(env, t, m, data), v)
    decreases whole, t, 6, 0
  {
    forall c, tail | Reads(env, t, m, c, data, [v] + tail) ensures Delivers(env, t, m, c, data, v, tail) {
      BuildReads(env, t, m, c, data, v, tail);
    }
  }

  lemma {:induction false} CanonicalAt(t: Type, vs: seq<Value>, i: nat)
    requires AllCanonical(t, vs) && i < |vs|
    ensures Canonical(t, vs[i])
    decreases |vs|
  {
    AllCanonicalStep(t, vs);
    if i > 0 {
      CanonicalAt(t, vs[1..], i - 1);
    }
  }

  lemma {:induction false} BuildMap(env: Env, key: Type, val: Type, m: Meta, c: Cursor, data: Body, v: Value, rest: seq<Value>)
    requires v.Group? && |v.items| < INT64_LIMIT && EntriesCanonical(key, val, v.items)
    requires ReadsFilled(env, Map(key, val), m, c, data, [v] + rest)
    ensures DeliversFilled(env, Map(key, val), m, c, data, v, rest)
    decreases v, Map(key, val), 2, 0
  {
    LengthStep(env, m.lengths, data, c.lengths, v, rest, 2, |v.items| / 2);
    PartsCons(Keys, v, rest);
    PartsCons(Vals, v, rest);
    EntriesSplit(key, val, v.items);
    BuildEntriesReads(env, key, val, m, (c.keys, c.vals), data, v.items, Parts(Keys, rest), Parts(Vals, rest), v);
    var n, r := ReadInt(env, m.lengths, data, c.lengths).value, BuildEntries(env, m, c.keys, c.vals, |v.items| / 2, data).value;
    MapStep(env, m, c, data, n.0, n.1, v.items, r.1, r.2);
  }

  /** A map's two columns deliver these keys and these values. */
  ghost predicate ReadsEntries(env: Env, key: Type, val: Type, m: Meta, c: (Cursor, Cursor), data: Body, ks: seq<Value>, vs: seq<Value>)
    requires m.MapMeta?
  {
    Reads(env, key, m.keys, c.0, data, ks) && Reads(env, val, m.vals, c.1, data, vs)
  }

  lemma {:induction false} FirstEntry(items: seq<Value>, ks: seq<Value>, vs: seq<Value>)
    requires |items| >= 2
    ensures var more := items[1..][1..];
            && items == [items[0], items[1]] + more
            && Evens(items) + ks == [items[0]] + (Evens(more) + ks)
            && Odds(items) + vs == [items[1]] + (Odds(more) + vs)
  {
    var more := items[1..][1..];
    assert items == [items[0], items[1]] + more;
    EvensOfPair(items[0], items[1], more);
  }

  lemma {:induction false} BuildEntriesReads(env: Env, key: Type, val: Type, m: Meta, c: (Cursor, Cursor), data: Body,
                                             items: seq<Value>, ks: seq<Value>, vs: seq<Value>, whole: Value)
    requires m.MapMeta? && EntriesCanonical(key, val, items)
    requires ReadsEntries(env, key, val, m, c, data, Evens(items) + ks, Odds(items) + vs)
    requires forall i :: 0 <= i < |items| ==> items[i] < whole
    ensures var r := BuildEntries(env, m, c.0, c.1, |items| / 2, data);
            && r.Some? && r.value.0 == items
            && ReadsEntries(env, key, val, m, (r.value.1, r.value.2), data, ks, vs)
    decreases whole, Map(key, val), 1, |items|
  {
    if items == [] {
      assert Evens(items) + ks == ks && Odds(items) + vs == vs;
    } else {
      EntriesCanonicalStep(key, val, items);
      FirstEntry(items, ks, vs);
      var more := items[1..][1..];
      var next := BuildEntry(env, key, val, m, c, data, items[0], items[1], Evens(more) + ks, Odds(more) + vs, whole);
      BuildEntriesReads(env, key, val, m, next, data, more, ks, vs, whole);
      var r := BuildEntries(env, m, next.0, next.1, |more| / 2, data).value;
      EntryStep(env, m, c, data, |items| / 2, items[0], items[1], next, more, (r.1, r.2));
    }
  }

  lemma {:induction false} BuildEntry(env: Env, key: Type, val: Type, m: Meta, c: (Cursor, Cursor), data: Body,
                                      k: Value, v: Value, ks: seq<Value>, vs: seq<Value>, whole: Value) returns (next: (Cursor, Cursor))
    requires m.MapMeta? && Canonical(key, k) && Canonical(val, v) && k < whole && v < whole
    requires ReadsEntries(env, key, val, m, c, data, [k] + ks, [v] + vs)
    ensures Build(env, m.keys, c.0, data) == Some((k, next.0)) && Build(env, m.vals, c.1, data) == Some((v, next.1))
    ensures ReadsEntries(env, key, val, m, next, data, ks, vs)
    decreases whole, Map(key, val), 0, 0
  {
    BuildReads(env, key, m.keys, c.0, data, k, ks);
    BuildReads(env, val, m.vals, c.1, data, v, vs);
    next := (Build(env, m.keys, c.0, data).value.1, Build(env, m.vals, c.1, data).value.1);
  }

  lemma {:induction false} BuildUnion(env: Env, types: seq<Type>, m: Meta, c: Cursor, data: Body, v: Value, rest: seq<Value>)
    requires !v.Null? && Canonical(Union(types), v)
    requires ReadsFilled(env, Union(types), m, c, data, [v] + rest)
    ensures DeliversFilled(env, Union(types), m, c, data, v, rest)
    decreases v, Union(types), 2, 0
  {
    var tag, inner := TagIn(v), v.items[1];
    UnionCanonical(types, v);
    TagStep(env, m.tags, data, c.tags, v, rest);
    PartsCons(Member(tag), v, rest);
    BuildReads(env, types[tag], m.members[tag], c.members[tag], data, inner, Parts(Member(tag), rest));
    UnionDelivers(env, types, m, c, data, v, rest);
  }

  lemma {:induction false} UnionDelivers(env: Env, types: seq<Type>, m: Meta, c: Cursor, data: Body, v: Value, rest: seq<Value>)
    requires m.UnionMeta? && c.UnionCursor? && |m.members| == |c.members| == |types| && 0 <= TagIn(v) < |types|
    requires v.Group? && |v.items| == 2 && v == Tagged(TagIn(v), v.items[1])
    requires ReadsMembers(env, types, m.members, c.members, data, [v] + rest)
    requires var r := ReadInt(env, m.tags, data, c.tags);
             r.Some? && r.value.0 == TagIn(v) && HasInts(env, m.tags, data, Some(r.value.1), Tags(rest))
    requires Delivers(env, types[TagIn(v)], m.members[TagIn(v)], c.members[TagIn(v)], data, v.items[1], Parts(Member(TagIn(v)), rest))
    ensures DeliversFilled(env, Union(types), m, c, data, v, rest)
  {
    var tag := TagIn(v);
    var after := Build(env, m.members[tag], c.members[tag], data).value.1;
    UnionStep(env, m, c, data, tag, ReadInt(env, m.tags, data, c.tags).value.1, v.items[1], after);
    OtherMembers(env, types, m.members, c.members, after, data, v, rest);
  }

  /** Reading a member leaves the others as they are. */
  lemma {:induction false} OtherMembers(env: Env, types: seq<Type>, ms: seq<Meta>, cs: seq<Cursor>, after: Cursor, data: Body,
                                        v: Value, rest: seq<Value>)
    requires |ms| == |cs| == |types| && 0 <= TagIn(v) < |types|
    requires ReadsMembers(env, types, ms, cs, data, [v] + rest)
    requires Reads(env, types[TagIn(v)], ms[TagIn(v)], after, data, Parts(Member(TagIn(v)), rest))
    ensures ReadsMembers(env, types, ms, cs[TagIn(v) := after], data, rest)
  {
    forall i | 0 <= i < |types| ensures Reads(env, types[i], ms[i], cs[TagIn(v) := after][i], data, Parts(Member(i), rest)) {
      PartsCons(Member(i), v, rest);
      if i != TagIn(v) {
        assert Parts(Member(i), [v] + rest) == Parts(Member(i), rest);
      }
    }
  }

  lemma {:induction false} UnionCanonical(types: seq<Type>, v: Value)
    requires !v.Null? && Canonical(Union(types), v)
    ensures 0 <= TagIn(v) < |types| && v == Tagged(TagIn(v), v.items[1]) && Canonical(types[TagIn(v)], v.items[1])
  {
    var tag := TagOf(types, types[TagIn(v)]);
    DecodeEncodeInt(tag);
    assert v.items[0] == Bytes(EncodeInt(tag)) && v.items[1] == Canon(types[TagIn(v)], v.items[1]);
  }

  // ---------------------------------------------------------------------------
  // Tags

  lemma {:induction false} CanonIsCanonical(t: Type, v: Value)
    requires HasType(t, v)
    ensures Canonical(t, Canon(t, v))
    decreases v, t, 1
  {
    if v.Null? {
      NullCanonical(t);
    } else {
      match t
      case Named(_, inner) => CanonIsCanonical(inner, v);
      case Error(inner) => CanonIsCanonical(inner, v);
      case Record(fields) => FieldsCanonical(fields, v);
      case Array(elem) => ItemsCanonical(elem, v.items);
      case Set(elem) => ItemsCanonical(elem, v.items);
      case Map(key, val) => EntriesCanonicalOf(key, val, v.items);
      case Union(types) => TaggedCanonical(types, v);
      case Primitive(_) =>
      case Enum(_) =>
    }
  }

  lemma {:induction false} NullCanonical(t: Type)
    ensures Canonical(t, Null)
  {
    match t
    case Named(_, inner) => NullCanonical(inner);
    case Error(inner) => NullCanonical(inner);
    case _ =>
  }

  lemma {:induction false} FieldsCanonical(fields: seq<Field>, v: Value)
    requires v.Group? && HasType(Record(fields), v)
    ensures Canonical(Record(fields), Canon(Record(fields), v))
    decreases v, Record(fields), 0
  {
    var c := CanonFields(fields, v.items);
    assert HaveFields(fields, v.items);
    forall i | 0 <= i < |fields| ensures HasType(fields[i].typ, c[i]) && Canon(fields[i].typ, c[i]) == c[i] {
      CanonIsCanonical(fields[i].typ, v.items[i]);
    }
    assert HaveFields(fields, c) && CanonFields(fields, c) == c;
  }

  lemma {:induction false} ItemsCanonical(t: Type, vs: seq<Value>)
    requires HaveType(t, vs)
    ensures AllCanonical(t, Canons(t, vs))
    decreases vs
  {
    if vs != [] {
      CanonIsCanonical(t, vs[0]);
      ItemsCanonical(t, vs[1..]);
      assert Canons(t, vs)[1..] == Canons(t, vs[1..]);
    }
  }

  lemma {:induction false} EntriesCanonicalOf(key: Type, val: Type, items: seq<Value>)
    requires HaveTypes(key, val, items)
    ensures EntriesCanonical(key, val, CanonEntries(key, val, items))
    decreases items
  {
    if items != [] {
      CanonIsCanonical(key, items[0]);
      CanonIsCanonical(val, items[1]);
      EntriesCanonicalOf(key, val, items[1..][1..]);
      assert CanonEntries(key, val, items)[1..][1..] == CanonEntries(key, val, items[1..][1..]);
    }
  }

  lemma {:induction false} TaggedCanonical(types: seq<Type>, v: Value)
    requires !v.Null? && HasType(Union(types), v)
    ensures Canonical(Union(types), Canon(Union(types), v))
    decreases v, Union(types), 0
  {
    var tag := TagOf(types, types[TagIn(v)]);
    var inner := Canon(types[tag], v.items[1]);
    CanonIsCanonical(types[tag], v.items[1]);
    DecodeEncodeInt(tag);
    assert TagIn(Tagged(tag, inner)) == tag;
  }
}
