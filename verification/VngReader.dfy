/** The builders of a VNG object: each holds a place in its columns and puts the next value together. */
module VngReaders {
  import opened Wrappers
  import opened Uvarint
  import opened Counted
  import opened Zcode
  import opened Types
  import opened VngColumns
  import opened VngPrimitives
  import opened VngEncoders

  /** What a builder changes as it reads; a buffer is nothing until its segment is loaded. */
  datatype Cursor =
    | NullsCursor(values: Cursor, runs: Option<Body>, isNull: bool, run: int64)
    | RecordCursor(fields: seq<Cursor>)
    | ArrayCursor(elems: Cursor, lengths: Option<Body>)
    | MapCursor(keys: Cursor, vals: Cursor, lengths: Option<Body>)
    | UnionCursor(members: seq<Cursor>, tags: Option<Body>)
    | PlainCursor(buf: Option<Body>)
    | DictCursor(selectors: Option<Body>, off: nat)
    | ConstCursor(count: nat)
    | NoCursor

  function NewBuilder(m: Meta): Cursor {
    match m
    case NullsMeta(_, values, _) => NullsCursor(NewBuilder(values), None, true, 0)
    case NamedMeta(_, values) => NewBuilder(values)
    case ErrorMeta(values) => NewBuilder(values)
    case RecordMeta(_, _, fields) => RecordCursor(NewBuilders(fields))
    case ArrayMeta(_, _, elems) => ArrayCursor(NewBuilder(elems), None)
    case SetMeta(_, _, elems) => ArrayCursor(NewBuilder(elems), None)
    case MapMeta(_, _, keys, vals) => MapCursor(NewBuilder(keys), NewBuilder(vals), None)
    case UnionMeta(_, _, members) => UnionCursor(NewBuilders(members), None)
    case PrimitiveMeta(_, _, dict, _) => if dict != [] then DictCursor(None, 0) else PlainCursor(None)
    case ConstMeta(_, _, count) => ConstCursor(count)
    case DynamicMeta(_, _, _) => NoCursor
  }

  function NewBuilders(ms: seq<Meta>): (r: seq<Cursor>)
    ensures |r| == |ms|
    ensures forall i :: 0 <= i < |ms| ==> r[i] == NewBuilder(ms[i])
    decreases ms
  {
    if ms == [] then [] else [NewBuilder(ms[0])] + NewBuilders(ms[1..])
  }

  /** The loop at the head of NullsBuilder.Build, which loads the runs only when the current one is used up. */
  function ReadRun(env: Env, loc: Segment, data: Body, buf: Option<Body>, isNull: bool, run: int64): Option<(bool, int64, Option<Body>)> {
    if run != 0 then Some((isNull, run, buf))
    else
      match Loaded(env, loc, data, buf)
      case None => None
      case Some(b) =>
        match NextRun(isNull, 0, b)
        case None => None
        case Some((f, n, rest)) => Some((f, n, Some(rest)))
  }

  /** The next value of a column and the builder after it; nothing at the end of the data or where it is corrupt. */
  function Build(env: Env, m: Meta, c: Cursor, data: Body): Option<(Value, Cursor)>
    decreases m, 2, 0
  {
    match (m, c)
    case (NamedMeta(_, values), _) => Build(env, values, c, data)
    case (ErrorMeta(values), _) => Build(env, values, c, data)
    case (NullsMeta(loc, values, _), NullsCursor(vc, runs, isNull, run)) =>
      (match ReadRun(env, loc, data, runs, isNull, run)
       case None => None
       case Some((f, n, rest)) =>
         if f then Some((Null, NullsCursor(vc, rest, f, Wrap(n - 1))))
         else
           match Build(env, values, vc, data)
           case None => None
           case Some((v, after)) => Some((v, NullsCursor(after, rest, f, Wrap(n - 1)))))
    case (RecordMeta(_, _, fields), RecordCursor(cs)) =>
      (match BuildFields(env, fields, cs, data)
       case None => None
       case Some((vs, after)) => Some((Group(vs), RecordCursor(after))))
    case (ArrayMeta(_, loc, elems), ArrayCursor(ec, lengths)) => BuildArray(env, elems, loc, ec, lengths, data)
    case (SetMeta(_, loc, elems), ArrayCursor(ec, lengths)) => BuildArray(env, elems, loc, ec, lengths, data)
    case (MapMeta(_, loc, _, _), MapCursor(kc, vc, lengths)) =>
      (match ReadInt(env, loc, data, lengths)
       case None => None
       case Some((n, rest)) =>
         match BuildEntries(env, m, kc, vc, if n > 0 then n else 0, data)
         case None => None
         case Some((items, ks, vs)) => Some((Group(items), MapCursor(ks, vs, Some(rest)))))
    case (UnionMeta(_, loc, members), UnionCursor(cs, tags)) =>
      (match ReadInt(env, loc, data, tags)
       case None => None
       case Some((tag, rest)) =>
         if tag < 0 || tag >= |cs| || |cs| != |members| then None
         else
           match Build(env, members[tag], cs[tag], data)
           case None => None
           case Some((v, after)) => Some((Tagged(tag, v), UnionCursor(cs[tag := after], Some(rest)))))
    case (PrimitiveMeta(_, loc, _, _), PlainCursor(buf)) =>
      (match ReadItem(env, loc, data, buf)
       case None => None
       case Some((item, rest)) => Some((if item.None? then Null else Bytes(item.value), PlainCursor(Some(rest)))))
    case (PrimitiveMeta(_, loc, dict, _), DictCursor(buf, off)) =>
      (match ReadSelected(env, loc, dict, data, buf, off)
       case None => None
       case Some((b, selectors)) => Some((Bytes(b), DictCursor(Some(selectors), off + 1))))
    case (ConstMeta(_, value, _), ConstCursor(count)) =>
      if count == 0 then None else Some((Bytes(value), ConstCursor(count - 1)))
    case _ => None
  }

  function BuildArray(env: Env, elems: Meta, loc: Segment, c: Cursor, lengths: Option<Body>, data: Body): Option<(Value, Cursor)>
    decreases elems, 4, 0
  {
    match ReadInt(env, loc, data, lengths)
    case None => None
    case Some((n, rest)) =>
      match BuildMany(env, elems, c, if n > 0 then n else 0, data)
      case None => None
      case Some((vs, after)) => Some((Group(vs), ArrayCursor(after, Some(rest))))
  }

  function BuildMany(env: Env, m: Meta, c: Cursor, n: nat, data: Body): Option<(seq<Value>, Cursor)>
    decreases m, 3, n
  {
    if n == 0 then Some(([], c))
    else
      match Build(env, m, c, data)
      case None => None
      case Some((v, next)) =>
        match BuildMany(env, m, next, n - 1, data)
        case None => None
        case Some((vs, after)) => Some(([v] + vs, after))
  }

  function BuildEntries(env: Env, m: Meta, keys: Cursor, vals: Cursor, n: nat, data: Body): Option<(seq<Value>, Cursor, Cursor)>
    requires m.MapMeta?
    decreases m, 1, n
  {
    if n == 0 then Some(([], keys, vals))
    else
      match Build(env, m.keys, keys, data)
      case None => None
      case Some((k, kc)) =>
        match Build(env, m.vals, vals, data)
        case None => None
        case Some((v, vc)) =>
          match BuildEntries(env, m, kc, vc, n - 1, data)
          case None => None
          case Some((items, ks, vs)) => Some(([k, v] + items, ks, vs))
  }

  function BuildFields(env: Env, ms: seq<Meta>, cs: seq<Cursor>, data: Body): Option<(seq<Value>, seq<Cursor>)>
    decreases ms
  {
    if ms == [] || cs == [] then Some(([], []))
    else
      match Build(env, ms[0], cs[0], data)
      case None => None
      case Some((v, after)) =>
        match BuildFields(env, ms[1..], cs[1..], data)
        case None => None
        case Some((vs, afters)) => Some(([v] + vs, [after] + afters))
  }

  // ---------------------------------------------------------------------------
  // What a builder still has to deliver

  ghost predicate HasBodies(env: Env, m: Meta, c: Cursor, data: Body, bodies: seq<Body>) {
    || (m.ConstMeta? && c.ConstCursor? && c.count == |bodies| && forall i :: 0 <= i < |bodies| ==> bodies[i] == m.value)
    || (m.PrimitiveMeta? && c.PlainCursor? && HasItems(env, m.loc, data, c.buf, bodies))
    || (m.PrimitiveMeta? && c.DictCursor? && HasSelected(env, m.loc, m.dict, data, c.selectors, c.off, bodies))
  }

  ghost predicate HasFlags(env: Env, loc: Segment, data: Body, buf: Option<Body>, isNull: bool, run: int64, flags: seq<bool>) {
    && Loaded(env, loc, data, buf).Some?
    && exists runs :: Announces(isNull, run, Loaded(env, loc, data, buf).value, runs, flags)
  }

  predicate NoNulls(vs: seq<Value>) {
    forall i :: 0 <= i < |vs| ==> !vs[i].Null?
  }

  /** The builder for this metadata delivers exactly these values from here on. */
  ghost predicate Reads(env: Env, t: Type, m: Meta, c: Cursor, data: Body, vs: seq<Value>)
    decreases t, 1
  {
    match t
    case Named(name, inner) => m.NamedMeta? && Reads(env, inner, m.values, c, data, vs)
    case Error(inner) => m.ErrorMeta? && Reads(env, inner, m.values, c, data, vs)
    case _ =>
      if m.NullsMeta? then
        && c.NullsCursor?
        && HasFlags(env, m.runs, data, c.runs, c.isNull, c.run, NullFlags(vs))
        && ReadsFilled(env, t, m.values, c.values, data, Parts(Present, vs))
      else NoNulls(vs) && ReadsFilled(env, t, m, c, data, vs)
  }

  ghost predicate ReadsFilled(env: Env, t: Type, m: Meta, c: Cursor, data: Body, vs: seq<Value>)
    requires !t.Named? && !t.Error?
    decreases t, 0
  {
    match t
    case Record(fields) =>
      && m.RecordMeta? && c.RecordCursor?
      && |m.fields| == |c.fields| == |fields|
      && ReadsFields(env, fields, m.fields, c.fields, data, vs)
    case Array(elem) =>
      && m.ArrayMeta? && c.ArrayCursor?
      && HasInts(env, m.lengths, data, c.lengths, Lengths(vs, 1))
      && Reads(env, elem, m.elems, c.elems, data, Parts(All, vs))
    case Set(elem) =>
      && m.SetMeta? && c.ArrayCursor?
      && HasInts(env, m.lengths, data, c.lengths, Lengths(vs, 1))
      && Reads(env, elem, m.elems, c.elems, data, Parts(All, vs))
    case Map(key, val) =>
      && m.MapMeta? && c.MapCursor?
      && HasInts(env, m.lengths, data, c.lengths, Lengths(vs, 2))
      && Reads(env, key, m.keys, c.keys, data, Parts(Keys, vs))
      && Reads(env, val, m.vals, c.vals, data, Parts(Vals, vs))
    case Union(types) =>
      && m.UnionMeta? && c.UnionCursor?
      && |m.members| == |c.members| == |types|
      && HasInts(env, m.tags, data, c.tags, Tags(vs))
      && ReadsMembers(env, types, m.members, c.members, data, vs)
    case Primitive(_) => HasBodies(env, m, c, data, Bodies(vs))
    case Enum(_) => HasBodies(env, m, c, data, Bodies(vs))
  }

  ghost predicate ReadsFields(env: Env, fields: seq<Field>, ms: seq<Meta>, cs: seq<Cursor>, data: Body, vs: seq<Value>)
    requires |ms| == |cs| == |fields|
    decreases fields, 2
  {
    forall i :: 0 <= i < |fields| ==> Reads(env, fields[i].typ, ms[i], cs[i], data, Parts(At(i), vs))
  }

  ghost predicate ReadsMembers(env: Env, types: seq<Type>, ms: seq<Meta>, cs: seq<Cursor>, data: Body, vs: seq<Value>)
    requires |ms| == |cs| == |types|
    decreases types, 2
  {
    forall i :: 0 <= i < |types| ==> Reads(env, types[i], ms[i], cs[i], data, Parts(Member(i), vs))
  }

  // ---------------------------------------------------------------------------
  // One value from the leaves

  lemma {:induction false} ReadRunStep(env: Env, loc: Segment, data: Body, buf: Option<Body>, isNull: bool, run: int64, flags: seq<bool>)
    requires HasFlags(env, loc, data, buf, isNull, run, flags) && flags != []
    ensures var r := ReadRun(env, loc, data, buf, isNull, run);
            && r.Some?
            && r.value.0 == flags[0]
            && r.value.1 > 0
            && HasFlags(env, loc, data, r.value.2, r.value.0, r.value.1 - 1, flags[1..])
  {
    var b := Loaded(env, loc, data, buf).value;
    var runs :| Announces(isNull, run, b, runs, flags);
    var r := ReadRun(env, loc, data, buf, isNull, run);
    var more := runs;
    if run != 0 {
      OpenRun(isNull, run, b, runs, flags);
    } else {
      more := NextRunReads(isNull, run, b, runs, flags);
    }
    assert Announces(r.value.0, r.value.1 - 1, Loaded(env, loc, data, r.value.2).value, more, flags[1..]);
  }

  lemma {:induction false} BuildBody(env: Env, m: Meta, c: Cursor, data: Body, bodies: seq<Body>)
    requires HasBodies(env, m, c, data, bodies) && bodies != [] && Fits(Some(bodies[0]))
    ensures var r := Build(env, m, c, data);
            r.Some? && r.value.0 == Bytes(bodies[0]) && HasBodies(env, m, r.value.1, data, bodies[1..])
  {
    if c.PlainCursor? {
      ReadItemStep(env, m.loc, data, c.buf, bodies);
    } else if c.DictCursor? {
      ReadSelectedStep(env, m.loc, m.dict, data, c.selectors, c.off, bodies);
    }
  }
}
