/** The primitive columns of a VNG object: plain, dictionary or constant, in segments of the data section. */
module VngPrimitives {
  import opened Wrappers
  import opened Uvarint
  import opened Counted
  import opened Zcode
  import opened Types
  import opened VngColumns

  const MAX_DICT_SIZE := 256
  const ID_UINT8 := 0
  const ID_INT8 := 6
  const ID_INT64 := 9
  const ID_BOOL := 23

  datatype Segment = Segment(offset: nat, length: nat, memLength: nat, format: nat)

  /**
   What the codec calls: a block compressor (which gives nothing when the result is
   not shorter) and its inverse, and the order that each of the two passes puts the
   entries of a dictionary in.
   */
  datatype Env = Env(lz4: Body -> Body,
                     unlz4: Body -> Option<Body>,
                     first: (Type, set<Body>) -> seq<Body>,
                     second: (Type, set<Body>) -> seq<Body>)
  {
    ghost predicate Inverse() {
      forall b :: lz4(b) != [] ==> unlz4(lz4(b)) == Some(b)
    }

    /** Both passes enumerate the entries, in the same order. */
    ghost predicate Agree() {
      forall t, s :: Lists(first(t, s), s) && first(t, s) == second(t, s)
    }
  }

  /** Every element of the set once, and nothing else. */
  ghost predicate Lists(entries: seq<Body>, s: set<Body>) {
    && |entries| == |s|
    && (forall i :: 0 <= i < |entries| ==> entries[i] in s)
    && (forall b :: b in s ==> b in entries)
    && forall i, j :: 0 <= i < j < |entries| ==> entries[i] != entries[j]
  }

  // ---------------------------------------------------------------------------
  // Segments

  function Compress(env: Env, b: Body): (nat, Body) {
    if b == [] then (0, [])
    else
      var z := env.lz4(b);
      if z != [] then (1, z) else (0, b)
  }

  function ReadAt(data: Body, offset: nat, length: nat): Option<Body> {
    if offset + length <= |data| then Some(data[offset..offset + length]) else None
  }

  function Load(env: Env, loc: Segment, data: Body): Option<Body> {
    if loc.format == 0 then ReadAt(data, loc.offset, loc.memLength)
    else if loc.format == 1 then
      match ReadAt(data, loc.offset, loc.length)
      case None => None
      case Some(z) =>
        match env.unlz4(z)
        case None => None
        case Some(b) => if |b| == loc.memLength then Some(b) else None
    else None
  }

  lemma {:induction false} LoadCompressed(env: Env, b: Body, before: Body, after: Body)
    requires env.Inverse()
    ensures var (format, out) := Compress(env, b);
            Load(env, Segment(|before|, |out|, |b|, format), before + out + after) == Some(b)
  {
    var (format, out) := Compress(env, b);
    var data := before + out + after;
    assert data[|before|..|before| + |out|] == out;
  }

  // ---------------------------------------------------------------------------
  // The metadata tree

  datatype Meta =
    | RecordMeta(length: nat, names: seq<Name>, fields: seq<Meta>)
    | ArrayMeta(length: nat, lengths: Segment, elems: Meta)
    | SetMeta(length: nat, lengths: Segment, elems: Meta)
    | MapMeta(length: nat, lengths: Segment, keys: Meta, vals: Meta)
    | UnionMeta(length: nat, tags: Segment, members: seq<Meta>)
    | NamedMeta(name: Name, values: Meta)
    | ErrorMeta(values: Meta)
    | NullsMeta(runs: Segment, values: Meta, count: nat)
    | PrimitiveMeta(typ: Type, loc: Segment, dict: seq<Body>, count: nat)
    | ConstMeta(typ: Type, value: Body, count: nat)
    | DynamicMeta(tags: Segment, members: seq<Meta>, length: nat)

  // ---------------------------------------------------------------------------
  // Writing

  /** A PrimitiveEncoder. */
  datatype Column = Column(typ: Type, bytes: Body, dict: Option<set<Body>>, count: nat,
                           out: Body, bytesLen: nat, format: nat)

  predicate UsesDict(t: Type) {
    !(t.Primitive? && (t.id == ID_UINT8 || t.id == ID_INT8 || t.id == ID_BOOL))
  }

  function NewColumn(t: Type, useDict: bool): Column {
    Column(t, [], if useDict && UsesDict(t) then Some({}) else None, 0, [], 0, 0)
  }

  function WriteColumn(c: Column, body: Body): Column {
    var dict := if c.dict.Some? && |c.dict.value + {body}| <= MAX_DICT_SIZE then Some(c.dict.value + {body}) else None;
    c.(bytes := c.bytes + EncodeItem(Some(body)), dict := dict, count := Inc(c.count))
  }

  /** Int64Encoder.Write. */
  function WriteInt(c: Column, x: int64): Column {
    WriteColumn(c, EncodeInt(x))
  }

  function Somes(bodies: seq<Body>): (r: seq<Item>)
    ensures |r| == |bodies|
  {
    seq(|bodies|, i requires 0 <= i < |bodies| => Some(bodies[i]))
  }

  function Elements(bodies: seq<Body>): set<Body> {
    set b | b in bodies
  }

  /** The column that these bodies were written to. */
  function ColumnOf(t: Type, useDict: bool, bodies: seq<Body>): Column {
    Column(t, EncodeItems(Somes(bodies)),
           if useDict && UsesDict(t) && |Elements(bodies)| <= MAX_DICT_SIZE then Some(Elements(bodies)) else None,
           Count(|bodies|), [], 0, 0)
  }

  lemma {:induction false} SubsetSize(a: set<Body>, b: set<Body>)
    requires a <= b
    ensures |a| <= |b|
  {
    assert b == a + (b - a);
  }

  lemma {:induction false} EncodeSomesSnoc(bodies: seq<Body>, b: Body)
    ensures EncodeItems(Somes(bodies + [b])) == EncodeItems(Somes(bodies)) + EncodeItem(Some(b))
  {
    var one: seq<Item> := [Some(b)];
    assert Somes(bodies + [b]) == Somes(bodies) + one;
    EncodeItemsAppend(Somes(bodies), one);
    assert one[1..] == [] && EncodeItems(one) == EncodeItem(Some(b)) + [];
  }

  lemma {:induction false} WriteColumnOf(t: Type, useDict: bool, bodies: seq<Body>, b: Body)
    ensures WriteColumn(ColumnOf(t, useDict, bodies), b) == ColumnOf(t, useDict, bodies + [b])
  {
    EncodeSomesSnoc(bodies, b);
    assert Elements(bodies + [b]) == Elements(bodies) + {b};
    SubsetSize(Elements(bodies), Elements(bodies + [b]));
  }

  // ---------------------------------------------------------------------------
  // Encode, Metadata and Emit

  /** The last position of a body in the dictionary, as a byte; zero if it has none. */
  function Position(entries: seq<Body>, b: Body): (r: nat)
    ensures b in entries ==> r < |entries| && entries[r] == b
  {
    if entries == [] then 0
    else
      var n := |entries| - 1;
      if entries[n] == b then n else Position(entries[..n], b)
  }

  /** makeDictVector: a selector for every item. */
  function Selectors(entries: seq<Body>, items: seq<Item>): (r: seq<byte>)
    ensures |r| == |items|
  {
    seq(|items|, i requires 0 <= i < |items| =>
      if items[i].None? then 0 else Position(entries, items[i].value) % 256)
  }

  function DictVector(entries: seq<Body>, bytes: Body): Body {
    match Items(bytes)
    case None => []
    case Some(items) => Selectors(entries, items)
  }

  function EncodeColumn(env: Env, c: Column): Column {
    var bytes := if c.dict.Some? then DictVector(env.first(c.typ, c.dict.value), c.bytes) else c.bytes;
    var (format, out) := Compress(env, bytes);
    c.(bytes := [], out := out, bytesLen := |bytes|, format := format)
  }

  predicate IsConst(c: Column) {
    c.dict.Some? && |c.dict.value| == 1
  }

  function TheOnly(s: set<Body>): (b: Body)
    requires |s| == 1
    ensures s == {b}
  {
    HasOnly(s);
    var b :| b in s && s == {b};
    b
  }

  lemma {:induction false} HasOnly(s: set<Body>)
    requires |s| == 1
    ensures exists b :: b in s && s == {b}
  {
    var b :| b in s;
    assert |s - {b}| == 0;
    assert s == {b};
  }

  function Location(c: Column, off: nat): Segment {
    Segment(off, |c.out|, c.bytesLen, c.format)
  }

  function MetadataColumn(env: Env, c: Column, off: nat): (nat, Meta) {
    if IsConst(c) then (off, ConstMeta(c.typ, TheOnly(c.dict.value), c.count))
    else
      var dict := if c.dict.Some? && |c.dict.value| != 0 then env.second(c.typ, c.dict.value) else [];
      (off + |c.out|, PrimitiveMeta(c.typ, Location(c, off), dict, c.count))
  }

  /** The column after Metadata, which clears the output of a constant. */
  function Cleared(c: Column): Column {
    if IsConst(c) then c.(out := []) else c
  }

  // ---------------------------------------------------------------------------
  // Reading.  A buffer is nothing until its segment is loaded by the first read.

  function Loaded(env: Env, loc: Segment, data: Body, buf: Option<Body>): Option<Body> {
    if buf.Some? then buf else Load(env, loc, data)
  }

  /** PrimitiveBuilder.ReadBytes. */
  function ReadItem(env: Env, loc: Segment, data: Body, buf: Option<Body>): Option<(Item, Body)> {
    match Loaded(env, loc, data, buf)
    case None => None
    case Some(b) => if b == [] then None else Front(b)
  }

  /** Int64Decoder.Next. */
  function ReadInt(env: Env, loc: Segment, data: Body, buf: Option<Body>): Option<(int64, Body)> {
    match Loaded(env, loc, data, buf)
    case None => None
    case Some(b) => NextInt(b)
  }

  /** DictBuilder.ReadBytes. */
  function ReadSelected(env: Env, loc: Segment, dict: seq<Body>, data: Body, buf: Option<Body>, off: nat): Option<(Body, Body)> {
    match Loaded(env, loc, data, buf)
    case None => None
    case Some(selectors) =>
      if off >= |selectors| || selectors[off] >= |dict| then None else Some((dict[selectors[off]], selectors))
  }

  // ---------------------------------------------------------------------------
  // What is left to read

  ghost predicate HasInts(env: Env, loc: Segment, data: Body, buf: Option<Body>, xs: seq<int64>) {
    Loaded(env, loc, data, buf).Some? && Holds(Loaded(env, loc, data, buf).value, xs)
  }

  ghost predicate HasItems(env: Env, loc: Segment, data: Body, buf: Option<Body>, bodies: seq<Body>) {
    Loaded(env, loc, data, buf) == Some(EncodeItems(Somes(bodies)))
  }

  ghost predicate HasSelected(env: Env, loc: Segment, dict: seq<Body>, data: Body, buf: Option<Body>, off: nat, bodies: seq<Body>) {
    var b := Loaded(env, loc, data, buf);
    && b.Some?
    && |b.value| == off + |bodies|
    && forall k :: off <= k < |b.value| ==> b.value[k] < |dict| && dict[b.value[k]] == bodies[k - off]
  }

  lemma {:induction false} ReadIntStep(env: Env, loc: Segment, data: Body, buf: Option<Body>, xs: seq<int64>)
    requires HasInts(env, loc, data, buf, xs)
    ensures xs == [] <==> ReadInt(env, loc, data, buf).None?
    ensures xs != [] ==>
      && ReadInt(env, loc, data, buf).value.0 == xs[0]
      && HasInts(env, loc, data, Some(ReadInt(env, loc, data, buf).value.1), xs[1..])
  {
  }

  lemma {:induction false} ReadItemStep(env: Env, loc: Segment, data: Body, buf: Option<Body>, bodies: seq<Body>)
    requires HasItems(env, loc, data, buf, bodies)
    requires bodies != [] && Fits(Some(bodies[0]))
    ensures var r := ReadItem(env, loc, data, buf);
            && r.Some?
            && r.value.0 == Some(bodies[0])
            && HasItems(env, loc, data, Some(r.value.1), bodies[1..])
  {
    assert Somes(bodies)[1..] == Somes(bodies[1..]);
    FrontOfItem(Some(bodies[0]), EncodeItems(Somes(bodies[1..])));
  }

  lemma {:induction false} ReadSelectedStep(env: Env, loc: Segment, dict: seq<Body>, data: Body, buf: Option<Body>, off: nat, bodies: seq<Body>)
    requires HasSelected(env, loc, dict, data, buf, off, bodies) && bodies != []
    ensures var r := ReadSelected(env, loc, dict, data, buf, off);
            && r.Some?
            && r.value.0 == bodies[0]
            && HasSelected(env, loc, dict, data, Some(r.value.1), off + 1, bodies[1..])
  {
  }

  // ---------------------------------------------------------------------------
  // Every column is found again where Emit put it

  ghost predicate Selects(entries: seq<Body>, s: Body, bodies: seq<Body>) {
    |s| == |bodies| && forall k :: 0 <= k < |s| ==> s[k] < |entries| && entries[s[k]] == bodies[k]
  }

  lemma {:induction false} SelectorsSelect(entries: seq<Body>, bodies: seq<Body>)
    requires forall b :: b in bodies ==> b in entries
    requires |entries| <= MAX_DICT_SIZE
    ensures Selects(entries, Selectors(entries, Somes(bodies)), bodies)
  {
    forall k | 0 <= k < |bodies|
      ensures Position(entries, bodies[k]) < |entries|
           && entries[Position(entries, bodies[k])] == bodies[k]
           && Position(entries, bodies[k]) % 256 == Position(entries, bodies[k])
    {
      assert bodies[k] in entries;
    }
  }

  lemma {:induction false} DictVectorOf(entries: seq<Body>, bodies: seq<Body>)
    requires forall b :: b in bodies ==> Fits(Some(b))
    ensures DictVector(entries, EncodeItems(Somes(bodies))) == Selectors(entries, Somes(bodies))
  {
    forall i | i in Somes(bodies) ensures Fits(i) {
      var k :| 0 <= k < |bodies| && Somes(bodies)[k] == i;
      assert bodies[k] in bodies;
    }
    ItemsOfEncoding(Somes(bodies));
  }

  /** What a builder has ahead of it when nothing has been read of a column that holds these bodies. */
  ghost predicate Stored(env: Env, m: Meta, data: Body, bodies: seq<Body>) {
    || (m.ConstMeta? && m.count == |bodies| && forall i :: 0 <= i < |bodies| ==> bodies[i] == m.value)
    || (m.PrimitiveMeta? && m.dict == [] && HasItems(env, m.loc, data, None, bodies))
    || (m.PrimitiveMeta? && m.dict != [] && HasSelected(env, m.loc, m.dict, data, None, 0, bodies))
  }

  ghost predicate Writable(bodies: seq<Body>) {
    |bodies| < UINT32_LIMIT && forall b :: b in bodies ==> Fits(Some(b))
  }

  /**
   Metadata advances by exactly the bytes Emit writes for this column (none for a
   constant) and describes the bodies that were written.
   */
  ghost predicate Tiled(env: Env, w: Column, bodies: seq<Body>, before: Body, after: Body) {
    var c := EncodeColumn(env, w);
    var (off, m) := MetadataColumn(env, c, |before|);
    var out := Cleared(c).out;
    && off == |before| + |out|
    && (m.ConstMeta? || m.PrimitiveMeta?) && m.typ == w.typ && m.count == |bodies|
    && Stored(env, m, before + out + after, bodies)
    && (m.ConstMeta? ==> out == [])
  }

  lemma {:induction false} ConstStored(env: Env, w: Column, bodies: seq<Body>, before: Body, after: Body)
    requires w.dict.Some? && w.dict.value == Elements(bodies) && |w.dict.value| == 1 && w.count == |bodies|
    ensures Tiled(env, w, bodies, before, after)
  {
    var only := TheOnly(w.dict.value);
    assert forall i :: 0 <= i < |bodies| ==> bodies[i] in Elements(bodies);
  }

  lemma {:induction false} DictStored(env: Env, w: Column, bodies: seq<Body>, before: Body, after: Body)
    requires env.Inverse() && env.Agree() && Writable(bodies)
    requires w.dict == Some(Elements(bodies)) && 2 <= |Elements(bodies)| <= MAX_DICT_SIZE
    requires w.bytes == EncodeItems(Somes(bodies)) && w.count == |bodies|
    ensures Tiled(env, w, bodies, before, after)
  {
    var entries := env.first(w.typ, Elements(bodies));
    EntriesCover(env, w.typ, bodies);
    DictVectorOf(entries, bodies);
    SelectorsSelect(entries, bodies);
    SelectedStored(env, w, entries, Selectors(entries, Somes(bodies)), bodies, before, after);
  }

  lemma {:induction false} EntriesCover(env: Env, t: Type, bodies: seq<Body>)
    requires env.Agree()
    ensures var entries := env.first(t, Elements(bodies));
            && entries == env.second(t, Elements(bodies))
            && |entries| == |Elements(bodies)|
            && forall b :: b in bodies ==> b in entries
  {
    assert Lists(env.first(t, Elements(bodies)), Elements(bodies));
    forall b | b in bodies ensures b in Elements(bodies) {
    }
  }

  /** A column whose bytes became these selectors. */
  lemma {:induction false} SelectedStored(env: Env, w: Column, entries: seq<Body>, s: Body, bodies: seq<Body>, before: Body, after: Body)
    requires env.Inverse()
    requires w.dict.Some? && |w.dict.value| > 1 && w.count == |bodies|
    requires entries == env.first(w.typ, w.dict.value) == env.second(w.typ, w.dict.value) && entries != []
    requires s == DictVector(entries, w.bytes)
    requires Selects(entries, s, bodies)
    ensures Tiled(env, w, bodies, before, after)
  {
    LoadCompressed(env, s, before, after);
  }

  lemma {:induction false} NoElements(bodies: seq<Body>)
    ensures Elements(bodies) == {} ==> bodies == []
  {
    if bodies != [] {
      assert bodies[0] in Elements(bodies);
    }
  }

  lemma {:induction false} EmptyStored(env: Env, t: Type, before: Body, after: Body)
    requires env.Inverse() && UsesDict(t)
    ensures Tiled(env, ColumnOf(t, true, []), [], before, after)
  {
    assert Elements([]) == {} && Somes([]) == [];
    LoadCompressed(env, [], before, after);
  }

  lemma {:induction false} PlainStored(env: Env, w: Column, bodies: seq<Body>, before: Body, after: Body)
    requires env.Inverse()
    requires w.dict.None? && w.bytes == EncodeItems(Somes(bodies)) && w.count == |bodies|
    ensures Tiled(env, w, bodies, before, after)
  {
    LoadCompressed(env, w.bytes, before, after);
  }

  /** Whatever was chosen for a column: constant, dictionary or plain. */
  lemma {:induction false} ColumnStored(env: Env, t: Type, bodies: seq<Body>, before: Body, after: Body)
    requires env.Inverse() && env.Agree() && Writable(bodies)
    ensures Tiled(env, ColumnOf(t, true, bodies), bodies, before, after)
  {
    var w := ColumnOf(t, true, bodies);
    CountExact(|bodies|);
    if w.dict.None? {
      PlainStored(env, w, bodies, before, after);
    } else if |w.dict.value| == 0 {
      NoElements(bodies);
      EmptyStored(env, t, before, after);
    } else if |w.dict.value| == 1 {
      ConstStored(env, w, bodies, before, after);
    } else {
      DictStored(env, w, bodies, before, after);
    }
  }

  /** An Int64Encoder that these integers were written to: a column without a dictionary. */
  function IntColumn(xs: seq<int64>): Column {
    Column(Primitive(ID_INT64), Ints(xs), None, Count(|xs|), [], 0, 0)
  }

  lemma {:induction false} WriteIntColumn(xs: seq<int64>, x: int64)
    ensures WriteInt(IntColumn(xs), x) == IntColumn(xs + [x])
  {
    IntsSnoc(xs, x);
  }

  lemma {:induction false} IntsStored(env: Env, xs: seq<int64>, before: Body, after: Body)
    requires env.Inverse()
    ensures var c := EncodeColumn(env, IntColumn(xs));
            HasInts(env, Location(c, |before|), before + c.out + after, None, xs)
  {
    IntsHold(xs);
    LoadCompressed(env, Ints(xs), before, after);
  }
}
