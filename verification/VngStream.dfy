/** Whole VNG objects: values of any mix of types, sorted into one encoder per type by a column of tags. */
module VngStreams {
  import opened Wrappers
  import opened Uvarint
  import opened Counted
  import opened Zcode
  import opened Types
  import opened VngColumns
  import opened VngPrimitives
  import opened VngEncoders
  import opened VngReaders
  import opened VngReading
  import opened VngLayout
  import opened VngShape
  import opened VngTiling
  import opened VngTags

  datatype Entry = Entry(typ: Type, value: Value)

  predicate WellTyped(e: Entry) {
    HasType(e.typ, e.value)
  }

  predicate AllWellTyped(s: seq<Entry>) {
    s != [] ==> WellTyped(s[0]) && AllWellTyped(s[1..])
  }

  lemma {:induction false} WellTypedAt(s: seq<Entry>, i: nat)
    requires AllWellTyped(s) && i < |s|
    ensures WellTyped(s[i])
    decreases |s|
  {
    if i > 0 {
      WellTypedAt(s[1..], i - 1);
    }
  }

  /** An entry with the union tags that the lookup tables give. */
  function CanonEntry(e: Entry): Entry {
    Entry(e.typ, Canon(e.typ, e.value))
  }

  function CanonStream(s: seq<Entry>): (r: seq<Entry>)
    ensures |r| == |s|
  {
    seq(|s|, i requires 0 <= i < |s| => CanonEntry(s[i]))
  }

  /** The types of a stream in the order in which they first appear. */
  function Seen(s: seq<Entry>): (ts: seq<Type>)
    ensures |ts| <= |s|
  {
    if s == [] then []
    else
      var n := |s| - 1;
      var ts := Seen(s[..n]);
      if s[n].typ in ts then ts else ts + [s[n].typ]
  }

  /** The values of one type, in order. */
  function Of(t: Type, s: seq<Entry>): seq<Value> {
    if s == [] then [] else (if s[0].typ == t then [s[0].value] else []) + Of(t, s[1..])
  }

  function TagList(ts: seq<Type>, s: seq<Entry>): (r: seq<int64>)
    ensures |r| == |s|
  {
    seq(|s|, i requires 0 <= i < |s| => Wrap(TagOf(ts, s[i].typ)))
  }

  lemma {:induction false} OfSnoc(t: Type, s: seq<Entry>, e: Entry)
    ensures Of(t, s + [e]) == Of(t, s) + if e.typ == t then [e.value] else []
    decreases |s|
  {
    var more := s + [e];
    if s == [] {
      assert more == [e] && more[1..] == [];
    } else {
      assert more[0] == s[0] && more[1..] == s[1..] + [e];
      OfSnoc(t, s[1..], e);
      OfStep(t, more);
      OfStep(t, s);
    }
  }

  lemma {:induction false} OfStep(t: Type, s: seq<Entry>)
    requires s != []
    ensures Of(t, s) == if s[0].typ == t then [s[0].value] + Of(t, s[1..]) else Of(t, s[1..])
  {
  }

  lemma {:induction false} SeenIsDistinct(s: seq<Entry>)
    ensures DistinctTypes(Seen(s))
    ensures forall i :: 0 <= i < |s| ==> s[i].typ in Seen(s)
    decreases |s|
  {
    if s != [] {
      var n := |s| - 1;
      SeenIsDistinct(s[..n]);
      if s[n].typ !in Seen(s[..n]) {
        DistinctGrows(Seen(s[..n]), s[n].typ);
      }
      forall i | 0 <= i < |s| ensures s[i].typ in Seen(s) {
        assert i < n ==> s[..n][i] == s[i];
      }
    }
  }

  lemma {:induction false} SeenSnoc(s: seq<Entry>, e: Entry)
    ensures Seen(s + [e]) == if e.typ in Seen(s) then Seen(s) else Seen(s) + [e.typ]
  {
    assert (s + [e])[..|s|] == s;
  }

  lemma {:induction false} OfUnseen(t: Type, s: seq<Entry>)
    requires forall i :: 0 <= i < |s| ==> s[i].typ != t
    ensures Of(t, s) == []
    decreases |s|
  {
    if s != [] {
      OfUnseen(t, s[1..]);
    }
  }

  lemma {:induction false} TagListGrows(ts: seq<Type>, t: Type, s: seq<Entry>)
    requires t !in ts && forall i :: 0 <= i < |s| ==> s[i].typ in ts
    ensures TagList(ts + [t], s) == TagList(ts, s)
  {
    forall i | 0 <= i < |s| ensures TagOf(ts + [t], s[i].typ) == TagOf(ts, s[i].typ) {
      assert (ts + [t])[..|ts|] == ts;
    }
  }

  // ---------------------------------------------------------------------------
  // The encoder

  function WrittenStream(ts: seq<Type>, s: seq<Entry>): (r: seq<Encoder>)
    ensures |r| == |ts|
  {
    seq(|ts|, i requires 0 <= i < |ts| => Written(ts[i], Of(ts[i], s)))
  }

  /** The map from types to positions. */
  function Positions(ts: seq<Type>): map<Type, nat> {
    map t | t in ts :: TagOf(ts, t)
  }

  lemma {:induction false} ColumnSnoc(t: Type, s: seq<Entry>, c: Entry)
    ensures Of(t, s + [c]) == if c.typ == t then Of(t, s) + [c.value] else Of(t, s)
  {
    OfSnoc(t, s, c);
    assert Of(t, s) + [] == Of(t, s);
  }

  /** An entry changes the encoder of its own type alone. */
  lemma {:induction false} OneColumn(ts: seq<Type>, s: seq<Entry>, c: Entry, tag: nat, w: Encoder)
    requires DistinctTypes(ts) && tag < |ts| && ts[tag] == c.typ
    requires w == Written(c.typ, Of(c.typ, s) + [c.value])
    ensures WrittenStream(ts, s)[tag := w] == WrittenStream(ts, s + [c])
  {
    forall i | 0 <= i < |ts| ensures WrittenStream(ts, s)[tag := w][i] == WrittenStream(ts, s + [c])[i] {
      ColumnSnoc(ts[i], s, c);
      assert i < tag ==> ts[i] != ts[tag];
      assert tag < i ==> ts[tag] != ts[i];
    }
  }

  lemma {:induction false} TagListSnoc(ts: seq<Type>, s: seq<Entry>, c: Entry, tag: nat)
    requires DistinctTypes(ts) && tag < |ts| && ts[tag] == c.typ
    ensures TagList(ts, s + [c]) == TagList(ts, s) + [Wrap(tag)]
  {
    TagOfDistinct(ts);
  }

  lemma {:induction false} KnownType(s: seq<Entry>, e: Entry, tag: nat)
    requires WellTyped(e) && tag < |Seen(s)| && Seen(s)[tag] == e.typ
    ensures Seen(s + [CanonEntry(e)]) == Seen(s)
    ensures var values := WrittenStream(Seen(s), s);
            values[tag := Write(values[tag], e.value)] == WrittenStream(Seen(s), s + [CanonEntry(e)])
    ensures TagList(Seen(s), s + [CanonEntry(e)]) == TagList(Seen(s), s) + [Wrap(tag)]
  {
    SeenSnoc(s, CanonEntry(e));
    SeenIsDistinct(s);
    WriteKeeps(e.typ, Of(e.typ, s), e.value);
    OneColumn(Seen(s), s, CanonEntry(e), tag, Write(WrittenStream(Seen(s), s)[tag], e.value));
    TagListSnoc(Seen(s), s, CanonEntry(e), tag);
  }

  /** Nothing was written to the encoder of a type that was not seen before. */
  lemma {:induction false} NewColumnEmpty(s: seq<Entry>, t: Type)
    requires t !in Seen(s)
    ensures Of(t, s) == []
  {
    SeenIsDistinct(s);
    OfUnseen(t, s);
  }

  lemma {:induction false} EncodersGrow(ts: seq<Type>, s: seq<Entry>, t: Type, e: Encoder)
    requires e == Written(t, Of(t, s))
    ensures WrittenStream(ts, s) + [e] == WrittenStream(ts + [t], s)
  {
    var before, after := WrittenStream(ts, s) + [e], WrittenStream(ts + [t], s);
    forall i | 0 <= i < |ts| + 1 ensures before[i] == after[i] {
      assert (ts + [t])[i] == if i < |ts| then ts[i] else t;
    }
  }

  lemma {:induction false} NewType(s: seq<Entry>, t: Type)
    requires t !in Seen(s)
    ensures WrittenStream(Seen(s), s) + [NewEncoder(t)] == WrittenStream(Seen(s) + [t], s)
  {
    NewColumnEmpty(s, t);
    NewIsWritten(t);
    EncodersGrow(Seen(s), s, t, NewEncoder(t));
  }

  lemma {:induction false} NewTags(s: seq<Entry>, t: Type)
    requires t !in Seen(s)
    ensures TagList(Seen(s) + [t], s) == TagList(Seen(s), s)
    ensures DistinctTypes(Seen(s) + [t])
  {
    SeenIsDistinct(s);
    DistinctGrows(Seen(s), t);
    TagListGrows(Seen(s), t, s);
  }

  lemma {:induction false} TagOfGrown(ts: seq<Type>, t: Type, u: Type)
    ensures TagOf(ts + [t], u) == if u == t then |ts| else TagOf(ts, u)
  {
    var grown := ts + [t];
    assert grown[..|ts|] == ts && grown[|ts|] == t;
  }

  lemma {:induction false} PositionsGrow(ts: seq<Type>, t: Type)
    requires t !in ts
    ensures t !in Positions(ts) && Positions(ts)[t := |ts|] == Positions(ts + [t])
  {
    var before, after := Positions(ts), Positions(ts + [t]);
    forall u ensures u in after <==> u in before || u == t {
    }
    assert after.Keys == before.Keys + {t};
    forall u | u in after ensures after[u] == before[t := |ts|][u] {
      TagOfGrown(ts, t, u);
    }
  }

  lemma {:induction false} KnownPosition(ts: seq<Type>, t: Type)
    ensures t in Positions(ts) <==> t in ts
    ensures t in Positions(ts) ==> Positions(ts)[t] < |ts| && ts[Positions(ts)[t]] == t
  {
  }

  lemma {:induction false} FirstOfType(s: seq<Entry>, e: Entry)
    requires WellTyped(e) && e.typ !in Seen(s)
    ensures Seen(s + [CanonEntry(e)]) == Seen(s) + [e.typ]
    ensures var ts := Seen(s) + [e.typ];
            var values := WrittenStream(Seen(s), s) + [NewEncoder(e.typ)];
            && values[|Seen(s)| := Write(values[|Seen(s)|], e.value)] == WrittenStream(ts, s + [CanonEntry(e)])
            && TagList(ts, s + [CanonEntry(e)]) == TagList(Seen(s), s) + [Wrap(|Seen(s)|)]
  {
    var ts, tag := Seen(s) + [e.typ], |Seen(s)|;
    NewType(s, e.typ);
    NewTags(s, e.typ);
    SeenSnoc(s, CanonEntry(e));
    WriteKeeps(e.typ, Of(e.typ, s), e.value);
    OneColumn(ts, s, CanonEntry(e), tag, Write(WrittenStream(ts, s)[tag], e.value));
    TagListSnoc(ts, s, CanonEntry(e), tag);
  }

  lemma {:induction false} TagWritten(s: seq<Entry>, after: seq<Entry>, tag: nat)
    requires |after| == |s| + 1
    requires TagList(Seen(after), after) == TagList(Seen(s), s) + [Wrap(tag)]
    ensures WriteInt(IntColumn(TagList(Seen(s), s)), Wrap(tag)) == IntColumn(TagList(Seen(after), after))
    ensures Inc(Count(|s|)) == Count(|after|)
  {
    WriteIntColumn(TagList(Seen(s), s), Wrap(tag));
  }

  /** The fields of a dynamic encoder that these entries were written to. */
  ghost predicate Represents(tags: Column, values: seq<Encoder>, which: map<Type, nat>, len: nat, s: seq<Entry>) {
    && tags == IntColumn(TagList(Seen(s), s))
    && values == WrittenStream(Seen(s), s)
    && which == Positions(Seen(s))
    && len == Count(|s|)
  }

  lemma {:induction false} WriteKnown(tags: Column, values: seq<Encoder>, which: map<Type, nat>, len: nat, s: seq<Entry>, e: Entry, tag: nat)
    requires Represents(tags, values, which, len, s) && WellTyped(e) && e.typ in which && tag == which[e.typ]
    ensures tag < |values|
    ensures Represents(WriteInt(tags, Wrap(tag)), values[tag := Write(values[tag], e.value)], which,
                       Inc(len), s + [CanonEntry(e)])
  {
    KnownPosition(Seen(s), e.typ);
    KnownType(s, e, tag);
    TagWritten(s, s + [CanonEntry(e)], tag);
  }

  lemma {:induction false} WriteNew(tags: Column, values: seq<Encoder>, which: map<Type, nat>, len: nat, s: seq<Entry>, e: Entry)
    requires Represents(tags, values, which, len, s) && WellTyped(e) && e.typ !in which
    ensures var tag, grown := |values|, values + [NewEncoder(e.typ)];
            Represents(WriteInt(tags, Wrap(tag)), grown[tag := Write(grown[tag], e.value)], which[e.typ := tag],
                       Inc(len), s + [CanonEntry(e)])
  {
    KnownPosition(Seen(s), e.typ);
    FirstOfType(s, e);
    PositionsGrow(Seen(s), e.typ);
    TagWritten(s, s + [CanonEntry(e)], |values|);
  }

  lemma {:induction false} WriteStep(tags: Column, values: seq<Encoder>, which: map<Type, nat>, len: nat, s: seq<Entry>, e: Entry,
                                     tag: nat, encoders: seq<Encoder>, positions: map<Type, nat>)
    requires Represents(tags, values, which, len, s) && WellTyped(e)
    requires if e.typ in which then tag == which[e.typ] && encoders == values && positions == which
             else tag == |values| && encoders == values + [NewEncoder(e.typ)] && positions == which[e.typ := tag]
    ensures tag < |encoders|
    ensures Represents(WriteInt(tags, Wrap(tag)), encoders[tag := Write(encoders[tag], e.value)], positions,
                       Inc(len), s + [CanonEntry(e)])
  {
    if e.typ in which {
      WriteKnown(tags, values, which, len, s, e, tag);
    } else {
      WriteNew(tags, values, which, len, s, e);
    }
  }

  class DynamicEncoder {
    var tags: Column
    var values: seq<Encoder>
    var which: map<Type, nat>
    var len: nat
    ghost var written: seq<Entry>

    ghost predicate Valid()
      reads this
    {
      Represents(tags, values, which, len, written)
    }

    constructor ()
      ensures Valid() && written == []
    {
      tags, values, which, len, written := NewIntColumn(), [], map[], 0, [];
      EmptyIntColumn();
      assert TagList([], []) == [];
    }

    method Write(e: Entry)
      requires Valid() && WellTyped(e)
      modifies this
      ensures Valid() && written == old(written) + [CanonEntry(e)]
    {
      var tag, encoders, positions := 0, values, which;
      if e.typ in which {
        tag := which[e.typ];
      } else {
        tag := |values|;
        encoders := values + [NewEncoder(e.typ)];
        positions := which[e.typ := tag];
      }
      WriteStep(tags, values, which, len, written, e, tag, encoders, positions);
      tags, len, which := WriteInt(tags, Wrap(tag)), Inc(len), positions;
      values := encoders[tag := VngEncoders.Write(encoders[tag], e.value)];
      written := written + [CanonEntry(e)];
    }

    /** Finishes the columns and lays them out; the tags only if there is more than one type. */
    method Encode(env: Env) returns (m: Meta, size: nat)
      requires Valid()
      modifies this`tags, this`values
      ensures tags == FinishedTags(env, Seen(written), written)
      ensures values == FinishAll(env, WrittenStream(Seen(written), written))
      ensures (m, size) == ObjectMeta(env, tags, values, len)
      ensures size == |ObjectData(tags, values)| && Tiles(Segments(m), 0, size)
      ensures SegmentsHold(Segments(m), ObjectOutputs(tags, values), ObjectData(tags, values))
    {
      assert |values| == 0 ==> tags.out == [];
      if |values| > 1 {
        tags := EncodeColumn(env, tags);
      }
      values := FinishAll(env, values);
      ObjectTiles(env, tags, values, len);
      if |values| == 1 {
        var (off, meta) := Metadata(env, values[0], 0);
        return meta, off;
      }
      var (off, metas) := MetadataAll(env, values, |tags.out|);
      return DynamicMeta(Location(tags, 0), metas, len), off;
    }

    method Emit() returns (data: Body)
      ensures data == ObjectData(tags, values)
    {
      data := [];
      if |values| > 1 {
        data := tags.out;
      }
      data := data + EmitAll(values);
    }
  }

  function FinishedTags(env: Env, ts: seq<Type>, s: seq<Entry>): Column {
    var column := IntColumn(TagList(ts, s));
    if |ts| > 1 then EncodeColumn(env, column) else column
  }

  function ObjectMeta(env: Env, tags: Column, values: seq<Encoder>, len: nat): (Meta, nat) {
    if |values| == 1 then
      var (off, m) := Metadata(env, values[0], 0); (m, off)
    else
      var (off, ms) := MetadataAll(env, values, |tags.out|); (DynamicMeta(Location(tags, 0), ms, len), off)
  }

  function ObjectData(tags: Column, values: seq<Encoder>): Body {
    (if |values| > 1 then tags.out else []) + EmitAll(values)
  }

  /** What the columns wrote, in the order of Emit: first the tags, unless there is one type. */
  function ObjectOutputs(tags: Column, values: seq<Encoder>): seq<Body> {
    (if |values| == 1 then [] else [tags.out]) + OutputsAll(values)
  }

  /** The segments of a whole object tile its data section. */
  lemma {:induction false} ObjectTiles(env: Env, tags: Column, values: seq<Encoder>, len: nat)
    requires |values| == 0 ==> tags.out == []
    ensures var (m, size) := ObjectMeta(env, tags, values, len);
            && size == |ObjectData(tags, values)|
            && Tiles(Segments(m), 0, size)
            && SegmentsHold(Segments(m), ObjectOutputs(tags, values), ObjectData(tags, values))
  {
    if |values| == 1 {
      OneTypeTiles(env, values[0]);
      assert values[1..] == [] && OutputsAll(values[1..]) == [] && EmitAll(values[1..]) == [];
      assert OutputsAll(values) == Outputs(values[0]) && ObjectOutputs(tags, values) == Outputs(values[0]);
      assert ObjectData(tags, values) == Emit(values[0]);
    } else {
      ManyTypesTile(env, tags, values);
      assert ObjectData(tags, values) == tags.out + EmitAll(values);
    }
  }

  lemma {:induction false} OneTypeTiles(env: Env, e: Encoder)
    ensures var (size, m) := Metadata(env, e, 0);
            size == |Emit(e)| && Tiles(Segments(m), 0, size) && SegmentsHold(Segments(m), Outputs(e), Emit(e))
  {
    SegmentsTile(env, e, [], []);
    assert [] + Emit(e) + [] == Emit(e);
  }

  lemma {:induction false} ManyTypesTile(env: Env, tags: Column, values: seq<Encoder>)
    ensures var (size, ms) := MetadataAll(env, values, |tags.out|);
            var data := tags.out + EmitAll(values);
            var segments := [Location(tags, 0)] + SegmentsAll(ms);
            size == |data| && Tiles(segments, 0, size) && SegmentsHold(segments, [tags.out] + OutputsAll(values), data)
  {
    var (size, ms) := MetadataAll(env, values, |tags.out|);
    var segments, outputs, data := [Location(tags, 0)] + SegmentsAll(ms), [tags.out] + OutputsAll(values), tags.out + EmitAll(values);
    AgreesOne(tags, 0);
    AllAgree(env, values, |tags.out|);
    AgreesAppend([Location(tags, 0)], [tags.out], SegmentsAll(ms), OutputsAll(values), tags.out, EmitAll(values), 0, |tags.out|, size);
    PlacedTiles(segments, outputs, 0);
    PlacedHolds(segments, outputs, [], []);
    assert [] + data + [] == data;
  }

  // ---------------------------------------------------------------------------
  // The reader

  datatype Outcome = End | Failed | Got(entry: Entry)

  ghost predicate AllCanonicalEntries(s: seq<Entry>) {
    s != [] ==> VngReading.Canonical(s[0].typ, s[0].value) && AllCanonicalEntries(s[1..])
  }

  ghost predicate ReadsColumns(env: Env, ts: seq<Type>, ms: seq<Meta>, cs: seq<Cursor>, data: Body, s: seq<Entry>) {
    && |ts| == |ms| == |cs|
    && forall i :: 0 <= i < |ts| ==> Reads(env, ts[i], ms[i], cs[i], data, Of(ts[i], s))
  }

  /** A dynamicBuilder with these entries ahead of it. */
  ghost predicate ReadsDynamic(env: Env, ts: seq<Type>, m: Meta, tags: Option<Body>, cs: seq<Cursor>, data: Body, s: seq<Entry>) {
    && m.DynamicMeta?
    && |ts| < INT64_LIMIT && DistinctTypes(ts)
    && (forall i :: 0 <= i < |s| ==> s[i].typ in ts)
    && HasInts(env, m.tags, data, tags, TagList(ts, s))
    && ReadsColumns(env, ts, m.members, cs, data, s)
  }

  /** A vectorBuilder with these entries ahead of it. */
  ghost predicate ReadsVector(env: Env, t: Type, m: Meta, cs: seq<Cursor>, count: nat, data: Body, s: seq<Entry>) {
    && !m.DynamicMeta?
    && |cs| == 1
    && count == |s|
    && (forall i :: 0 <= i < |s| ==> s[i].typ == t)
    && Reads(env, t, m, cs[0], data, Of(t, s))
  }

  /** One step of a dynamicBuilder: the tag, the value and the new places, or nothing on an error. */
  function ReadTagged(env: Env, m: Meta, tags: Option<Body>, cs: seq<Cursor>, data: Body): Option<(int64, Body, Value, Cursor)>
    requires m.DynamicMeta? && |m.members| == |cs|
  {
    match ReadInt(env, m.tags, data, tags)
    case None => None
    case Some((tag, rest)) =>
      if tag < 0 || tag >= |cs| then None
      else
        match Build(env, m.members[tag], cs[tag], data)
        case None => None
        case Some((v, c)) => Some((tag, rest, v, c))
  }

  lemma {:induction false} OtherColumns(env: Env, ts: seq<Type>, ms: seq<Meta>, cs: seq<Cursor>, data: Body, s: seq<Entry>, tag: nat, after: Cursor)
    requires ReadsColumns(env, ts, ms, cs, data, s) && DistinctTypes(ts)
    requires s != [] && tag < |ts| && ts[tag] == s[0].typ
    requires Reads(env, ts[tag], ms[tag], after, data, Of(ts[tag], s[1..]))
    ensures ReadsColumns(env, ts, ms, cs[tag := after], data, s[1..])
  {
    forall i | 0 <= i < |ts| ensures Reads(env, ts[i], ms[i], cs[tag := after][i], data, Of(ts[i], s[1..])) {
      OfStep(ts[i], s);
      assert i < tag ==> ts[i] != ts[tag];
      assert tag < i ==> ts[tag] != ts[i];
    }
  }

  lemma {:induction false} NextTag(env: Env, ts: seq<Type>, loc: Segment, tags: Option<Body>, data: Body, s: seq<Entry>)
    requires s != [] && |ts| < INT64_LIMIT && HasInts(env, loc, data, tags, TagList(ts, s))
    ensures var r := ReadInt(env, loc, data, tags);
            && r.Some? && r.value.0 == TagOf(ts, s[0].typ)
            && HasInts(env, loc, data, Some(r.value.1), TagList(ts, s[1..]))
  {
    ReadIntStep(env, loc, data, tags, TagList(ts, s));
    assert TagList(ts, s)[1..] == TagList(ts, s[1..]);
  }

  lemma {:induction false} NextOfColumn(env: Env, ts: seq<Type>, ms: seq<Meta>, cs: seq<Cursor>, data: Body, s: seq<Entry>, tag: nat)
    requires ReadsColumns(env, ts, ms, cs, data, s) && DistinctTypes(ts)
    requires s != [] && VngReading.Canonical(s[0].typ, s[0].value) && tag < |ts| && ts[tag] == s[0].typ
    ensures var r := Build(env, ms[tag], cs[tag], data);
            r.Some? && r.value.0 == s[0].value && ReadsColumns(env, ts, ms, cs[tag := r.value.1], data, s[1..])
  {
    OfStep(s[0].typ, s);
    BuildReads(env, ts[tag], ms[tag], cs[tag], data, s[0].value, Of(ts[tag], s[1..]));
    OtherColumns(env, ts, ms, cs, data, s, tag, Build(env, ms[tag], cs[tag], data).value.1);
  }

  lemma {:induction false} ReadTaggedStep(env: Env, ts: seq<Type>, m: Meta, tags: Option<Body>, cs: seq<Cursor>, data: Body, s: seq<Entry>)
    requires ReadsDynamic(env, ts, m, tags, cs, data, s) && s != [] && VngReading.Canonical(s[0].typ, s[0].value)
    ensures var r := ReadTagged(env, m, tags, cs, data);
            && r.Some?
            && 0 <= r.value.0 < |ts|
            && Entry(ts[r.value.0], r.value.2) == s[0]
            && ReadsDynamic(env, ts, m, Some(r.value.1), cs[r.value.0 := r.value.3], data, s[1..])
  {
    NextTag(env, ts, m.tags, tags, data, s);
    NextOfColumn(env, ts, m.members, cs, data, s, TagOf(ts, s[0].typ));
  }

  class ZedReader {
    const env: Env
    const meta: Meta
    const types: seq<Type>
    const data: Body
    var tags: Option<Body>
    var cursors: seq<Cursor>
    var count: nat
    ghost var pending: seq<Entry>

    ghost predicate Valid()
      reads this
    {
      && AllCanonicalEntries(pending)
      && if meta.DynamicMeta? then ReadsDynamic(env, types, meta, tags, cursors, data, pending)
         else |types| == 1 && ReadsVector(env, types[0], meta, cursors, count, data, pending)
    }

    constructor (env: Env, unions: seq<Type> -> Type, meta: Meta, data: Body, ghost pending: seq<Entry>)
      requires AllCanonicalEntries(pending)
      requires Opens(env, unions, meta, data, pending)
      ensures Valid() && this.pending == pending && this.meta == meta
    {
      this.env, this.meta, this.data, this.pending := env, meta, data, pending;
      tags := None;
      if meta.DynamicMeta? {
        types := MetaTypes(unions, meta.members);
        cursors := NewBuilders(meta.members);
        count := 0;
      } else {
        types := [MetaType(unions, meta)];
        cursors := [NewBuilder(meta)];
        count := MetaLen(meta);
      }
    }

    /** The next value, until there are none left. */
    method Read() returns (r: Outcome)
      requires Valid()
      modifies this
      ensures Valid()
      ensures old(pending) == [] ==> r == End && pending == []
      ensures old(pending) != [] ==> r == Got(old(pending)[0]) && pending == old(pending)[1..]
    {
      if meta.DynamicMeta? {
        if Loaded(env, meta.tags, data, tags) == Some([]) {
          return End;
        }
        ghost var s := pending;
        if s != [] {
          ReadTaggedStep(env, types, meta, tags, cursors, data, s);
        }
        match ReadTagged(env, meta, tags, cursors, data)
        case None => return Failed;
        case Some((tag, rest, v, c)) =>
          tags, cursors := Some(rest), cursors[tag := c];
          pending := pending[1..];
          return Got(Entry(types[tag], v));
      }
      if count == 0 {
        return End;
      }
      OfStep(types[0], pending);
      BuildReads(env, types[0], meta, cursors[0], data, pending[0].value, Of(types[0], pending[1..]));
      match Build(env, meta, cursors[0], data)
      case None => return Failed;
      case Some((v, c)) =>
        count, cursors := count - 1, [c];
        pending := pending[1..];
        return Got(Entry(types[0], v));
    }
  }

  /** What NewZedReader starts from, when these entries are in the object. */
  ghost predicate Opens(env: Env, unions: seq<Type> -> Type, m: Meta, data: Body, s: seq<Entry>) {
    if m.DynamicMeta? then
      ReadsDynamic(env, MetaTypes(unions, m.members), m, None, NewBuilders(m.members), data, s)
    else ReadsVector(env, MetaType(unions, m), m, [NewBuilder(m)], MetaLen(m), data, s)
  }

  // ---------------------------------------------------------------------------
  // The object holds the stream

  /** No column takes more values than a 32-bit counter holds. */
  ghost predicate StorableStream(s: seq<Entry>) {
    && |s| < UINT32_LIMIT
    && forall i :: 0 <= i < |Seen(s)| ==> Storable(Seen(s)[i], Of(Seen(s)[i], s))
  }

  ghost predicate RegularStream(unions: seq<Type> -> Type, s: seq<Entry>) {
    forall i :: 0 <= i < |Seen(s)| ==> Regular(unions, Seen(s)[i])
  }

  /** The object's metadata and data are consistent, count the entries and open on them. */
  ghost predicate Complete(env: Env, unions: seq<Type> -> Type, m: Meta, size: nat, data: Body, s: seq<Entry>) {
    size == |data| && MetaLen(m) == |s| && Opens(env, unions, m, data, s)
  }

  lemma {:induction false} SingleType(s: seq<Entry>)
    requires |Seen(s)| == 1
    ensures forall i :: 0 <= i < |s| ==> s[i].typ == Seen(s)[0]
    ensures |Of(Seen(s)[0], s)| == |s|
  {
    SeenIsDistinct(s);
    OfSingle(Seen(s)[0], s);
  }

  lemma {:induction false} OfSingle(t: Type, s: seq<Entry>)
    requires forall i :: 0 <= i < |s| ==> s[i].typ == t
    ensures |Of(t, s)| == |s|
    decreases |s|
  {
    if s != [] {
      OfSingle(t, s[1..]);
    }
  }

  lemma {:induction false} OneTypeOpens(env: Env, unions: seq<Type> -> Type, s: seq<Entry>, e: Encoder)
    requires env.Inverse() && env.Agree() && StorableStream(s) && RegularStream(unions, s)
    requires |Seen(s)| == 1 && e == Finish(env, Written(Seen(s)[0], Of(Seen(s)[0], s)))
    ensures var (off, m) := Metadata(env, e, 0);
            Complete(env, unions, m, off, Emit(e), s)
  {
    var t := Seen(s)[0];
    SingleType(s);
    WrittenLaid(env, t, Of(t, s), [], []);
    LengthOfWritten(env, t, Of(t, s), 0);
    TypeOfWritten(env, unions, t, Of(t, s), 0);
    assert [] + Emit(e) + [] == Emit(e);
    NotDynamic(env, e, 0);
  }

  lemma {:induction false} NotDynamic(env: Env, e: Encoder, off: nat)
    ensures !Metadata(env, e, off).1.DynamicMeta?
    decreases e
  {
    if e.NullsEncoder? {
      NotDynamic(env, e.values, off);
    }
  }

  /** The columns of every type lie behind the tags. */
  lemma {:induction false} ColumnsLaid(env: Env, unions: seq<Type> -> Type, s: seq<Entry>, before: Body)
    requires env.Inverse() && env.Agree() && StorableStream(s) && RegularStream(unions, s)
    ensures var es := FinishAll(env, WrittenStream(Seen(s), s));
            var (off, ms) := MetadataAll(env, es, |before|);
            && off == |before| + |EmitAll(es)|
            && ReadsColumns(env, Seen(s), ms, NewBuilders(ms), before + EmitAll(es), s)
            && MetaTypes(unions, ms) == Seen(s)
  {
    var ts := Seen(s);
    var es := FinishAll(env, WrittenStream(ts, s));
    var cols := seq(|ts|, i requires 0 <= i < |ts| => Of(ts[i], s));
    forall i | 0 <= i < |ts| ensures LaidAnywhere(env, ts[i], es[i], cols[i]) {
      LaidWherever(env, ts[i], Of(ts[i], s));
    }
    AllLaid(env, ts, es, cols, before, []);
    assert before + EmitAll(es) + [] == before + EmitAll(es);
    ColumnTypes(env, unions, s, es, |before|);
  }

  lemma {:induction false} ColumnTypes(env: Env, unions: seq<Type> -> Type, s: seq<Entry>, es: seq<Encoder>, off: nat)
    requires RegularStream(unions, s) && es == FinishAll(env, WrittenStream(Seen(s), s))
    ensures MetaTypes(unions, MetadataAll(env, es, off).1) == Seen(s)
  {
    var ts := Seen(s);
    MetadataTypes(env, unions, es, off);
    forall i | 0 <= i < |ts| ensures EncoderType(unions, es[i]) == ts[i] {
      FinishType(env, unions, Written(ts[i], Of(ts[i], s)));
      WrittenType(unions, ts[i], Of(ts[i], s));
    }
  }

  lemma {:induction false} ManyTypesOpen(env: Env, unions: seq<Type> -> Type, s: seq<Entry>, tags: Column)
    requires env.Inverse() && env.Agree() && StorableStream(s) && RegularStream(unions, s)
    requires tags.out == (if |Seen(s)| > 1 then FinishedTags(env, Seen(s), s).out else [])
    requires HasInts(env, Location(tags, 0), tags.out + EmitAll(FinishAll(env, WrittenStream(Seen(s), s))), None, TagList(Seen(s), s))
    ensures var es := FinishAll(env, WrittenStream(Seen(s), s));
            var (off, ms) := MetadataAll(env, es, |tags.out|);
            Complete(env, unions, DynamicMeta(Location(tags, 0), ms, |s|), off, tags.out + EmitAll(es), s)
  {
    SeenIsDistinct(s);
    ColumnsLaid(env, unions, s, tags.out);
  }

  lemma {:induction false} TagsFound(env: Env, s: seq<Entry>, after: Body)
    requires env.Inverse() && |Seen(s)| != 1
    ensures var tags := FinishedTags(env, Seen(s), s);
            && HasInts(env, Location(tags, 0), tags.out + after, None, TagList(Seen(s), s))
            && (|Seen(s)| == 0 ==> tags.out == [])
  {
    if |Seen(s)| > 1 {
      ManyTagsFound(env, TagList(Seen(s), s), after);
    } else {
      SeenIsDistinct(s);
      NoTagsFound(env, after);
      assert TagList(Seen(s), s) == [];
    }
  }

  lemma {:induction false} ManyTagsFound(env: Env, xs: seq<int64>, after: Body)
    requires env.Inverse()
    ensures var c := EncodeColumn(env, IntColumn(xs));
            HasInts(env, Location(c, 0), c.out + after, None, xs)
  {
    IntsStored(env, xs, [], after);
    assert [] + EncodeColumn(env, IntColumn(xs)).out == EncodeColumn(env, IntColumn(xs)).out;
  }

  lemma {:induction false} NoTagsFound(env: Env, after: Body)
    ensures HasInts(env, Location(IntColumn([]), 0), IntColumn([]).out + after, None, [])
  {
  }

  /** Whatever the number of types, the object opens on the entries that were written. */
  lemma {:induction false} ObjectOpens(env: Env, unions: seq<Type> -> Type, s: seq<Entry>, tags: Column, values: seq<Encoder>)
    requires env.Inverse() && env.Agree() && StorableStream(s) && RegularStream(unions, s)
    requires tags == FinishedTags(env, Seen(s), s) && values == FinishAll(env, WrittenStream(Seen(s), s))
    ensures var (m, size) := ObjectMeta(env, tags, values, Count(|s|));
            Complete(env, unions, m, size, ObjectData(tags, values), s)
  {
    CountExact(|s|);
    if |values| == 1 {
      OneTypeOpens(env, unions, s, values[0]);
      assert values[1..] == [] && EmitAll(values[1..]) == [];
      assert [] + EmitAll(values) == Emit(values[0]);
    } else {
      TagsFound(env, s, EmitAll(values));
      ManyTypesOpen(env, unions, s, tags);
    }
  }

  // ---------------------------------------------------------------------------
  // Writing and reading back

  lemma {:induction false} CanonStreamCanonical(s: seq<Entry>)
    requires AllWellTyped(s)
    ensures AllCanonicalEntries(CanonStream(s))
    decreases |s|
  {
    if s != [] {
      CanonIsCanonical(s[0].typ, s[0].value);
      CanonStreamCanonical(s[1..]);
      assert CanonStream(s)[1..] == CanonStream(s[1..]);
    }
  }

  method WriteAll(encoder: DynamicEncoder, stream: seq<Entry>)
    requires AllWellTyped(stream) && encoder.Valid() && encoder.written == []
    modifies encoder
    ensures encoder.Valid() && encoder.written == CanonStream(stream)
  {
    for i := 0 to |stream|
      invariant encoder.Valid()
      invariant encoder.written == CanonStream(stream)[..i]
      invariant i == |stream| ==> encoder.written == CanonStream(stream)
    {
      WellTypedAt(stream, i);
      CanonPrefix(stream, i);
      encoder.Write(stream[i]);
    }
  }

  lemma {:induction false} CanonPrefix(s: seq<Entry>, i: nat)
    requires i < |s|
    ensures CanonStream(s)[..i + 1] == CanonStream(s)[..i] + [CanonEntry(s[i])]
    ensures i + 1 == |s| ==> CanonStream(s)[..i + 1] == CanonStream(s)
  {
  }

  /** Writes every value and closes the object. */
  method WriteObject(env: Env, stream: seq<Entry>) returns (meta: Meta, size: nat, data: Body)
    requires AllWellTyped(stream)
    ensures var s := CanonStream(stream);
            var tags, values := FinishedTags(env, Seen(s), s), FinishAll(env, WrittenStream(Seen(s), s));
            (meta, size) == ObjectMeta(env, tags, values, Count(|s|)) && data == ObjectData(tags, values)
  {
    var encoder := new DynamicEncoder();
    WriteAll(encoder, stream);
    meta, size := encoder.Encode(env);
    data := encoder.Emit();
  }

  /** Reads until there is nothing left. */
  method ReadAll(reader: ZedReader) returns (back: seq<Entry>)
    requires reader.Valid()
    modifies reader
    ensures back == old(reader.pending)
    decreases |reader.pending|
  {
    var r := reader.Read();
    if r.Got? {
      var others := ReadAll(reader);
      back := [r.entry] + others;
    } else {
      back := [];
    }
  }

  method ReadObject(env: Env, unions: seq<Type> -> Type, meta: Meta, data: Body, ghost s: seq<Entry>) returns (back: seq<Entry>)
    requires AllCanonicalEntries(s) && Opens(env, unions, meta, data, s)
    ensures back == s
  {
    var reader := new ZedReader(env, unions, meta, data, s);
    back := ReadAll(reader);
  }

  /** Every tag in the stream is the shortest one of the last member of its type. */
  ghost predicate LastTags(s: seq<Entry>) {
    forall i :: 0 <= i < |s| ==> AllTags(LastTag, s[i].typ, s[i].value)
  }

  /** No union has a member twice, and every tag is as the program writes it. */
  ghost predicate PlainStream(s: seq<Entry>) {
    forall i :: 0 <= i < |s| ==> UnionsDistinct(s[i].typ) && Minimal(s[i].typ, s[i].value)
  }

  lemma {:induction false} StreamComesBack(s: seq<Entry>)
    requires AllWellTyped(s)
    ensures CanonStream(s) == s <==> LastTags(s)
    ensures PlainStream(s) ==> LastTags(s)
  {
    forall i | 0 <= i < |s|
      ensures CanonStream(s)[i] == s[i] <==> AllTags(LastTag, s[i].typ, s[i].value)
      ensures UnionsDistinct(s[i].typ) && Minimal(s[i].typ, s[i].value) ==> AllTags(LastTag, s[i].typ, s[i].value)
    {
      WellTypedAt(s, i);
      CanonKeeps(s[i].typ, s[i].value);
      if UnionsDistinct(s[i].typ) && Minimal(s[i].typ, s[i].value) {
        DistinctUnionsKeep(s[i].typ, s[i].value);
      }
    }
  }

  /**
   Every list of values of any mix of types comes back in its order with its types, and the
   metadata counts them.  The values are the ones that were written, unless a union has a member
   twice: then exactly those come back changed that are tagged with an earlier one of its positions.
   */
  method RoundTrip(env: Env, unions: seq<Type> -> Type, stream: seq<Entry>) returns (back: seq<Entry>, meta: Meta)
    requires env.Inverse() && env.Agree()
    requires AllWellTyped(stream)
    requires StorableStream(CanonStream(stream)) && RegularStream(unions, CanonStream(stream))
    ensures MetaLen(meta) == |stream|
    ensures PlainStream(stream) ==> back == stream
    ensures back == stream <==> LastTags(stream)
    ensures back == CanonStream(stream)
  {
    ghost var s := CanonStream(stream);
    var size, data;
    meta, size, data := WriteObject(env, stream);
    ObjectOpens(env, unions, s, FinishedTags(env, Seen(s), s), FinishAll(env, WrittenStream(Seen(s), s)));
    CanonStreamCanonical(stream);
    StreamComesBack(stream);
    back := ReadObject(env, unions, meta, data, s);
  }
}
