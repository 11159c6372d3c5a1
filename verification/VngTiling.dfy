/**
 The data section: Metadata hands out one segment to each column, in the order in which
 Emit writes the columns, and the segments lie side by side.
 */
module VngTiling {
  import opened Uvarint
  import opened Types
  import opened VngColumns
  import opened VngPrimitives
  import opened VngEncoders
  import opened VngLayout

  /** The segments that a metadata tree names, in the order of Emit. */
  function Segments(m: Meta): seq<Segment> {
    match m
    case RecordMeta(_, _, fields) => SegmentsAll(fields)
    case ArrayMeta(_, lengths, elems) => [lengths] + Segments(elems)
    case SetMeta(_, lengths, elems) => [lengths] + Segments(elems)
    case MapMeta(_, lengths, keys, vals) => [lengths] + Segments(keys) + Segments(vals)
    case UnionMeta(_, tags, members) => [tags] + SegmentsAll(members)
    case NamedMeta(_, values) => Segments(values)
    case ErrorMeta(values) => Segments(values)
    case NullsMeta(runs, values, _) => Segments(values) + [runs]
    case PrimitiveMeta(_, loc, _, _) => [loc]
    case ConstMeta(_, _, _) => []
    case DynamicMeta(tags, members, _) => [tags] + SegmentsAll(members)
  }

  function SegmentsAll(ms: seq<Meta>): seq<Segment> {
    if ms == [] then [] else Segments(ms[0]) + SegmentsAll(ms[1..])
  }

  /** The output of every column that is written, in the order of Emit; a constant and runs of no nulls are not. */
  function Outputs(e: Encoder): seq<Body> {
    match e
    case NamedEncoder(values, _) => Outputs(values)
    case ErrorEncoder(values) => Outputs(values)
    case NullsEncoder(values, runs, _, _, count) => Outputs(values) + if count != 0 then [runs.out] else []
    case RecordEncoder(_, fields, _) => OutputsAll(fields)
    case ArrayEncoder(elems, lengths, _, _) => [lengths.out] + Outputs(elems)
    case MapEncoder(keys, vals, lengths, _) => [lengths.out] + Outputs(keys) + Outputs(vals)
    case UnionEncoder(_, members, tags, _) => [tags.out] + OutputsAll(members)
    case PrimitiveEncoder(column) => if IsConst(column) then [] else [column.out]
  }

  function OutputsAll(es: seq<Encoder>): seq<Body> {
    if es == [] then [] else Outputs(es[0]) + OutputsAll(es[1..])
  }

  // ---------------------------------------------------------------------------
  // Tiles

  /** The segments cover the bytes from `lo` to `hi` one after the other, without a gap or an overlap. */
  predicate Tiles(segments: seq<Segment>, lo: nat, hi: nat)
    decreases |segments|
  {
    if segments == [] then lo == hi
    else segments[0].offset == lo && Tiles(segments[1..], lo + segments[0].length, hi)
  }

  /** Each segment of the data is what its column wrote. */
  predicate SegmentsHold(segments: seq<Segment>, outputs: seq<Body>, data: Body) {
    && |segments| == |outputs|
    && forall i :: 0 <= i < |segments| ==>
         && segments[i].offset + segments[i].length <= |data|
         && data[segments[i].offset..segments[i].offset + segments[i].length] == outputs[i]
  }

  function Flat(outputs: seq<Body>): Body {
    if outputs == [] then [] else outputs[0] + Flat(outputs[1..])
  }

  /** The segments are those of the outputs, written one after the other from `off` on. */
  predicate Placed(segments: seq<Segment>, outputs: seq<Body>, off: nat)
    decreases |segments|
  {
    if segments == [] || outputs == [] then segments == [] && outputs == []
    else
      && segments[0].offset == off && segments[0].length == |outputs[0]|
      && Placed(segments[1..], outputs[1..], off + |outputs[0]|)
  }

  lemma {:induction false} FlatAppend(a: seq<Body>, b: seq<Body>)
    ensures Flat(a + b) == Flat(a) + Flat(b)
    decreases |a|
  {
    if a == [] {
      assert a + b == b;
    } else {
      assert (a + b)[1..] == a[1..] + b;
      FlatAppend(a[1..], b);
    }
  }

  lemma {:induction false} PlacedAppend(a: seq<Segment>, x: seq<Body>, b: seq<Segment>, y: seq<Body>, off: nat)
    requires Placed(a, x, off) && Placed(b, y, off + |Flat(x)|)
    ensures Placed(a + b, x + y, off)
    decreases |a|
  {
    if a == [] {
      assert a + b == b && x + y == y;
    } else {
      assert (a + b)[1..] == a[1..] + b && (x + y)[1..] == x[1..] + y;
      PlacedAppend(a[1..], x[1..], b, y, off + |x[0]|);
    }
  }

  lemma {:induction false} PlacedOne(s: Segment, out: Body, off: nat)
    requires s.offset == off && s.length == |out|
    ensures Placed([s], [out], off) && Flat([out]) == out
  {
    assert Flat([out][1..]) == [];
  }

  /** Segments that are placed tile the bytes of their outputs. */
  lemma {:induction false} PlacedTiles(segments: seq<Segment>, outputs: seq<Body>, off: nat)
    requires Placed(segments, outputs, off)
    ensures Tiles(segments, off, off + |Flat(outputs)|)
    decreases |segments|
  {
    if segments != [] {
      PlacedTiles(segments[1..], outputs[1..], off + |outputs[0]|);
    }
  }

  lemma {:induction false} PlacedHolds(segments: seq<Segment>, outputs: seq<Body>, before: Body, after: Body)
    requires Placed(segments, outputs, |before|)
    ensures SegmentsHold(segments, outputs, before + Flat(outputs) + after)
    decreases |segments|
  {
    if segments != [] {
      var out, more := outputs[0], Flat(outputs[1..]);
      var data := before + Flat(outputs) + after;
      PlacedHolds(segments[1..], outputs[1..], before + out, after);
      assert before + out + more + after == data;
      assert data[|before|..|before| + |out|] == out;
      forall i | 0 <= i < |segments|
        ensures segments[i].offset + segments[i].length <= |data|
        ensures data[segments[i].offset..segments[i].offset + segments[i].length] == outputs[i]
      {
        if i > 0 {
          assert segments[i] == segments[1..][i - 1] && outputs[i] == outputs[1..][i - 1];
        }
      }
    }
  }

  /** Tiles do not overlap. */
  lemma {:induction false} TilesApart(segments: seq<Segment>, lo: nat, hi: nat, i: nat, j: nat)
    requires Tiles(segments, lo, hi) && i < j < |segments|
    ensures lo <= segments[i].offset && segments[i].offset + segments[i].length <= segments[j].offset
    ensures segments[j].offset + segments[j].length <= hi
    decreases |segments|
  {
    TileInside(segments[1..], lo + segments[0].length, hi, j - 1);
    if i > 0 {
      TilesApart(segments[1..], lo + segments[0].length, hi, i - 1, j - 1);
    }
  }

  lemma {:induction false} TileInside(segments: seq<Segment>, lo: nat, hi: nat, i: nat)
    requires Tiles(segments, lo, hi) && i < |segments|
    ensures lo <= segments[i].offset && segments[i].offset + segments[i].length <= hi
    decreases |segments|
  {
    TilesForward(segments, lo, hi);
    if i > 0 {
      TileInside(segments[1..], lo + segments[0].length, hi, i - 1);
    } else {
      TilesForward(segments[1..], lo + segments[0].length, hi);
    }
  }

  lemma {:induction false} TilesForward(segments: seq<Segment>, lo: nat, hi: nat)
    requires Tiles(segments, lo, hi)
    ensures lo <= hi
    decreases |segments|
  {
    if segments != [] {
      TilesForward(segments[1..], lo + segments[0].length, hi);
    }
  }

  // ---------------------------------------------------------------------------
  // The two passes agree

  /** Metadata places the outputs of an encoder from `off` on, and Emit writes them. */
  ghost predicate Agrees(segments: seq<Segment>, outputs: seq<Body>, emitted: Body, off: nat, next: nat) {
    Placed(segments, outputs, off) && Flat(outputs) == emitted && next == off + |emitted|
  }

  lemma {:induction false} AgreesAppend(a: seq<Segment>, x: seq<Body>, b: seq<Segment>, y: seq<Body>, ea: Body, eb: Body,
                                        off: nat, mid: nat, next: nat)
    requires Agrees(a, x, ea, off, mid) && Agrees(b, y, eb, mid, next)
    ensures Agrees(a + b, x + y, ea + eb, off, next)
  {
    PlacedAppend(a, x, b, y, off);
    FlatAppend(x, y);
  }

  lemma {:induction false} AgreesOne(c: Column, off: nat)
    ensures Agrees([Location(c, off)], [c.out], c.out, off, off + |c.out|)
  {
    PlacedOne(Location(c, off), c.out, off);
  }

  lemma {:induction false} PassesAgree(env: Env, e: Encoder, off: nat)
    ensures var (next, m) := Metadata(env, e, off);
            Agrees(Segments(m), Outputs(e), Emit(e), off, next)
    decreases e
  {
    match e
    case NamedEncoder(values, _) => PassesAgree(env, values, off);
    case ErrorEncoder(values) => PassesAgree(env, values, off);
    case NullsEncoder(values, runs, run, isNull, count) => NullsAgree(env, e, off);
    case RecordEncoder(_, fields, _) => AllAgree(env, fields, off);
    case ArrayEncoder(_, _, _, _) => ArrayAgrees(env, e, off);
    case MapEncoder(_, _, _, _) => MapAgrees(env, e, off);
    case UnionEncoder(_, _, _, _) => UnionAgrees(env, e, off);
    case PrimitiveEncoder(column) => AgreesOne(column, off);
  }

  lemma {:induction false} NullsAgree(env: Env, e: Encoder, off: nat)
    requires e.NullsEncoder?
    ensures var (next, m) := Metadata(env, e, off);
            Agrees(Segments(m), Outputs(e), Emit(e), off, next)
    decreases e, 0
  {
    var (mid, m) := Metadata(env, e.values, off);
    PassesAgree(env, e.values, off);
    if e.count != 0 {
      AgreesOne(e.runs, mid);
      AgreesAppend(Segments(m), Outputs(e.values), [Location(e.runs, mid)], [e.runs.out], Emit(e.values), e.runs.out,
                   off, mid, mid + |e.runs.out|);
    } else {
      assert Outputs(e.values) + [] == Outputs(e.values) && Emit(e.values) + [] == Emit(e.values);
    }
  }

  lemma {:induction false} ArrayAgrees(env: Env, e: Encoder, off: nat)
    requires e.ArrayEncoder?
    ensures var (next, m) := Metadata(env, e, off);
            Agrees(Segments(m), Outputs(e), Emit(e), off, next)
    decreases e, 0
  {
    var mid := off + |e.lengths.out|;
    var (next, m) := Metadata(env, e.elems, mid);
    AgreesOne(e.lengths, off);
    PassesAgree(env, e.elems, mid);
    AgreesAppend([Location(e.lengths, off)], [e.lengths.out], Segments(m), Outputs(e.elems), e.lengths.out, Emit(e.elems), off, mid, next);
  }

  lemma {:induction false} UnionAgrees(env: Env, e: Encoder, off: nat)
    requires e.UnionEncoder?
    ensures var (next, m) := Metadata(env, e, off);
            Agrees(Segments(m), Outputs(e), Emit(e), off, next)
    decreases e, 0
  {
    var mid := off + |e.tags.out|;
    var (next, ms) := MetadataAll(env, e.members, mid);
    AgreesOne(e.tags, off);
    AllAgree(env, e.members, mid);
    AgreesAppend([Location(e.tags, off)], [e.tags.out], SegmentsAll(ms), OutputsAll(e.members), e.tags.out, EmitAll(e.members), off, mid, next);
  }

  lemma {:induction false} MapAgrees(env: Env, e: Encoder, off: nat)
    requires e.MapEncoder?
    ensures var (next, m) := Metadata(env, e, off);
            Agrees(Segments(m), Outputs(e), Emit(e), off, next)
    decreases e, 0
  {
    var start := off + |e.lengths.out|;
    var (mid, ks) := Metadata(env, e.keys, start);
    var (next, vs) := Metadata(env, e.vals, mid);
    AgreesOne(e.lengths, off);
    PassesAgree(env, e.keys, start);
    PassesAgree(env, e.vals, mid);
    AgreesAppend([Location(e.lengths, off)], [e.lengths.out], Segments(ks), Outputs(e.keys), e.lengths.out, Emit(e.keys), off, start, mid);
    AgreesAppend([Location(e.lengths, off)] + Segments(ks), [e.lengths.out] + Outputs(e.keys), Segments(vs), Outputs(e.vals),
                 e.lengths.out + Emit(e.keys), Emit(e.vals), off, mid, next);
  }

  lemma {:induction false} AllAgree(env: Env, es: seq<Encoder>, off: nat)
    ensures var (next, ms) := MetadataAll(env, es, off);
            Agrees(SegmentsAll(ms), OutputsAll(es), EmitAll(es), off, next)
    decreases es
  {
    if es != [] {
      var (mid, m) := Metadata(env, es[0], off);
      var (next, ms) := MetadataAll(env, es[1..], mid);
      PassesAgree(env, es[0], off);
      AllAgree(env, es[1..], mid);
      AgreesAppend(Segments(m), Outputs(es[0]), SegmentsAll(ms), OutputsAll(es[1..]), Emit(es[0]), EmitAll(es[1..]), off, mid, next);
      assert ([m] + ms)[1..] == ms;
    }
  }

  /**
   For every encoder the segments that Metadata hands out tile what Emit writes, with no gap or
   overlap, and each holds exactly what its column wrote.
   */
  lemma {:induction false} SegmentsTile(env: Env, e: Encoder, before: Body, after: Body)
    ensures var (next, m) := Metadata(env, e, |before|);
            && next == |before| + |Emit(e)|
            && Tiles(Segments(m), |before|, next)
            && SegmentsHold(Segments(m), Outputs(e), before + Emit(e) + after)
  {
    PassesAgree(env, e, |before|);
    var m := Metadata(env, e, |before|).1;
    PlacedTiles(Segments(m), Outputs(e), |before|);
    PlacedHolds(Segments(m), Outputs(e), before, after);
  }
}
