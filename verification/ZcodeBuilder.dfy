/** The builder: containers are opened with a one-byte tag and widened in place when they are closed. */
module ZcodeBuilder {
  import opened Wrappers
  import opened Uvarint
  import opened Zcode

  /**
   The buffer with containers still open.  `frames` are the bytes written at each
   level so far, outermost first; a placeholder byte stands before every open one.
   */
  function Layout(frames: seq<seq<byte>>): seq<byte>
    requires frames != []
    decreases |frames|
  {
    var n := |frames| - 1;
    if n == 0 then frames[0] else Layout(frames[..n]) + [0] + frames[n]
  }

  /** Where the body of each open container starts. */
  function Offsets(frames: seq<seq<byte>>): (r: seq<nat>)
    requires frames != []
    ensures |r| == |frames| - 1
    decreases |frames|
  {
    var n := |frames| - 1;
    if n == 0 then [] else Offsets(frames[..n]) + [|Layout(frames[..n])| + 1]
  }

  datatype Op = Begin | Append(item: Item) | End

  /** What a call does to the open levels, or nothing where it panics. */
  function Apply(frames: seq<seq<byte>>, op: Op): (r: Option<seq<seq<byte>>>)
    requires frames != []
    ensures r.Some? ==> r.value != []
  {
    var n := |frames| - 1;
    match op
    case Begin => Some(frames + [[]])
    case Append(item) => Some(frames[n := frames[n] + EncodeItem(item)])
    case End =>
      if n == 0 then None
      else Some(frames[..n][n - 1 := frames[n - 1] + EncodeItem(Some(frames[n]))])
  }

  function ApplyAll(frames: seq<seq<byte>>, ops: seq<Op>): Option<seq<seq<byte>>>
    requires frames != []
    decreases |ops|
  {
    if ops == [] then Some(frames)
    else
      match Apply(frames, ops[0])
      case None => None
      case Some(next) => ApplyAll(next, ops[1..])
  }

  lemma {:induction false} ApplyAppend(frames: seq<seq<byte>>, a: seq<Op>, b: seq<Op>)
    requires frames != [] && ApplyAll(frames, a).Some?
    ensures ApplyAll(frames, a).value != []
    ensures ApplyAll(frames, a + b) == ApplyAll(ApplyAll(frames, a).value, b)
    decreases |a|
  {
    if a == [] {
      assert a + b == b;
    } else {
      assert (a + b)[1..] == a[1..] + b;
      ApplyAppend(Apply(frames, a[0]).value, a[1..], b);
    }
  }

  lemma {:induction false} TagSizeBound(n: nat)
    requires n > 0
    ensures |Encode(n)| <= n
    ensures |Encode(n)| == 1 <==> n < 0x80
  {
    if n >= 0x80 {
      TagSizeBound(n / 0x80);
    }
  }

  class Builder {
    var bytes: seq<byte>
    var containers: seq<nat>
    ghost var frames: seq<seq<byte>>

    ghost predicate Valid()
      reads this
    {
      frames != [] && bytes == Layout(frames) && containers == Offsets(frames)
    }

    constructor ()
      ensures Valid() && frames == [[]]
    {
      bytes, containers, frames := [], [], [[]];
    }

    method BeginContainer()
      requires Valid()
      modifies this
      ensures Valid() && Some(frames) == Apply(old(frames), Begin)
    {
      bytes := bytes + [0];
      containers := containers + [|bytes|];
      frames := frames + [[]];
      assert frames[..|frames| - 1] == old(frames);
    }

    method Append(item: Item)
      requires Valid()
      modifies this
      ensures Valid() && Some(frames) == Apply(old(frames), Op.Append(item))
    {
      bytes := bytes + EncodeItem(item);
      AppendLayout(frames, EncodeItem(item));
      ghost var n := |frames| - 1;
      frames := frames[n := frames[n] + EncodeItem(item)];
    }

    /** Writes the tag of the innermost container, moving its body over if one byte is too few. */
    method EndContainer()
      requires Valid() && containers != []
      modifies this
      ensures Valid() && Some(frames) == Apply(old(frames), End)
    {
      var bodyOff := containers[|containers| - 1];
      containers := containers[..|containers| - 1];
      ghost var n := |frames| - 1;
      OpenLayout(frames);
      bytes := PutTag(bytes, bodyOff, Layout(frames[..n]), frames[n]);
      AppendLayout(frames[..n], EncodeItem(Some(frames[n])));
      frames := frames[..n][n - 1 := frames[n - 1] + EncodeItem(Some(frames[n]))];
    }

    /** Replaces the body of the innermost container. */
    method TransformContainer(transform: seq<byte> -> seq<byte>)
      requires Valid() && containers != []
      modifies this
      ensures Valid() && frames == old(frames)[|old(frames)| - 1 := transform(old(frames)[|old(frames)| - 1])]
    {
      var bodyOff := containers[|containers| - 1];
      ghost var n := |frames| - 1;
      ghost var outer, inner := Layout(frames[..n]), frames[n];
      assert bytes == outer + [0] + inner && bodyOff == |outer| + 1;
      assert bytes[bodyOff..] == inner && bytes[..bodyOff] == outer + [0];
      var body := transform(bytes[bodyOff..]);
      bytes := bytes[..bodyOff] + body;
      frames := frames[n := body];
      assert frames[..n] == old(frames)[..n];
    }

    /** The finished value; there must be no open container. */
    method Result() returns (b: seq<byte>)
      requires Valid() && containers == []
      ensures frames == [b]
    {
      b := bytes;
    }

    /** Any sequence of calls that the builder allows. */
    method Drive(ops: seq<Op>)
      requires Valid() && ApplyAll(frames, ops).Some?
      modifies this
      ensures Valid() && ApplyAll(old(frames), ops) == Some(frames)
    {
      assert ops[0..] == ops;
      for k := 0 to |ops|
        invariant Valid()
        invariant ApplyAll(old(frames), ops) == ApplyAll(frames, ops[k..])
      {
        assert ops[k..][1..] == ops[k + 1..];
        match ops[k]
        case Begin => BeginContainer();
        case Append(item) => this.Append(item);
        case End => EndContainer();
      }
    }
  }

  lemma {:induction false} OpenLayout(frames: seq<seq<byte>>)
    requires |frames| > 1
    ensures var n := |frames| - 1;
            && Layout(frames) == Layout(frames[..n]) + [0] + frames[n]
            && Offsets(frames) == Offsets(frames[..n]) + [|Layout(frames[..n])| + 1]
            && Offsets(frames)[..n - 1] == Offsets(frames[..n])
  {
  }

  /** The body moved over for a longer tag, or left where it is. */
  lemma {:induction false} WidenedTag(outer: seq<byte>, body: seq<byte>, tagSize: nat)
    requires 1 <= tagSize <= |body| + 1
    ensures var before := outer + [0] + body;
            var after := if tagSize > 1 then before[..|outer| + tagSize] + before[|outer| + 1..] else before;
            && |after| == |outer| + tagSize + |body|
            && after[..|outer|] == outer
            && after[|outer| + tagSize..] == body
  {
    var before := outer + [0] + body;
    assert before[|outer| + 1..] == body;
  }

  /** More bytes at the innermost level go at the end of the buffer and move no container. */
  lemma {:induction false} AppendLayout(frames: seq<seq<byte>>, more: seq<byte>)
    requires frames != []
    ensures var n := |frames| - 1;
            var longer := frames[n := frames[n] + more];
            Layout(longer) == Layout(frames) + more && Offsets(longer) == Offsets(frames)
  {
    var n := |frames| - 1;
    var longer := frames[n := frames[n] + more];
    assert longer[..n] == frames[..n];
    if n > 0 {
      assert Layout(longer) == Layout(frames[..n]) + [0] + (frames[n] + more);
    }
  }

  /** Writes the tag over the placeholder byte, first moving the body over if one byte is too few. */
  method PutTag(bytes: seq<byte>, bodyOff: nat, ghost outer: seq<byte>, ghost body: seq<byte>) returns (r: seq<byte>)
    requires bytes == outer + [0] + body && bodyOff == |outer| + 1
    ensures r == outer + EncodeItem(Some(body))
  {
    var tag := |bytes| - bodyOff + 1;
    var tagSize := SizeOf(tag);
    TagSizeBound(tag);
    var tagOff := bodyOff - 1;
    WidenedTag(outer, body, tagSize);
    r := bytes;
    if tagSize > 1 {
      r := r[..tagOff + tagSize] + r[bodyOff..];
    }
    r := r[..tagOff] + Encode(tag) + r[tagOff + tagSize..];
    assert r == outer + (Encode(tag) + body);
  }

  // ---------------------------------------------------------------------------
  // Well-bracketed calls are the calls that build a list of values

  function OpsOf(v: Value): seq<Op>
    decreases v, 0
  {
    match v
    case Null => [Append(None)]
    case Bytes(b) => [Append(Some(b))]
    case Group(vs) => [Begin] + OpsOfAll(vs) + [End]
  }

  function OpsOfAll(vs: seq<Value>): seq<Op>
    decreases vs
  {
    if vs == [] then [] else OpsOf(vs[0]) + OpsOfAll(vs[1..])
  }

  lemma {:induction false} EncodeOne(v: Value)
    ensures EncodeValues([v]) == EncodeItem(ItemOf(v))
  {
    assert ItemsOf([v]) == [ItemOf(v)];
    assert EncodeItems([ItemOf(v)]) == EncodeItem(ItemOf(v));
  }

  lemma {:induction false} GroupBuilt(frames: seq<seq<byte>>, ops: seq<Op>, body: seq<byte>)
    requires frames != [] && ApplyAll(frames + [[]], ops) == Some(frames + [body])
    ensures var n := |frames| - 1;
            ApplyAll(frames, [Begin] + ops + [End]) == Some(frames[n := frames[n] + EncodeItem(Some(body))])
  {
    var all := [Begin] + ops + [End];
    assert all[1..] == ops + [End];
    ApplyAppend(frames + [[]], ops, [End]);
    CloseGroup(frames, body);
  }

  lemma {:induction false} CloseGroup(frames: seq<seq<byte>>, body: seq<byte>)
    requires frames != []
    ensures var n := |frames| - 1;
            ApplyAll(frames + [body], [End]) == Some(frames[n := frames[n] + EncodeItem(Some(body))])
  {
    assert (frames + [body])[..|frames|] == frames;
    assert [End][1..] == [];
  }

  /** Under any open containers, the calls that build a value append its encoding to the innermost one. */
  lemma {:induction false} OpsBuildValue(frames: seq<seq<byte>>, v: Value)
    requires frames != []
    ensures var n := |frames| - 1;
            ApplyAll(frames, OpsOf(v)) == Some(frames[n := frames[n] + EncodeItem(ItemOf(v))])
    decreases v, 0
  {
    var n := |frames| - 1;
    if v.Group? {
      var open := frames + [[]];
      OpsBuildValues(open, v.items);
      assert open[n + 1] + EncodeValues(v.items) == EncodeValues(v.items);
      assert open[n + 1 := EncodeValues(v.items)] == frames + [EncodeValues(v.items)];
      GroupBuilt(frames, OpsOfAll(v.items), EncodeValues(v.items));
    } else {
      assert OpsOf(v)[1..] == [];
    }
  }

  lemma {:induction false} OpsBuildValues(frames: seq<seq<byte>>, vs: seq<Value>)
    requires frames != []
    ensures var n := |frames| - 1;
            ApplyAll(frames, OpsOfAll(vs)) == Some(frames[n := frames[n] + EncodeValues(vs)])
    decreases vs
  {
    var n := |frames| - 1;
    if vs == [] {
      assert EncodeValues(vs) == [] && frames[n] + EncodeValues(vs) == frames[n];
      assert frames[n := frames[n]] == frames;
    } else {
      OpsBuildValue(frames, vs[0]);
      var next := frames[n := frames[n] + EncodeItem(ItemOf(vs[0]))];
      ApplyAppend(frames, OpsOf(vs[0]), OpsOfAll(vs[1..]));
      OpsBuildValues(next, vs[1..]);
      assert frames[n] + EncodeItem(ItemOf(vs[0])) + EncodeValues(vs[1..]) == frames[n] + EncodeValues(vs);
      assert next[n := next[n] + EncodeValues(vs[1..])] == frames[n := frames[n] + EncodeValues(vs)];
    }
  }

  /** Begins and ends balance, starting inside `depth` containers and ending outside all. */
  predicate WellBracketed(ops: seq<Op>, depth: nat)
    decreases |ops|
  {
    if ops == [] then depth == 0
    else
      match ops[0]
      case Begin => WellBracketed(ops[1..], depth + 1)
      case Append(_) => WellBracketed(ops[1..], depth)
      case End => depth > 0 && WellBracketed(ops[1..], depth - 1)
  }

  /** The values built before the current container is closed, and the calls from there on. */
  function Parse(ops: seq<Op>): (r: (seq<Value>, seq<Op>))
    ensures |r.1| <= |ops|
    decreases |ops|
  {
    if ops == [] || ops[0].End? then ([], ops)
    else if ops[0].Append? then
      var leaf := match ops[0].item case None => Null case Some(b) => Bytes(b);
      var (vs, rest) := Parse(ops[1..]);
      ([leaf] + vs, rest)
    else
      var (inner, rest) := Parse(ops[1..]);
      if rest == [] then ([], ops)
      else
        var (vs, after) := Parse(rest[1..]);
        ([Group(inner)] + vs, after)
  }

  lemma {:induction false} Bracketed(ops: seq<Op>, inner: seq<Op>, rest: seq<Op>, vs: seq<Op>, after: seq<Op>)
    requires ops != [] && ops[0] == Begin && ops[1..] == inner + rest
    requires rest != [] && rest[0] == End && rest[1..] == vs + after
    ensures ops == ([Begin] + inner + [End]) + vs + after
  {
    assert rest == [End] + rest[1..] && ops == [Begin] + ops[1..];
  }

  lemma {:induction false} ParseIsExact(ops: seq<Op>, depth: nat)
    requires WellBracketed(ops, depth)
    ensures var (vs, rest) := Parse(ops);
            && ops == OpsOfAll(vs) + rest
            && WellBracketed(rest, depth)
            && (rest != [] ==> rest[0].End?)
    decreases |ops|
  {
    if ops == [] || ops[0].End? {
      assert ops == [] + ops;
    } else if ops[0].Append? {
      ParseIsExact(ops[1..], depth);
      var vs, rest := Parse(ops).0, Parse(ops).1;
      assert vs[1..] == Parse(ops[1..]).0;
      assert OpsOf(vs[0]) == [ops[0]];
      assert ops == [ops[0]] + ops[1..];
    } else {
      ParseIsExact(ops[1..], depth + 1);
      var inner, rest := Parse(ops[1..]).0, Parse(ops[1..]).1;
      assert rest != [];
      ParseIsExact(rest[1..], depth);
      var vs, after := Parse(rest[1..]).0, Parse(rest[1..]).1;
      assert ([Group(inner)] + vs)[1..] == vs;
      Bracketed(ops, OpsOfAll(inner), rest, OpsOfAll(vs), after);
    }
  }

  /**
   For every well-bracketed sequence of calls the bytes are the encoding of the
   values it spells, however deep the containers that were widened in place.
   */
  lemma {:induction false} BuilderIsExact(ops: seq<Op>)
    requires WellBracketed(ops, 0)
    ensures ops == OpsOfAll(Parse(ops).0)
    ensures ApplyAll([[]], ops) == Some([EncodeValues(Parse(ops).0)])
  {
    ParseIsExact(ops, 0);
    var vs, rest := Parse(ops).0, Parse(ops).1;
    assert rest == [];
    assert OpsOfAll(vs) + [] == OpsOfAll(vs);
    OpsBuildValues([[]], vs);
    var start: seq<seq<byte>> := [[]];
    assert start[0] + EncodeValues(vs) == EncodeValues(vs);
    assert start[0 := EncodeValues(vs)] == [EncodeValues(vs)];
  }
}
