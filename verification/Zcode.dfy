/**
 ZNG values as bytes: tagged items, the iterator over them, and the builder that
 constructs nested values in one buffer.
 */
module Zcode {
  import opened Wrappers
  import opened Uvarint

  /** A value as it is serialized: null, a primitive body, or a container. */
  datatype Value = Null | Bytes(body: seq<byte>) | Group(items: seq<Value>)

  /** What the iterator yields: null, or a body. */
  type Item = Option<seq<byte>>

  /** A tag (zero for null, else the length plus one) and the body. */
  function EncodeItem(item: Item): (r: seq<byte>)
    ensures |r| > 0
  {
    match item
    case None => Encode(0)
    case Some(body) => Encode(|body| + 1) + body
  }

  function EncodeItems(items: seq<Item>): seq<byte> {
    if items == [] then [] else EncodeItem(items[0]) + EncodeItems(items[1..])
  }

  /** A body whose tag fits 64 bits. */
  predicate Fits(item: Item) {
    item.Some? ==> |item.value| + 1 < UINT64_LIMIT
  }

  /** The item at the front of a buffer and the rest, or nothing where the iterator panics. */
  function Front(b: seq<byte>): (r: Option<(Item, seq<byte>)>)
    ensures r.Some? ==> |r.value.1| < |b|
    ensures r.Some? && r.value.0.Some? ==> |r.value.0.value| < |b|
  {
    match Decode(b)
    case None => None
    case Some((tag, n)) =>
      if tag == 0 then Some((None, b[n..]))
      else if n + tag - 1 > |b| then None
      else Some((Some(b[n..n + tag - 1]), b[n + tag - 1..]))
  }

  function Items(b: seq<byte>): Option<seq<Item>>
    decreases |b|
  {
    if b == [] then Some([])
    else
      match Front(b)
      case None => None
      case Some((item, rest)) =>
        match Items(rest)
        case None => None
        case Some(items) => Some([item] + items)
  }

  lemma {:induction false} FrontOfItem(item: Item, rest: seq<byte>)
    requires Fits(item)
    ensures Front(EncodeItem(item) + rest) == Some((item, rest))
  {
    var b := EncodeItem(item) + rest;
    match item
    case None =>
      DecodeEncode(0, rest);
    case Some(body) =>
      var tag := Encode(|body| + 1);
      assert b == tag + (body + rest);
      DecodeEncode(|body| + 1, body + rest);
      assert b[|tag|..|tag| + |body|] == body && b[|tag| + |body|..] == rest;
  }

  /** Iterating over a buffer of encoded items yields them, null kept apart from empty. */
  lemma {:induction false} ItemsOfEncoding(items: seq<Item>)
    requires forall i :: i in items ==> Fits(i)
    ensures Items(EncodeItems(items)) == Some(items)
    decreases |items|
  {
    if items != [] {
      assert items[0] in items && forall i :: i in items[1..] ==> i in items;
      FrontOfItem(items[0], EncodeItems(items[1..]));
      ItemsOfEncoding(items[1..]);
      assert [items[0]] + items[1..] == items;
    }
  }

  lemma {:induction false} EncodeItemsAppend(a: seq<Item>, b: seq<Item>)
    ensures EncodeItems(a + b) == EncodeItems(a) + EncodeItems(b)
    decreases |a|
  {
    if a == [] {
      assert a + b == b;
    } else {
      assert (a + b)[1..] == a[1..] + b;
      EncodeItemsAppend(a[1..], b);
    }
  }

  // ---------------------------------------------------------------------------
  // Value trees

  function ItemOf(v: Value): Item
    decreases v, 0
  {
    match v
    case Null => None
    case Bytes(b) => Some(b)
    case Group(vs) => Some(EncodeItems(ItemsOf(vs)))
  }

  function ItemsOf(vs: seq<Value>): (r: seq<Item>)
    ensures |r| == |vs|
    decreases vs
  {
    if vs == [] then [] else [ItemOf(vs[0])] + ItemsOf(vs[1..])
  }

  function EncodeValues(vs: seq<Value>): seq<byte> {
    EncodeItems(ItemsOf(vs))
  }

  /** Every body in the tree, of a leaf or a container, is short enough for its tag. */
  predicate Small(v: Value)
    decreases v, 0
  {
    Fits(ItemOf(v)) && (v.Group? ==> AllSmall(v.items))
  }

  predicate AllSmall(vs: seq<Value>)
    decreases vs
  {
    vs != [] ==> Small(vs[0]) && AllSmall(vs[1..])
  }

  lemma {:induction false} ItemsOfAppend(a: seq<Value>, b: seq<Value>)
    ensures ItemsOf(a + b) == ItemsOf(a) + ItemsOf(b)
    decreases |a|
  {
    if a == [] {
      assert a + b == b;
    } else {
      assert (a + b)[1..] == a[1..] + b;
      ItemsOfAppend(a[1..], b);
    }
  }

  lemma {:induction false} EncodeValuesAppend(a: seq<Value>, b: seq<Value>)
    ensures EncodeValues(a + b) == EncodeValues(a) + EncodeValues(b)
  {
    ItemsOfAppend(a, b);
    EncodeItemsAppend(ItemsOf(a), ItemsOf(b));
  }

  /** Two trees have the same shape: leaves and containers in the same places, nulls anywhere. */
  predicate SameShape(v: Value, w: Value)
    decreases v
  {
    match (v, w)
    case (Group(a), Group(b)) => |a| == |b| ==> forall i :: 0 <= i < |a| ==> SameShape(a[i], b[i])
    case (Bytes(_), Group(_)) => false
    case (Group(_), Bytes(_)) => false
    case _ => true
  }

  lemma {:induction false} AllSmallFits(vs: seq<Value>)
    requires AllSmall(vs)
    ensures forall i :: i in ItemsOf(vs) ==> Fits(i)
    ensures forall i :: 0 <= i < |vs| ==> Small(vs[i])
    decreases vs
  {
    if vs != [] {
      AllSmallFits(vs[1..]);
      assert forall i :: 0 < i < |vs| ==> vs[i] == vs[1..][i - 1];
    }
  }

  lemma {:induction false} ItemsOfAt(vs: seq<Value>, i: nat)
    requires i < |vs|
    ensures ItemsOf(vs)[i] == ItemOf(vs[i])
    decreases |vs|
  {
    if i > 0 {
      ItemsOfAt(vs[1..], i - 1);
    }
  }

  /** Read with the shape its type gives it, an encoding determines the value: a null, an empty body and an empty container differ. */
  lemma {:induction false} EncodingIsInjective(v: Value, w: Value)
    requires Small(v) && Small(w) && SameShape(v, w) && ItemOf(v) == ItemOf(w)
    ensures v == w
    decreases v
  {
    if v.Group? && w.Group? {
      AllSmallFits(v.items);
      AllSmallFits(w.items);
      ItemsOfEncoding(ItemsOf(v.items));
      ItemsOfEncoding(ItemsOf(w.items));
      assert ItemsOf(v.items) == ItemsOf(w.items);
      forall i | 0 <= i < |v.items| ensures v.items[i] == w.items[i] {
        ItemsOfAt(v.items, i);
        ItemsOfAt(w.items, i);
        EncodingIsInjective(v.items[i], w.items[i]);
      }
    }
  }

  // ---------------------------------------------------------------------------
  // Reading a tree back

  /** How an item is to be read: as a leaf, or as a container whose next member depends on those read before it. */
  datatype Shape = Leaf | Container(next: seq<Value> -> Shape)

  /** The value has the shape, nulls anywhere. */
  predicate HasShape(shape: Shape, v: Value)
    decreases v
  {
    match v
    case Null => true
    case Bytes(_) => shape.Leaf?
    case Group(vs) => shape.Container? && forall i :: 0 <= i < |vs| ==> HasShape(shape.next(vs[..i]), vs[i])
  }

  /** The value of an item, or nothing where iterating over a body panics. */
  function ReadValue(shape: Shape, item: Item): Option<Value>
    decreases if item.Some? then |item.value| else 0, 1
  {
    match item
    case None => Some(Null)
    case Some(body) =>
      if shape.Leaf? then Some(Bytes(body))
      else
        match ReadMembers(shape.next, [], body)
        case None => None
        case Some(vs) => Some(Group(vs))
  }

  /** The members of a container after the first ones, by iterating to the end of its body. */
  function ReadMembers(next: seq<Value> -> Shape, done: seq<Value>, b: seq<byte>): Option<seq<Value>>
    decreases |b|, 0
  {
    if b == [] then Some(done)
    else
      match Front(b)
      case None => None
      case Some((item, rest)) =>
        match ReadValue(next(done), item)
        case None => None
        case Some(v) => ReadMembers(next, done + [v], rest)
  }

  /** Iterating over the bytes of a tree, in the shape it has, gives back the tree. */
  lemma {:induction false} ReadBack(shape: Shape, v: Value)
    requires Small(v) && HasShape(shape, v)
    ensures ReadValue(shape, ItemOf(v)) == Some(v)
    decreases v, 1
  {
    if v.Group? {
      assert v.items[0..] == v.items;
      ReadMembersBack(shape.next, v, 0);
    }
  }

  lemma {:induction false} ReadMembersBack(next: seq<Value> -> Shape, v: Value, k: nat)
    requires v.Group? && k <= |v.items| && AllSmall(v.items[k..]) && HasShape(Container(next), v)
    ensures ReadMembers(next, v.items[..k], EncodeValues(v.items[k..])) == Some(v.items)
    decreases v, 0, |v.items| - k
  {
    var vs := v.items;
    if k == |vs| {
      assert vs[..k] == vs && vs[k..] == [];
    } else {
      var rest := EncodeValues(vs[k + 1..]);
      assert vs[k..][0] == vs[k] && vs[k..][1..] == vs[k + 1..] && vs[..k] + [vs[k]] == vs[..k + 1];
      ReadBack(next(vs[..k]), vs[k]);
      FrontOfItem(ItemOf(vs[k]), rest);
      FrontOfValues(vs[k..]);
      ReadMembersBack(next, v, k + 1);
    }
  }

  lemma {:induction false} FrontOfValues(vs: seq<Value>)
    requires vs != []
    ensures EncodeValues(vs) == EncodeItem(ItemOf(vs[0])) + EncodeValues(vs[1..]) && EncodeValues(vs) != []
  {
    assert ItemsOf(vs)[1..] == ItemsOf(vs[1..]);
  }

  // ---------------------------------------------------------------------------
  // The iterator

  class Iter {
    var rest: seq<byte>

    constructor (b: seq<byte>)
      ensures rest == b
    {
      rest := b;
    }

    /** The next item, whose encoding must be at the front. */
    method Next() returns (item: Item)
      requires Front(rest).Some?
      modifies this
      ensures Front(old(rest)) == Some((item, rest))
    {
      var tag, n := Decode(rest).value.0, Decode(rest).value.1;
      if tag == 0 {
        rest := rest[n..];
        return None;
      }
      var end := n + tag - 1;
      item := Some(rest[n..end]);
      rest := rest[end..];
    }

    /** The next item with its tag still in front of it. */
    method NextTagAndBody() returns (b: seq<byte>)
      requires Front(rest).Some?
      modifies this
      ensures old(rest) == b + rest
      ensures Front(old(rest)).value.1 == rest
      ensures forall item, tail :: Fits(item) && old(rest) == EncodeItem(item) + tail ==> b == EncodeItem(item) && rest == tail
    {
      var tag, n := Decode(rest).value.0, Decode(rest).value.1;
      if tag != 0 {
        n := n + tag - 1;
      }
      b := rest[..n];
      forall item, tail | Fits(item) && rest == EncodeItem(item) + tail ensures b == EncodeItem(item) && rest[n..] == tail {
        FrontOfItem(item, tail);
        assert |rest| == |EncodeItem(item)| + |tail|;
      }
      rest := rest[n..];
    }
  }
}
