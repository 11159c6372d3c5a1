/** Building nested records from a list of field paths: which containers to open and close around each leaf. */
module RecordBuilders {
  import opened Wrappers
  import opened Uvarint
  import opened Types
  import Zcode
  import ZB = ZcodeBuilder

  type Path = seq<Name>

  /** A leaf, the records to open before it and how many to close after it. */
  datatype Info = Info(field: Path, begins: Path, ends: nat)

  /** The length of the common beginning of two paths that agree up to `k`. */
  function CommonFrom(a: Path, b: Path, k: nat): (n: nat)
    requires k <= |a| && k <= |b| && a[..k] == b[..k]
    ensures k <= n <= |a| && n <= |b| && a[..n] == b[..n]
    ensures n < |a| && n < |b| ==> a[n] != b[n]
    decreases |a| - k
  {
    if k < |a| && k < |b| && a[k] == b[k] then
      assert a[..k + 1] == a[..k] + [a[k]] && b[..k + 1] == b[..k] + [b[k]];
      CommonFrom(a, b, k + 1)
    else k
  }

  function Common(a: Path, b: Path): (n: nat)
    ensures n <= |a| && n <= |b| && a[..n] == b[..n]
    ensures n < |a| && n < |b| ==> a[n] != b[n]
  {
    CommonFrom(a, b, 0)
  }

  /** The record that field `i` is in; no record before the first and after the last field. */
  function Record(fields: seq<Path>, i: int): Path {
    if 0 <= i < |fields| && fields[i] != [] then fields[i][..|fields[i]| - 1] else []
  }

  /** How many open records field `i` shares with the one before. */
  function Shared(fields: seq<Path>, i: int): nat {
    Common(Record(fields, i - 1), Record(fields, i))
  }

  function InfoAt(fields: seq<Path>, i: nat): Info
    requires i < |fields|
  {
    Info(fields[i], Record(fields, i)[Shared(fields, i)..], |Record(fields, i)| - Shared(fields, i + 1))
  }

  // ---------------------------------------------------------------------------
  // Which lists are accepted

  const DOT: byte := 46

  function Join(path: Path): Name
    decreases |path|
  {
    if path == [] then [] else if |path| == 1 then path[0] else Join(path[..|path| - 1]) + [DOT] + path[|path| - 1]
  }

  /** A path is equal to another or one of them is inside the other. */
  predicate Related(a: Path, b: Path) {
    a <= b || b <= a
  }

  /** The names of the records opened below depth `pos` down to depth `d` of a record. */
  function Opened(rec: Path, pos: nat, d: nat): set<Name>
    requires d <= |rec|
  {
    if d <= pos then {} else Opened(rec, pos, d - 1) + {Join(rec[..d])}
  }

  /** None of them is among the names given. */
  predicate NoneOpened(rec: Path, pos: nat, d: nat, seen: set<Name>)
    requires d <= |rec|
  {
    d <= pos || (NoneOpened(rec, pos, d - 1, seen) && Join(rec[..d]) !in seen)
  }

  /** The names of the records opened for the fields before `i`. */
  function Seen(fields: seq<Path>, i: nat): set<Name>
    requires i <= |fields|
  {
    if i == 0 then {}
    else
      var rec := Record(fields, i - 1);
      Seen(fields, i - 1) + Opened(rec, Shared(fields, i - 1), |rec|)
  }

  /** Field `i` is not empty, opens no record a second time, and is not inside or around an earlier field. */
  predicate Fits(fields: seq<Path>, i: nat)
    requires i < |fields|
  {
    && fields[i] != []
    && NoneOpened(Record(fields, i), Shared(fields, i), |Record(fields, i)|, Seen(fields, i))
    && forall j :: 0 <= j < i ==> !Related(fields[j], fields[i])
  }

  predicate Accepted(fields: seq<Path>, n: nat)
    requires n <= |fields|
  {
    forall i :: 0 <= i < n ==> Fits(fields, i)
  }

  datatype Failure = EmptyPath | NotAdjacent(name: Name) | DuplicateField

  datatype Result = Ok(infos: seq<Info>) | Err(failure: Failure)

  lemma {:induction false} JoinGrows(path: Path, d: nat, e: nat)
    requires 0 < d < e <= |path|
    ensures |Join(path[..d])| < |Join(path[..e])|
    decreases e
  {
    assert path[..e][..e - 1] == path[..e - 1];
    if d < e - 1 {
      JoinGrows(path, d, e - 1);
    }
  }

  lemma {:induction false} NotOpenedYet(rec: Path, pos: nat, d: nat, e: nat)
    requires d < e <= |rec|
    ensures Join(rec[..e]) !in Opened(rec, pos, d)
    decreases d
  {
    if d > pos {
      NotOpenedYet(rec, pos, d - 1, e);
      JoinGrows(rec, d, e);
    }
  }

  lemma {:induction false} OnceOpened(rec: Path, pos: nat, d: nat, e: nat, seen: set<Name>)
    requires pos < d <= e <= |rec| && Join(rec[..d]) in seen
    ensures !NoneOpened(rec, pos, e, seen)
    decreases e
  {
    if d < e {
      OnceOpened(rec, pos, d, e - 1, seen);
    }
  }

  /** The records to open, unless one of them was open before. */
  method OpenRecords(rec: Path, pos: nat, seen: set<Name>) returns (bad: Option<Name>, begins: Path, after: set<Name>)
    requires pos <= |rec|
    ensures bad.None? <==> NoneOpened(rec, pos, |rec|, seen)
    ensures bad.None? ==> begins == rec[pos..] && after == seen + Opened(rec, pos, |rec|)
  {
    begins, after, bad := [], seen, None;
    for d := pos to |rec|
      invariant begins == rec[pos..d] && after == seen + Opened(rec, pos, d)
      invariant NoneOpened(rec, pos, d, seen)
    {
      var name := Join(rec[..d + 1]);
      NotOpenedYet(rec, pos, d, d + 1);
      if name in after {
        OnceOpened(rec, pos, d + 1, |rec|, seen);
        return Some(name), [], after;
      }
      after := after + {name};
      begins := begins + [rec[d]];
    }
  }

  /** The infos of the first `i` fields. */
  function Infos(fields: seq<Path>, i: nat): (r: seq<Info>)
    requires i <= |fields|
    ensures |r| == i
  {
    if i == 0 then [] else Infos(fields, i - 1) + [InfoAt(fields, i - 1)]
  }

  /** The same, while it is not known yet what to close after the last of them. */
  function Pending(fields: seq<Path>, i: nat): (r: seq<Info>)
    requires i <= |fields|
    ensures |r| == i
  {
    if i == 0 then [] else Infos(fields, i - 1) + [InfoAt(fields, i - 1).(ends := 0)]
  }

  function CloseAfter(infos: seq<Info>, ends: nat): seq<Info> {
    var n := |infos| - 1;
    if infos == [] then infos else infos[n := infos[n].(ends := ends)]
  }

  lemma {:induction false} PendingClosed(fields: seq<Path>, i: nat, ends: nat)
    requires i <= |fields| && (i > 0 ==> ends == InfoAt(fields, i - 1).ends)
    ensures CloseAfter(Pending(fields, i), ends) == Infos(fields, i)
  {
  }

  lemma {:induction false} InfosAt(fields: seq<Path>, n: nat, i: nat)
    requires i < n <= |fields|
    ensures Infos(fields, n)[i] == InfoAt(fields, i)
    decreases n
  {
    if i < n - 1 {
      InfosAt(fields, n - 1, i);
    }
  }

  /** How many records to close before field `i`. */
  function EndsBefore(fields: seq<Path>, i: nat): (n: nat)
    requires i <= |fields|
    ensures i > 0 ==> n == InfoAt(fields, i - 1).ends
  {
    |Record(fields, i - 1)| - Shared(fields, i)
  }

  /** What is wrong with a field, if anything, and the records that it opens. */
  method CheckField(fields: seq<Path>, i: nat, seen: set<Name>) returns (failure: Option<Failure>, begins: Path, after: set<Name>)
    requires i < |fields| && seen == Seen(fields, i)
    ensures failure.None? <==> Fits(fields, i)
    ensures failure.None? ==> begins == Record(fields, i)[Shared(fields, i)..] && after == Seen(fields, i + 1)
  {
    if fields[i] == [] {
      return Some(EmptyPath), [], seen;
    }
    var bad;
    bad, begins, after := OpenRecords(Record(fields, i), Shared(fields, i), seen);
    if bad.Some? {
      return Some(NotAdjacent(bad.value)), begins, after;
    }
    if exists j :: 0 <= j < i && Related(fields[j], fields[i]) {
      return Some(DuplicateField), begins, after;
    }
    failure := None;
  }

  /** NewRecordBuilder: exactly the lists in which every field fits. */
  method NewRecordBuilder(fields: seq<Path>) returns (r: Result)
    ensures r.Ok? <==> Accepted(fields, |fields|)
    ensures r.Ok? ==> r.infos == Infos(fields, |fields|)
  {
    var seen := {};
    var infos: seq<Info> := [];
    for i := 0 to |fields|
      invariant Accepted(fields, i) && seen == Seen(fields, i) && infos == Pending(fields, i)
    {
      var failure, begins, after := CheckField(fields, i, seen);
      if failure.Some? {
        return Err(failure.value);
      }
      PendingClosed(fields, i, EndsBefore(fields, i));
      infos := CloseAfter(infos, EndsBefore(fields, i)) + [Info(fields[i], begins, 0)];
      seen := after;
    }
    PendingClosed(fields, |fields|, EndsBefore(fields, |fields|));
    r := Ok(CloseAfter(infos, EndsBefore(fields, |fields|)));
  }

  // ---------------------------------------------------------------------------
  // Appending leaves

  /** The calls to the value builder for one leaf. */
  function LeafOps(info: Info, leaf: Zcode.Item): seq<ZB.Op> {
    Repeat(ZB.Begin, |info.begins|) + [ZB.Append(leaf)] + Repeat(ZB.End, info.ends)
  }

  function Repeat(op: ZB.Op, n: nat): seq<ZB.Op> {
    if n == 0 then [] else Repeat(op, n - 1) + [op]
  }

  class RecordBuilder {
    const fields: seq<Info>
    const builder: ZB.Builder
    var curField: nat

    constructor (fields: seq<Info>)
      ensures this.fields == fields && curField == 0 && fresh(builder) && builder.Valid() && builder.frames == [[]]
    {
      this.fields := fields;
      curField := 0;
      builder := new ZB.Builder();
    }

    /** The next leaf, between the containers that open before it and those that close after it. */
    method Append(leaf: Zcode.Item)
      requires builder.Valid() && curField < |fields|
      requires ZB.ApplyAll(builder.frames, LeafOps(fields[curField], leaf)).Some?
      modifies this, builder
      ensures builder.Valid() && curField == old(curField) + 1
      ensures ZB.ApplyAll(old(builder.frames), LeafOps(fields[old(curField)], leaf)) == Some(builder.frames)
    {
      var info := fields[curField];
      curField := curField + 1;
      builder.Drive(LeafOps(info, leaf));
    }

    /** The bytes of the record, or nothing if fields are missing. */
    method Encode() returns (b: Option<seq<byte>>)
      requires builder.Valid() && (curField == |fields| ==> |builder.frames| == 1)
      ensures b.Some? <==> curField == |fields|
      ensures b.Some? ==> builder.frames == [b.value]
    {
      if curField != |fields| {
        return None;
      }
      var bytes := builder.Result();
      b := Some(bytes);
    }
  }
}
