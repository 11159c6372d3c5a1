/** The leaf columns of a VNG object: integers, null runs, segments and dictionaries. */
module VngColumns {
  import opened Wrappers
  import opened Uvarint
  import opened Counted
  import Zcode
  import opened Types

  type Body = seq<byte>

  const UINT32_LIMIT: nat := 0x1_0000_0000

  /** Adding one to a 32-bit counter. */
  function Inc(n: nat): nat {
    if n + 1 == UINT32_LIMIT then 0 else n + 1
  }

  /** A 32-bit counter that was incremented `n` times. */
  function Count(n: nat): nat {
    if n == 0 then 0 else Inc(Count(n - 1))
  }

  lemma {:induction false} CountExact(n: nat)
    requires n < UINT32_LIMIT
    ensures Count(n) == n
  {
    if n > 0 {
      CountExact(n - 1);
    }
  }

  // ---------------------------------------------------------------------------
  // Integer columns

  /** Conversion to a 64-bit signed integer. */
  function Wrap(n: int): int64 {
    if -INT64_LIMIT <= n < INT64_LIMIT then n else (n + INT64_LIMIT) % UINT64_LIMIT - INT64_LIMIT
  }

  function EncodeInt(x: int64): Body {
    Digits(Fold(x))
  }

  function DecodeInt(b: Body): int64 {
    var u := Counted.Value(b);
    Unfold(if u < UINT64_LIMIT then u else u % UINT64_LIMIT)
  }

  lemma {:induction false} DecodeEncodeInt(x: int64)
    ensures DecodeInt(EncodeInt(x)) == x
    ensures |EncodeInt(x)| <= 8
  {
    SignedBijection(x, []);
  }

  /** An integer as an item of its column. */
  function IntItem(x: int64): Body {
    Zcode.EncodeItem(Some(EncodeInt(x)))
  }

  /** The buffer that holds these integers. */
  function Ints(xs: seq<int64>): Body {
    if xs == [] then [] else IntItem(xs[0]) + Ints(xs[1..])
  }

  lemma {:induction false} IntsSnoc(xs: seq<int64>, x: int64)
    ensures Ints(xs + [x]) == Ints(xs) + IntItem(x)
    decreases |xs|
  {
    if xs == [] {
      assert (xs + [x])[1..] == [];
    } else {
      assert (xs + [x])[1..] == xs[1..] + [x];
      IntsSnoc(xs[1..], x);
    }
  }

  /** Int64Decoder.Next: the first integer of a buffer and the rest, or nothing at its end. */
  function NextInt(b: Body): (r: Option<(int64, Body)>)
    ensures r.Some? ==> |r.value.1| < |b|
  {
    if b == [] then None
    else
      match Zcode.Front(b)
      case None => None
      case Some((item, rest)) => if item.None? then None else Some((DecodeInt(item.value), rest))
  }

  lemma {:induction false} NextIntOfItem(x: int64, rest: Body)
    ensures NextInt(IntItem(x) + rest) == Some((x, rest))
  {
    DecodeEncodeInt(x);
    Zcode.FrontOfItem(Some(EncodeInt(x)), rest);
  }

  /** Decoding a buffer one after the other gives these integers and comes to its end. */
  ghost predicate Holds(b: Body, xs: seq<int64>)
    decreases |xs|
  {
    if xs == [] then b == []
    else NextInt(b).Some? && NextInt(b).value.0 == xs[0] && Holds(NextInt(b).value.1, xs[1..])
  }

  lemma {:induction false} IntsHold(xs: seq<int64>)
    ensures Holds(Ints(xs), xs)
    decreases |xs|
  {
    if xs != [] {
      NextIntOfItem(xs[0], Ints(xs[1..]));
      IntsHold(xs[1..]);
    }
  }

  // ---------------------------------------------------------------------------
  // Null runs

  /** The state of a NullsEncoder: the runs closed so far, the open run, and how many nulls there were. */
  datatype Runs = Runs(closed: seq<int64>, run: int64, isNull: bool, count: nat)

  const NO_RUNS := Runs([], 0, false, 0)

  /** touchValue and touchNull: lengthen the open run or start the next one. */
  function Touch(r: Runs, isNull: bool): Runs {
    var count := if isNull then Inc(r.count) else r.count;
    if r.isNull == isNull then r.(run := Wrap(r.run + 1), count := count)
    else Runs(r.closed + [r.run], 1, isNull, count)
  }

  function RunsOf(flags: seq<bool>): Runs
    decreases |flags|
  {
    if flags == [] then NO_RUNS
    else
      var n := |flags| - 1;
      Touch(RunsOf(flags[..n]), flags[n])
  }

  /** The runs as Encode leaves them. */
  function Closed(r: Runs): seq<int64> {
    if r.run > 0 then r.closed + [r.run] else r.closed
  }

  function Repeat(f: bool, n: nat): (r: seq<bool>)
    ensures |r| == n && forall i :: 0 <= i < n ==> r[i] == f
  {
    seq(n, i => f)
  }

  /** The flags that alternating runs spell, the first a run of `f`. */
  function Expand(f: bool, runs: seq<int64>): seq<bool>
    decreases |runs|
  {
    if runs == [] || runs[0] < 0 then [] else Repeat(f, runs[0]) + Expand(!f, runs[1..])
  }

  predicate NonNegative(xs: seq<int64>) {
    forall i :: 0 <= i < |xs| ==> xs[i] >= 0
  }

  /** The polarity of the run after `n` others, when the first is one of `f`. */
  predicate Polarity(f: bool, n: nat)
    decreases n
  {
    if n == 0 then f else Polarity(!f, n - 1)
  }

  lemma {:induction false} PolarityFlips(f: bool, n: nat)
    ensures Polarity(f, n + 1) == !Polarity(f, n)
    decreases n
  {
    if n > 0 {
      PolarityFlips(!f, n - 1);
    }
  }

  lemma {:induction false} ExpandSnoc(f: bool, runs: seq<int64>, last: int64)
    requires NonNegative(runs) && last >= 0
    ensures Expand(f, runs + [last]) == Expand(f, runs) + Repeat(Polarity(f, |runs|), last)
    decreases |runs|
  {
    var all := runs + [last];
    if runs == [] {
      assert all[1..] == [];
      assert Expand(f, all) == Repeat(f, last) + [];
    } else {
      assert all[1..] == runs[1..] + [last];
      ExpandSnoc(!f, runs[1..], last);
    }
  }

  /** How an encoder's runs describe what it was told. */
  ghost predicate Describes(r: Runs, flags: seq<bool>) {
    && NonNegative(r.closed)
    && 0 <= r.run <= |flags|
    && r.isNull == Polarity(false, |r.closed|)
    && (flags != [] ==> r.run > 0)
    && Expand(false, r.closed) + Repeat(r.isNull, r.run) == flags
  }

  lemma {:induction false} LongerRun(before: seq<bool>, f: bool, n: nat)
    ensures before + Repeat(f, n + 1) == (before + Repeat(f, n)) + [f]
  {
  }

  lemma {:induction false} TouchDescribes(r: Runs, flags: seq<bool>, f: bool)
    requires Describes(r, flags) && |flags| < INT64_LIMIT - 1
    ensures Describes(Touch(r, f), flags + [f])
  {
    if r.isNull == f {
      LongerRun(Expand(false, r.closed), f, r.run);
    } else {
      ExpandSnoc(false, r.closed, r.run);
      PolarityFlips(false, |r.closed|);
      assert Repeat(f, 1) == [f];
    }
  }

  lemma {:induction false} RunsDescribe(flags: seq<bool>)
    requires |flags| < INT64_LIMIT
    ensures Describes(RunsOf(flags), flags)
    decreases |flags|
  {
    if flags != [] {
      var n := |flags| - 1;
      RunsDescribe(flags[..n]);
      assert flags == flags[..n] + [flags[n]];
      TouchDescribes(RunsOf(flags[..n]), flags[..n], flags[n]);
    }
  }

  lemma {:induction false} ClosedDescribes(r: Runs, flags: seq<bool>)
    requires Describes(r, flags)
    ensures NonNegative(Closed(r)) && Expand(false, Closed(r)) == flags
  {
    if r.run > 0 {
      ExpandSnoc(false, r.closed, r.run);
    }
  }

  /** The runs, read as alternating and beginning with values, spell the flags that were written. */
  lemma {:induction false} RunsRoundTrip(flags: seq<bool>)
    requires |flags| < INT64_LIMIT
    ensures Expand(false, Closed(RunsOf(flags))) == flags
    ensures NonNegative(Closed(RunsOf(flags)))
  {
    RunsDescribe(flags);
    ClosedDescribes(RunsOf(flags), flags);
  }

  /** The loop of NullsBuilder.Build: the run that the next entry belongs to and its length. */
  function NextRun(isNull: bool, run: int64, runs: Body): (r: Option<(bool, int64, Body)>)
    ensures r.Some? ==> r.value.1 != 0
    decreases |runs|
  {
    if run != 0 then Some((isNull, run, runs))
    else
      match NextInt(runs)
      case None => None
      case Some((next, rest)) => NextRun(!isNull, next, rest)
  }

  /** The state of a NullsBuilder has these flags to come. */
  ghost predicate Announces(isNull: bool, run: int64, b: Body, runs: seq<int64>, flags: seq<bool>) {
    run >= 0 && NonNegative(runs) && Holds(b, runs) && Repeat(isNull, run) + Expand(!isNull, runs) == flags
  }

  lemma {:induction false} SplitRepeat(f: bool, n: nat, tail: seq<bool>)
    requires n > 0
    ensures Repeat(f, n) + tail == [f] + (Repeat(f, n - 1) + tail)
    ensures (Repeat(f, n) + tail)[1..] == Repeat(f, n - 1) + tail
  {
  }

  lemma {:induction false} SkipEmptyRun(isNull: bool, b: Body, runs: seq<int64>, flags: seq<bool>)
    requires Announces(isNull, 0, b, runs, flags) && flags != []
    ensures runs != [] && NextInt(b).Some? && NextInt(b).value.0 == runs[0]
    ensures Announces(!isNull, runs[0], NextInt(b).value.1, runs[1..], flags)
  {
    assert Repeat(isNull, 0) + Expand(!isNull, runs) == Expand(!isNull, runs);
    assert runs != [];
  }

  /** What a NullsBuilder finds when these flags are to come: the first of them, and a state that announces the others. */
  ghost predicate Delivers(found: Option<(bool, int64, Body)>, more: seq<int64>, flags: seq<bool>) {
    && flags != []
    && found.Some?
    && found.value.0 == flags[0]
    && found.value.1 > 0
    && Announces(found.value.0, found.value.1 - 1, found.value.2, more, flags[1..])
  }

  lemma {:induction false} OpenRun(isNull: bool, run: int64, b: Body, runs: seq<int64>, flags: seq<bool>)
    requires run > 0 && Announces(isNull, run, b, runs, flags)
    ensures Delivers(Some((isNull, run, b)), runs, flags)
  {
    SplitRepeat(isNull, run, Expand(!isNull, runs));
  }

  lemma {:induction false} NextRunReads(isNull: bool, run: int64, b: Body, runs: seq<int64>, flags: seq<bool>)
      returns (more: seq<int64>)
    requires Announces(isNull, run, b, runs, flags) && flags != []
    ensures Delivers(NextRun(isNull, run, b), more, flags)
    decreases |runs|
  {
    if run != 0 {
      OpenRun(isNull, run, b, runs, flags);
      more := runs;
    } else {
      SkipEmptyRun(isNull, b, runs, flags);
      more := NextRunReads(!isNull, runs[0], NextInt(b).value.1, runs[1..], flags);
    }
  }
}
