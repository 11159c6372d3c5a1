/** The run-length machines around a column: what a nulls encoder is told, a nulls builder says again. */
module VngNulls {
  import opened Wrappers
  import opened Uvarint
  import opened Counted
  import opened VngColumns
  import opened VngPrimitives
  import VngEncoders
  import opened VngReaders

  /** The fields that touchValue, touchNull and Encode change. */
  class NullsEncoder {
    var runs: seq<int64>
    var run: int64
    var isNull: bool
    var count: nat
    ghost var told: seq<bool>

    ghost predicate Valid()
      reads this
    {
      Runs(runs, run, isNull, count) == RunsOf(told)
    }

    constructor ()
      ensures Valid() && told == []
    {
      runs, run, isNull, count, told := [], 0, false, 0, [];
    }

    method TouchValue()
      requires Valid()
      modifies this
      ensures Valid() && told == old(told) + [false]
      ensures Runs(runs, run, isNull, count) == Touch(old(Runs(runs, run, isNull, count)), false)
    {
      if !isNull {
        run := Wrap(run + 1);
      } else {
        runs := runs + [run];
        run := 1;
        isNull := false;
      }
      told := told + [false];
      assert told[..|told| - 1] == old(told);
    }

    method TouchNull()
      requires Valid()
      modifies this
      ensures Valid() && told == old(told) + [true]
      ensures Runs(runs, run, isNull, count) == Touch(old(Runs(runs, run, isNull, count)), true)
    {
      count := Inc(count);
      if isNull {
        run := Wrap(run + 1);
      } else {
        runs := runs + [run];
        run := 1;
        isNull := true;
      }
      told := told + [true];
      assert told[..|told| - 1] == old(told);
    }

    /** Closes the last run; there are no runs at all if there was no null. */
    method Encode() returns (column: Option<Body>)
      requires Valid() && |told| < INT64_LIMIT
      modifies this`runs
      ensures column.Some? <==> count != 0
      ensures column.Some? ==> exists xs :: Holds(column.value, xs) && NonNegative(xs) && Expand(false, xs) == told
    {
      RunsRoundTrip(told);
      if count == 0 {
        return None;
      }
      if run > 0 {
        runs := runs + [run];
      }
      assert runs == Closed(RunsOf(told));
      IntsHold(runs);
      column := Some(Ints(runs));
    }
  }

  /** The fields that NullsBuilder.Build changes, apart from the values. */
  class NullsBuilder {
    var runs: Body
    var isNull: bool
    var run: int64
    ghost var left: seq<int64>
    ghost var ahead: seq<bool>

    ghost predicate Valid()
      reads this
    {
      Announces(isNull, run, runs, left, ahead)
    }

    constructor (runs: Body, ghost left: seq<int64>)
      requires Holds(runs, left) && NonNegative(left)
      ensures Valid() && ahead == Expand(false, left)
    {
      this.runs, isNull, run, this.left := runs, true, 0, left;
      ahead := Expand(false, left);
    }

    /** Whether the next entry is null; nothing when the runs are used up. */
    method Next() returns (r: Option<bool>)
      requires Valid()
      modifies this
      ensures Valid()
      ensures old(ahead) != [] ==> r == Some(old(ahead)[0]) && ahead == old(ahead)[1..]
      ensures old(ahead) == [] ==> r.None? && ahead == []
      ensures Entry(NextRun(old(isNull), old(run), old(runs))) ==
              if r.Some? then Some((r.value, isNull, run, runs)) else None
    {
      while run == 0
        invariant Valid() && ahead == old(ahead)
        invariant NextRun(isNull, run, runs) == NextRun(old(isNull), old(run), old(runs))
        decreases |left|
      {
        if left == [] {
          assert ahead == [];
        }
        match NextInt(runs)
        case None => return None;
        case Some((n, rest)) =>
          SkipRun(isNull, runs, left, ahead);
          isNull, run, runs := !isNull, n, rest;
          left := left[1..];
      }
      OpenRun(isNull, run, runs, left, ahead);
      run := run - 1;
      r := Some(isNull);
      ahead := ahead[1..];
    }
  }

  /** An entry of a run: whether it is null, and the state of the builder behind it. */
  function Entry(found: Option<(bool, int64, Body)>): Option<(bool, bool, int64, Body)> {
    match found
    case None => None
    case Some((isNull, run, rest)) => Some((isNull, isNull, Wrap(run - 1), rest))
  }

  /** A column's nulls encoder makes the steps of this one. */
  lemma {:induction false} EncoderTouches(values: VngEncoders.Encoder, r: Runs, isNull: bool)
    ensures VngEncoders.TouchNulls(values, IntColumn(r.closed), r.run, r.isNull, r.count, isNull) ==
            VngEncoders.NullsEncoder(values, IntColumn(Touch(r, isNull).closed), Touch(r, isNull).run,
                                     Touch(r, isNull).isNull, Touch(r, isNull).count)
  {
    VngEncoders.TouchKeeps(values, r, isNull);
  }

  /** A column's builder reads the entries that this one reads, once its runs are loaded. */
  lemma {:induction false} ReaderReads(env: Env, loc: Segment, data: Body, buf: Option<Body>, isNull: bool, run: int64)
    requires Loaded(env, loc, data, buf).Some?
    ensures var read := ReadRun(env, loc, data, buf, isNull, run);
            var found := NextRun(isNull, run, Loaded(env, loc, data, buf).value);
            && (read.Some? <==> found.Some?)
            && (read.Some? ==> read.value.0 == found.value.0 && read.value.1 == found.value.1
                               && Loaded(env, loc, data, read.value.2) == Some(found.value.2))
  {
  }

  /** A run that is used up leads to the next one. */
  lemma {:induction false} SkipRun(isNull: bool, b: Body, runs: seq<int64>, flags: seq<bool>)
    requires Announces(isNull, 0, b, runs, flags) && NextInt(b).Some?
    ensures runs != [] && NextInt(b).value.0 == runs[0]
    ensures Announces(!isNull, runs[0], NextInt(b).value.1, runs[1..], flags)
  {
    assert Repeat(isNull, 0) + Expand(!isNull, runs) == Expand(!isNull, runs);
  }
}
