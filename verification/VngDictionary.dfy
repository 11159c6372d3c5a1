/**
 The dictionary of a column is built twice from an unordered map, once for the
 selectors and once for the metadata, and sorted each time.
 */
module VngDictionary {
  import opened Zcode
  import opened VngColumns
  import opened VngPrimitives

  /** Whether the value comparator puts one body before another. */
  type Less = (Body, Body) -> bool

  /** No later entry compares less than an earlier one: all that an unstable sort promises. */
  ghost predicate SortedBy(less: Less, entries: seq<Body>) {
    forall i, j :: 0 <= i < j < |entries| ==> !less(entries[j], entries[i])
  }

  /** Distinct bodies never compare equal. */
  ghost predicate Separates(less: Less, s: set<Body>) {
    forall a, b :: a in s && b in s && a != b ==> less(a, b) || less(b, a)
  }

  lemma {:induction false} SortedListingUnique(less: Less, s: set<Body>, a: seq<Body>, b: seq<Body>)
    requires Lists(a, s) && Lists(b, s) && SortedBy(less, a) && SortedBy(less, b) && Separates(less, s)
    ensures a == b
  {
    AgreeTo(less, s, a, b, |s|);
  }

  lemma {:induction false} AgreeTo(less: Less, s: set<Body>, a: seq<Body>, b: seq<Body>, k: nat)
    requires Lists(a, s) && Lists(b, s) && SortedBy(less, a) && SortedBy(less, b) && Separates(less, s) && k <= |s|
    ensures forall i :: 0 <= i < k ==> a[i] == b[i]
    decreases k
  {
    if k > 0 {
      AgreeTo(less, s, a, b, k - 1);
      NotBefore(less, s, a, b, k - 1);
      NotBefore(less, s, b, a, k - 1);
    }
  }

  /** An entry at which two listings first differ is found later in the other, so it is not less than the one there. */
  lemma {:induction false} NotBefore(less: Less, s: set<Body>, a: seq<Body>, b: seq<Body>, k: nat)
    requires Lists(a, s) && Lists(b, s) && SortedBy(less, b) && k < |s|
    requires forall i :: 0 <= i < k ==> a[i] == b[i]
    ensures a[k] in s && b[k] in s && (a[k] == b[k] || !less(a[k], b[k]))
  {
    assert a[k] in s;
    var p :| 0 <= p < |b| && b[p] == a[k];
    assert k <= p;
  }

  /** A position in a listing without repetitions is the position. */
  lemma {:induction false} PositionAt(entries: seq<Body>, s: set<Body>, k: nat)
    requires Lists(entries, s) && k < |entries|
    ensures Position(entries, entries[k]) == k
  {
    var p := Position(entries, entries[k]);
    assert entries[p] == entries[k];
  }

  /**
   Selectors written against one listing and read through another give back the bodies
   exactly when the two listings are the same.
   */
  lemma {:induction false} SelectsIffSame(bodies: seq<Body>, a: seq<Body>, b: seq<Body>)
    requires Lists(a, Elements(bodies)) && Lists(b, Elements(bodies)) && |a| <= MAX_DICT_SIZE
    ensures Selects(b, Selectors(a, Somes(bodies)), bodies) <==> a == b
  {
    if a == b {
      SelectorsSelect(a, bodies);
    } else {
      var k :| 0 <= k < |a| && a[k] != b[k];
      DiffersAt(bodies, a, b, k);
    }
  }

  lemma {:induction false} DiffersAt(bodies: seq<Body>, a: seq<Body>, b: seq<Body>, k: nat)
    requires Lists(a, Elements(bodies)) && |a| <= MAX_DICT_SIZE && k < |a| && k < |b| && a[k] != b[k]
    ensures !Selects(b, Selectors(a, Somes(bodies)), bodies)
  {
    assert a[k] in Elements(bodies);
    var i :| 0 <= i < |bodies| && bodies[i] == a[k];
    PositionAt(a, Elements(bodies), k);
    assert Selectors(a, Somes(bodies))[i] == k;
  }

  // ---------------------------------------------------------------------------
  // Ties

  /** A strict order in which what compares equal is interchangeable. */
  ghost predicate WeakOrder(less: Less) {
    && (forall a :: !less(a, a))
    && (forall a, b :: less(a, b) ==> !less(b, a))
    && (forall a, b, c :: less(a, c) ==> less(a, b) || less(b, c))
  }

  lemma {:induction false} Smallest(less: Less, s: set<Body>) returns (m: Body)
    requires WeakOrder(less) && s != {}
    ensures m in s && forall b :: b in s ==> !less(b, m)
    decreases |s|
  {
    m :| m in s;
    if s != {m} {
      var other := Smallest(less, s - {m});
      if less(other, m) {
        m := other;
      } else {
        forall b | b in s ensures !less(b, m) {
          assert b != m ==> b in s - {m};
        }
      }
    }
  }

  /** Every set has a sorted listing. */
  lemma {:induction false} SortedListing(less: Less, s: set<Body>) returns (a: seq<Body>)
    requires WeakOrder(less)
    ensures Lists(a, s) && SortedBy(less, a)
    decreases |s|
  {
    if s == {} {
      a := [];
    } else {
      var m := Smallest(less, s);
      var rest := SortedListing(less, s - {m});
      a := [m] + rest;
      ListsCons(m, rest, s);
      forall i, j | 0 <= i < j < |a| ensures !less(a[j], a[i]) {
        assert a[j] == rest[j - 1] && a[j] in s;
        assert i > 0 ==> a[i] == rest[i - 1];
      }
    }
  }

  lemma {:induction false} ListsCons(m: Body, rest: seq<Body>, s: set<Body>)
    requires m in s && Lists(rest, s - {m})
    ensures Lists([m] + rest, s)
  {
    var a := [m] + rest;
    forall b | b in s ensures b in a {
      if b != m {
        assert b in s - {m};
        assert b in rest;
        var i :| 0 <= i < |rest| && rest[i] == b;
        assert a[i + 1] == b;
      }
    }
    forall i | 0 <= i < |a| ensures a[i] in s {
      assert i > 0 ==> a[i] == rest[i - 1];
    }
    forall i, j | 0 <= i < j < |a| ensures a[i] != a[j] {
      assert a[j] == rest[j - 1];
      assert i > 0 ==> a[i] == rest[i - 1];
    }
  }

  /** Somewhere in a sorted listing with a tie two neighbours compare equal. */
  lemma {:induction false} TiedNeighbours(less: Less, a: seq<Body>, i: nat, j: nat)
    requires WeakOrder(less) && SortedBy(less, a) && i < j < |a| && !less(a[i], a[j])
    ensures !less(a[i], a[i + 1]) && !less(a[i + 1], a[i])
  {
    var x, y, z := a[i], a[i + 1], a[j];
    assert z == y || !less(z, y);
    assert !(less(x, y) && !less(x, z) && !less(z, y));
  }

  function Swapped(a: seq<Body>, i: nat): (r: seq<Body>)
    requires i + 1 < |a|
    ensures |r| == |a|
  {
    a[i := a[i + 1]][i + 1 := a[i]]
  }

  /** Neighbours that compare equal can be swapped in a sorted listing. */
  lemma {:induction false} SwapTied(less: Less, a: seq<Body>, s: set<Body>, i: nat)
    requires Lists(a, s) && SortedBy(less, a) && i + 1 < |a| && !less(a[i], a[i + 1])
    ensures Lists(Swapped(a, i), s) && SortedBy(less, Swapped(a, i)) && Swapped(a, i) != a
  {
    var b := Swapped(a, i);
    assert b[i] == a[i + 1] && b[i + 1] == a[i];
    forall x | x in s ensures x in b {
      var k :| 0 <= k < |a| && a[k] == x;
      assert b[if k == i then i + 1 else if k == i + 1 then i else k] == x;
    }
    forall p, q | 0 <= p < q < |b| ensures !less(b[q], b[p]) && b[p] != b[q] {
      var p', q' := if p == i then i + 1 else if p == i + 1 then i else p, if q == i then i + 1 else if q == i + 1 then i else q;
      assert b[p] == a[p'] && b[q] == a[q'];
    }
  }

  /** Every pair of sorts of the dictionary reads the column back. */
  ghost predicate SortsReadBack(less: Less, bodies: seq<Body>) {
    forall a, b :: Lists(a, Elements(bodies)) && Lists(b, Elements(bodies)) && SortedBy(less, a) && SortedBy(less, b) ==>
      Selects(b, Selectors(a, Somes(bodies)), bodies)
  }

  /**
   Whatever order the map is ranged over in each pass, the column is read back as it was written,
   exactly when the value comparator never calls two of its bodies equal.
   */
  lemma {:induction false} ReadBackIffSeparated(less: Less, bodies: seq<Body>)
    requires WeakOrder(less) && |Elements(bodies)| <= MAX_DICT_SIZE
    ensures SortsReadBack(less, bodies) <==> Separates(less, Elements(bodies))
  {
    var s := Elements(bodies);
    if Separates(less, s) {
      forall a, b | Lists(a, s) && Lists(b, s) && SortedBy(less, a) && SortedBy(less, b)
        ensures Selects(b, Selectors(a, Somes(bodies)), bodies)
      {
        SortedListingUnique(less, s, a, b);
        SelectsIffSame(bodies, a, b);
      }
    } else {
      var x, y :| x in s && y in s && x != y && !less(x, y) && !less(y, x);
      var a := SortedListing(less, s);
      TiesDisagree(less, bodies, a, x, y);
    }
  }

  lemma {:induction false} TiesDisagree(less: Less, bodies: seq<Body>, a: seq<Body>, x: Body, y: Body)
    requires WeakOrder(less) && |Elements(bodies)| <= MAX_DICT_SIZE
    requires Lists(a, Elements(bodies)) && SortedBy(less, a)
    requires x in Elements(bodies) && y in Elements(bodies) && x != y && !less(x, y) && !less(y, x)
    ensures !SortsReadBack(less, bodies)
  {
    assert x in a && y in a;
    var p :| 0 <= p < |a| && a[p] == x;
    var q :| 0 <= q < |a| && a[q] == y;
    var i := if p < q then p else q;
    TiedNeighbours(less, a, i, if p < q then q else p);
    SwapTied(less, a, Elements(bodies), i);
    SelectsIffSame(bodies, a, Swapped(a, i));
  }

  /** With a comparator that separates the values, any two sorts of each dictionary agree. */
  lemma {:induction false} SortsAgree(env: Env, less: Less)
    requires forall s: set<Body> :: Separates(less, s)
    requires forall t, s :: Lists(env.first(t, s), s) && SortedBy(less, env.first(t, s))
    requires forall t, s :: Lists(env.second(t, s), s) && SortedBy(less, env.second(t, s))
    ensures env.Agree()
  {
    forall t, s ensures env.first(t, s) == env.second(t, s) {
      SortedListingUnique(less, s, env.first(t, s), env.second(t, s));
    }
  }
}
