/** Two-column sort keys and the rows an `ORDER BY major, minor` returns.

    The three ordered queries of the repository (the claim, the refresh queue
    and the public listing) all sort on a time and break ties on an id, so one
    order and one sorting function serve them all. */
module Keys {

  datatype Key = Key(major: int, minor: int)

  predicate Less(a: Key, b: Key) {
    a.major < b.major || (a.major == b.major && a.minor < b.minor)
  }

  predicate IsFirst(k: Key, s: set<Key>) {
    k in s && forall x :: x in s ==> x == k || Less(k, x)
  }

  predicate Ascending(r: seq<Key>) {
    forall i, j :: 0 <= i < j < |r| ==> Less(r[i], r[j])
  }

  lemma FirstExists(s: set<Key>)
    requires s != {}
    ensures exists k :: IsFirst(k, s)
    decreases |s|
  {
    var x :| x in s;
    var rest := s - {x};
    if rest == {} {
      assert s == {x};
      assert IsFirst(x, s);
    } else {
      FirstExists(rest);
      var k :| IsFirst(k, rest);
      var first := if Less(x, k) then x else k;
      forall y | y in s ensures y == first || Less(first, y) {
        assert y == x || y in rest;
      }
      assert IsFirst(first, s);
    }
  }

  /** The row an `ORDER BY ... LIMIT 1` returns. */
  function First(s: set<Key>): (k: Key)
    requires s != {}
    ensures IsFirst(k, s)
  {
    FirstExists(s);
    var k :| IsFirst(k, s);
    k
  }

  /** The rows of an `ORDER BY`, in order. */
  function Sorted(s: set<Key>): (r: seq<Key>)
    ensures |r| == |s|
    decreases |s|
  {
    if s == {} then [] else [First(s)] + Sorted(s - {First(s)})
  }

  /** Sorting lists exactly the elements, in ascending order. */
  lemma {:induction false} SortedIsAscending(s: set<Key>)
    ensures Ascending(Sorted(s))
    ensures forall k :: k in Sorted(s) <==> k in s
    decreases |s|
  {
    if s != {} {
      var rest := s - {First(s)};
      SortedIsAscending(rest);
      assert forall i :: 0 <= i < |Sorted(rest)| ==> Sorted(rest)[i] in Sorted(rest);
    }
  }

  lemma SortedStep(s: set<Key>)
    requires s != {}
    ensures Sorted(s) == [First(s)] + Sorted(s - {First(s)})
  {
  }

  /** An ascending sequence is determined by its elements. */
  lemma {:induction false} AscendingIsSorted(r: seq<Key>, s: set<Key>)
    requires Ascending(r)
    requires forall k :: k in r <==> k in s
    ensures r == Sorted(s)
    decreases |r|
  {
    if r == [] {
      assert s == {};
    } else {
      assert r[0] in s;
      var k := First(s);
      assert k in r;
      assert k == r[0];
      var rest := s - {k};
      assert forall x :: x in r[1..] ==> x in r;
      forall x ensures x in r[1..] <==> x in rest {
        if x in rest {
          var i :| 0 <= i < |r| && r[i] == x;
          assert r[1..][i - 1] == x;
        }
      }
      AscendingIsSorted(r[1..], rest);
    }
  }
}
