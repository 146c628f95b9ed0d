/**
 * The iteration order of a TreeMap over draw times: its key set listed in
 * strictly ascending order.
 */
module OrderedKeys {

  predicate Increasing(s: seq<int>) {
    forall i, j :: 0 <= i < j < |s| ==> s[i] < s[j]
  }

  /** A non-empty set has an element to pick. */
  lemma HasElement(s: set<int>)
    requires s != {}
    ensures exists x :: x in s
  {
    if forall x :: x !in s {
      assert false;
    }
  }

  lemma {:induction false} LeastExists(s: set<int>)
    requires s != {}
    ensures exists m :: m in s && forall k :: k in s ==> m <= k
  {
    HasElement(s);
    var x :| x in s;
    if s != {x} {
      LeastExists(s - {x});
      var m :| m in s - {x} && forall k :: k in s - {x} ==> m <= k;
      assert forall k :: k in s ==> k == x || k in s - {x};
      if x < m {
        assert forall k :: k in s ==> x <= k;
      } else {
        assert forall k :: k in s ==> m <= k;
      }
    } else {
      assert forall k :: k in s ==> x <= k;
    }
  }

  /** The set of the elements of a list. */
  function ElementsOf(s: seq<int>): (r: set<int>)
    ensures forall k :: k in r <==> k in s
  {
    set k | k in s
  }

  /** The smallest key, the first one a TreeMap visits. */
  function Least(s: set<int>): (m: int)
    requires s != {}
    ensures m in s && forall k :: k in s ==> m <= k
  {
    LeastExists(s);
    var m :| m in s && forall k :: k in s ==> m <= k;
    m
  }

  /** The keys of s, smallest first. */
  function SortedKeys(s: set<int>): (r: seq<int>)
    ensures forall k :: k in r <==> k in s
    decreases s
  {
    if s == {} then []
    else
      var m := Least(s);
      [m] + SortedKeys(s - {m})
  }

  /** The listing is strictly ascending, so each key occurs once. */
  lemma {:induction false} SortedKeysIncreasing(s: set<int>)
    ensures Increasing(SortedKeys(s))
    decreases s
  {
    if s != {} {
      var m := Least(s);
      var rest := SortedKeys(s - {m});
      SortedKeysIncreasing(s - {m});
      assert forall k :: k in rest ==> m < k;
      assert SortedKeys(s) == [m] + rest;
    }
  }
}
