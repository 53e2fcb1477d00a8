/** Sorting followed by removal of adjacent duplicates, as both the batch cut and the scope check use it. */
module Sorting {

  ghost predicate TotalOrder<T(!new)>(leq: (T, T) -> bool) {
    && (forall a, b :: leq(a, b) || leq(b, a))
    && (forall a, b :: leq(a, b) && leq(b, a) ==> a == b)
    && (forall a, b, c :: leq(a, b) && leq(b, c) ==> leq(a, c))
  }

  ghost predicate Ascending<T(!new)>(s: seq<T>, leq: (T, T) -> bool) {
    forall i, j | 0 <= i < j < |s| :: leq(s[i], s[j])
  }

  predicate NoRepeats<T(==)>(s: seq<T>) {
    forall i, j | 0 <= i < j < |s| :: s[i] != s[j]
  }

  function Elements<T>(s: seq<T>): set<T> {
    set x | x in s
  }

  function Insert<T(!new)>(s: seq<T>, x: T, leq: (T, T) -> bool): (r: seq<T>)
    ensures multiset(r) == multiset(s) + multiset{x}
  {
    if s == [] then [x]
    else if leq(x, s[0]) then [x] + s
    else
      assert s == [s[0]] + s[1..];
      [s[0]] + Insert(s[1..], x, leq)
  }

  /** Any sort gives this result, because equal elements are indistinguishable. */
  function Sort<T(!new)>(s: seq<T>, leq: (T, T) -> bool): (r: seq<T>)
    ensures multiset(r) == multiset(s)
  {
    if s == [] then []
    else
      assert s == [s[0]] + s[1..];
      Insert(Sort(s[1..], leq), s[0], leq)
  }

  lemma {:induction false} InsertAscending<T(!new)>(s: seq<T>, x: T, leq: (T, T) -> bool)
    requires TotalOrder(leq) && Ascending(s, leq)
    ensures Ascending(Insert(s, x, leq), leq)
  {
    if s != [] && !leq(x, s[0]) {
      InsertAscending(s[1..], x, leq);
      var rest := Insert(s[1..], x, leq);
      forall y | y in rest ensures leq(s[0], y) {
        assert y in multiset(rest);
        assert y in multiset(s[1..]) || y == x;
      }
    }
  }

  lemma {:induction false} SortAscending<T(!new)>(s: seq<T>, leq: (T, T) -> bool)
    requires TotalOrder(leq)
    ensures Ascending(Sort(s, leq), leq)
  {
    if s != [] {
      SortAscending(s[1..], leq);
      InsertAscending(Sort(s[1..], leq), s[0], leq);
    }
  }

  lemma SortElements<T(!new)>(s: seq<T>, leq: (T, T) -> bool)
    ensures Elements(Sort(s, leq)) == Elements(s)
  {
    forall x ensures x in Sort(s, leq) <==> x in s {
      assert x in multiset(Sort(s, leq)) <==> x in multiset(s);
    }
  }

  /** Keeps the first of every run of equal neighbours. */
  method Dedup<T(!new, ==)>(s: seq<T>, ghost leq: (T, T) -> bool) returns (r: seq<T>)
    requires TotalOrder(leq) && Ascending(s, leq)
    ensures Ascending(r, leq) && NoRepeats(r) && Elements(r) == Elements(s)
  {
    r := [];
    var i := 0;
    while i < |s|
      invariant 0 <= i <= |s|
      invariant Ascending(r, leq) && NoRepeats(r)
      invariant forall x :: x in r <==> x in s[..i]
      invariant i > 0 ==> r != [] && r[|r| - 1] == s[i - 1]
    {
      assert s[..i + 1] == s[..i] + [s[i]];
      if r == [] || r[|r| - 1] != s[i] {
        forall j | 0 <= j < |r| ensures leq(r[j], s[i]) && r[j] != s[i] {
          assert r[j] in s[..i];
          assert j == |r| - 1 || leq(r[j], r[|r| - 1]);
          assert leq(s[i - 1], s[i]);
        }
        r := r + [s[i]];
      }
      i := i + 1;
    }
    assert s[..i] == s;
  }

  /** A list has no repeats exactly when it has as many elements as positions. */
  lemma {:induction false} NoRepeatsByCount<T(!new)>(s: seq<T>)
    ensures |Elements(s)| <= |s|
    ensures NoRepeats(s) <==> |Elements(s)| == |s|
  {
    if s != [] {
      var init, last := s[..|s| - 1], s[|s| - 1];
      NoRepeatsByCount(init);
      assert s == init + [last];
      if last in init {
        assert Elements(s) == Elements(init);
        var i :| 0 <= i < |init| && init[i] == last;
        assert s[i] == s[|s| - 1];
      } else {
        assert Elements(s) == Elements(init) + {last};
        if NoRepeats(init) {
          forall i, j | 0 <= i < j < |s| ensures s[i] != s[j] {
            assert s[i] == init[i];
            if j < |init| { assert s[j] == init[j]; }
          }
        } else {
          var i, j :| 0 <= i < j < |init| && init[i] == init[j];
          assert s[i] == s[j];
        }
      }
    }
  }
}
