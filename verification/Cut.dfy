/** Where a batch is cut: at the `limit`-th distinct pending revision, or the last one. */
module Cut {

  lemma {:induction false} MinExists(s: set<nat>)
    requires s != {}
    ensures exists m :: m in s && forall x | x in s :: m <= x
  {
    var y :| y in s;
    var smaller := Below(s, y);
    if smaller != {} {
      assert y !in smaller;
      assert smaller < s;
      MinExists(smaller);
      var m :| m in smaller && forall x | x in smaller :: m <= x;
      forall x | x in s ensures m <= x {
        if x < y { assert x in smaller; }
      }
    } else {
      assert forall x | x in s :: x < y ==> x in smaller;
    }
  }

  function Min(s: set<nat>): (m: nat)
    requires s != {}
    ensures m in s && forall x | x in s :: m <= x
  {
    MinExists(s);
    var m :| m in s && forall x | x in s :: m <= x;
    m
  }

  function Below(s: set<nat>, a: nat): set<nat> {
    set x | x in s && x < a
  }

  function Above(s: set<nat>, a: nat): set<nat> {
    set x | x in s && x > a
  }

  /** The limit-th smallest revision, or the largest when there are fewer.  A limit of zero counts as one. */
  function CutAt(s: set<nat>, limit: nat): (cut: nat)
    requires s != {}
    ensures cut in s
    decreases |s|
  {
    var m := Min(s);
    var rest := s - {m};
    if limit <= 1 || rest == {} then m else CutAt(rest, limit - 1)
  }

  function AtLeastOne(limit: nat): nat {
    if limit == 0 then 1 else limit
  }

  /**
   The whole meaning of the cut, for every bound: it reaches `a` exactly when some pending
   revision does and fewer than `limit` pending revisions lie below `a`.
   */
  lemma {:induction false} CutReaches(s: set<nat>, limit: nat, a: nat)
    requires s != {}
    ensures CutAt(s, limit) >= a <==> (exists x :: x in s && x >= a) && |Below(s, a)| < AtLeastOne(limit)
    decreases |s|
  {
    var m := Min(s);
    var rest := s - {m};
    if m >= a {
      assert Below(s, a) == {};
    } else if limit <= 1 || rest == {} {
      assert m in Below(s, a);
      if rest == {} {
        assert s == {m};
      }
    } else {
      CutReaches(rest, limit - 1, a);
      assert Below(s, a) == Below(rest, a) + {m};
      if x :| x in s && x >= a {
        assert x in rest;
      }
    }
  }

  function UpTo(s: set<nat>, a: nat): set<nat> {
    set x | x in s && x <= a
  }

  lemma Partition(s: set<nat>, a: nat)
    ensures |UpTo(s, a)| + |Above(s, a)| == |s|
  {
    assert UpTo(s, a) + Above(s, a) == s;
    assert UpTo(s, a) !! Above(s, a);
  }

  /** The cut takes in exactly `limit` distinct revisions, or all of them when there are fewer. */
  lemma {:induction false} CutTakes(s: set<nat>, limit: nat)
    requires s != {}
    ensures |UpTo(s, CutAt(s, limit))| == if |s| < AtLeastOne(limit) then |s| else AtLeastOne(limit)
    decreases |s|
  {
    var m := Min(s);
    var rest := s - {m};
    assert |rest| == |s| - 1;
    var cut := CutAt(s, limit);
    if limit <= 1 || rest == {} {
      assert UpTo(s, cut) == {m};
      assert |UpTo(s, cut)| == 1;
    } else {
      CutTakes(rest, limit - 1);
      assert m <= cut;
      assert UpTo(s, cut) == UpTo(rest, cut) + {m};
    }
  }
}
