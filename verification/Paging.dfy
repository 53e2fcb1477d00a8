/** The batches that an unchanging store gives out, one after the other. */
module Paging {
  import opened Store
  import opened Cut

  function Pending(t: Tables, threshold: nat): set<nat> {
    set k | k in t && t[k].revision > threshold :: t[k].revision
  }

  function Between(t: Tables, threshold: nat, cut: nat): Tables {
    map k | k in t && threshold < t[k].revision <= cut :: t[k]
  }

  function CutOr(pending: set<nat>, server: nat, limit: nat): nat {
    if pending == {} then server else CutAt(pending, limit)
  }

  datatype Page = Page(threshold: nat, cut: nat, rows: Tables, hasMore: bool)

  /** The batches that feeding each cut back as the next threshold returns. */
  function Pages(t: Tables, threshold: nat, limit: nat): seq<Page>
    decreases Pending(t, threshold)
  {
    var pending := Pending(t, threshold);
    if pending == {} then []
    else
      var cut := CutAt(pending, limit);
      PendingAfterCut(t, threshold, cut);
      [Page(threshold, cut, Between(t, threshold, cut), |pending| > AtLeastOne(limit))] + Pages(t, cut, limit)
  }

  lemma PendingAfterCut(t: Tables, threshold: nat, cut: nat)
    requires cut in Pending(t, threshold)
    ensures Pending(t, cut) == Above(Pending(t, threshold), cut)
    ensures Pending(t, cut) < Pending(t, threshold)
    ensures threshold < cut
  {
    assert cut !in Pending(t, cut);
  }

  lemma PendingCount(t: Tables, threshold: nat, limit: nat)
    requires Pending(t, threshold) != {}
    ensures var n, l := |Pending(t, threshold)|, AtLeastOne(limit);
            |Pending(t, CutAt(Pending(t, threshold), limit))| == if n < l then 0 else n - l
  {
    var pending := Pending(t, threshold);
    var cut := CutAt(pending, limit);
    PendingAfterCut(t, threshold, cut);
    CutTakes(pending, limit);
    Partition(pending, cut);
  }

  /** How many runs, or pages, `n` pending revisions take. */
  function RunsNeeded(n: nat, limit: nat): nat {
    if n == 0 then 0
    else 1 + RunsNeeded(if n < AtLeastOne(limit) then 0 else n - AtLeastOne(limit), limit)
  }

  lemma {:induction false} RunsNeededIsCeiling(n: nat, limit: nat)
    ensures var l := AtLeastOne(limit); n <= RunsNeeded(n, limit) * l < n + l
  {
    var l := AtLeastOne(limit);
    if n != 0 {
      var rest := if n < l then 0 else n - l;
      RunsNeededIsCeiling(rest, limit);
      assert RunsNeeded(n, limit) * l == l + RunsNeeded(rest, limit) * l;
    }
  }

  ghost predicate PagesChain(pages: seq<Page>, t: Tables, threshold: nat, limit: nat) {
    && (forall i | 0 <= i < |pages| :: pages[i].threshold < pages[i].cut && pages[i].threshold >= threshold)
    && (forall i | 0 <= i < |pages| :: pages[i].rows == Between(t, pages[i].threshold, pages[i].cut))
    && (forall i, j | 0 <= i < j < |pages| :: pages[i].cut <= pages[j].threshold)
    && (forall i | 0 <= i < |pages| :: pages[i].hasMore <==> i + 1 < |pages|)
    && (forall i | 0 <= i < |pages| :: |Pending(pages[i].rows, pages[i].threshold)| <= AtLeastOne(limit))
  }

  lemma PageSize(t: Tables, threshold: nat, limit: nat)
    requires Pending(t, threshold) != {}
    ensures |Pending(Between(t, threshold, CutAt(Pending(t, threshold), limit)), threshold)| <= AtLeastOne(limit)
  {
    var pending := Pending(t, threshold);
    var cut := CutAt(pending, limit);
    CutTakes(pending, limit);
    var page := Between(t, threshold, cut);
    forall x | x in UpTo(pending, cut) ensures x in Pending(page, threshold) {
      var k :| k in t && t[k].revision == x && x > threshold;
      assert page[k].revision == x;
    }
    assert Pending(page, threshold) == UpTo(pending, cut);
  }

  lemma PagesChainCons(page: Page, rest: seq<Page>, t: Tables, threshold: nat, limit: nat)
    requires PagesChain(rest, t, page.cut, limit)
    requires page.threshold == threshold < page.cut && page.rows == Between(t, threshold, page.cut)
    requires page.hasMore <==> |rest| > 0
    requires |Pending(page.rows, threshold)| <= AtLeastOne(limit)
    ensures PagesChain([page] + rest, t, threshold, limit)
  {
    hide Pending, Between;
    var pages := [page] + rest;
    forall i | 0 < i < |pages| ensures pages[i] == rest[i - 1] {}
  }

  /**
   Pages are consecutive windows in revision order, no larger than the limit in distinct
   revisions, as many as the pending revisions need, and `hasMore` marks all but the last.
   */
  lemma {:induction false} PagesInOrder(t: Tables, threshold: nat, limit: nat)
    ensures PagesChain(Pages(t, threshold, limit), t, threshold, limit)
    ensures |Pages(t, threshold, limit)| == RunsNeeded(|Pending(t, threshold)|, limit)
    decreases Pending(t, threshold)
  {
    var pending := Pending(t, threshold);
    if pending != {} {
      var cut := CutAt(pending, limit);
      PendingAfterCut(t, threshold, cut);
      PendingCount(t, threshold, limit);
      PageSize(t, threshold, limit);
      PagesInOrder(t, cut, limit);
      var page := Pages(t, threshold, limit)[0];
      hide Pending, Between, PagesChain;
      assert page.hasMore <==> |Pages(t, cut, limit)| > 0;
      PagesChainCons(page, Pages(t, cut, limit), t, threshold, limit);
    }
  }

  /** Every changed row is delivered, as it is, on exactly one page. */
  lemma {:induction false} DeliveredOnce(t: Tables, threshold: nat, limit: nat, k: Key) returns (i: nat)
    requires k in t && t[k].revision > threshold
    ensures i < |Pages(t, threshold, limit)|
    ensures k in Pages(t, threshold, limit)[i].rows && Pages(t, threshold, limit)[i].rows[k] == t[k]
    ensures forall j | 0 <= j < |Pages(t, threshold, limit)| && j != i :: k !in Pages(t, threshold, limit)[j].rows
    decreases Pending(t, threshold)
  {
    var pending := Pending(t, threshold);
    assert t[k].revision in pending;
    var cut := CutAt(pending, limit);
    PendingAfterCut(t, threshold, cut);
    var pages := Pages(t, threshold, limit);
    PagesInOrder(t, threshold, limit);
    if t[k].revision <= cut {
      i := 0;
    } else {
      var before := DeliveredOnce(t, cut, limit, k);
      assert pages[1..] == Pages(t, cut, limit);
      i := before + 1;
    }
    forall j | 0 <= j < |pages| && j != i ensures k !in pages[j].rows {
      assert k in pages[i].rows;
      if j < i {
        assert pages[j].cut <= pages[i].threshold;
      } else {
        assert pages[i].cut <= pages[j].threshold;
      }
    }
  }

  // ----- The order of the rows -----

  /** Changed rows of one kind are listed by revision, and within a revision by ID as the database compares them. */
  predicate Precedes(t: Tables, idLess: (string, string) -> bool, k: Key, k': Key)
    requires k in t && k' in t
  {
    t[k].revision < t[k'].revision || (t[k].revision == t[k'].revision && idLess(k.id, k'.id))
  }

  /** The list holds exactly the rows of one kind with a revision in the window, each once and in order. */
  ghost predicate Lists(l: seq<Key>, t: Tables, table: Table, idLess: (string, string) -> bool, window: nat -> bool) {
    && (forall k :: k in l <==> k in t && k.InTable() == table && window(t[k].revision))
    && (forall i, j | 0 <= i < j < |l| :: l[i] in t && l[j] in t && Precedes(t, idLess, l[i], l[j]))
  }

  function Within(low: nat, high: nat): nat -> bool { (revision: nat) => low < revision <= high }
  function After(low: nat): nat -> bool { (revision: nat) => low < revision }

  function Concat(lists: seq<seq<Key>>): seq<Key> {
    if lists == [] then [] else lists[0] + Concat(lists[1..])
  }

  lemma ListsJoin(l: seq<Key>, rest: seq<Key>, t: Tables, table: Table, idLess: (string, string) -> bool, low: nat,
                  cut: nat)
    requires low <= cut && Lists(l, t, table, idLess, Within(low, cut)) && Lists(rest, t, table, idLess, After(cut))
    ensures Lists(l + rest, t, table, idLess, After(low))
  {
    var all := l + rest;
    forall k ensures k in all <==> k in t && k.InTable() == table && After(low)(t[k].revision) {
      assert k in all <==> k in l || k in rest;
    }
    forall i, j | 0 <= i < j < |all| ensures all[i] in t && all[j] in t && Precedes(t, idLess, all[i], all[j]) {
      if i < |l| <= j {
        assert l[i] in l && rest[j - |l|] in rest;
      }
    }
  }

  lemma ListsNothing(t: Tables, table: Table, idLess: (string, string) -> bool, low: nat)
    requires Pending(t, low) == {}
    ensures Lists([], t, table, idLess, After(low))
  {
    assert forall k | k in t :: t[k].revision > low ==> t[k].revision in Pending(t, low);
  }

  /**
   Paging through a kind of row gives one list: the pages, each in its order, put end to end hold
   every changed row exactly once, in order.
   */
  lemma {:induction false} PagesConcatenate(t: Tables, threshold: nat, limit: nat, table: Table,
                                            idLess: (string, string) -> bool, lists: seq<seq<Key>>)
    requires |lists| == |Pages(t, threshold, limit)|
    requires forall i | 0 <= i < |lists| ::
               var page := Pages(t, threshold, limit)[i];
                 Lists(lists[i], t, table, idLess, Within(page.threshold, page.cut))
    ensures Lists(Concat(lists), t, table, idLess, After(threshold))
    decreases Pending(t, threshold)
  {
    var pending, pages := Pending(t, threshold), Pages(t, threshold, limit);
    hide Lists;
    if pending == {} {
      ListsNothing(t, table, idLess, threshold);
    } else {
      var cut := CutAt(pending, limit);
      PendingAfterCut(t, threshold, cut);
      assert pages[1..] == Pages(t, cut, limit);
      forall i | 0 <= i < |lists[1..]|
        ensures var page := Pages(t, cut, limit)[i];
                Lists(lists[1..][i], t, table, idLess, Within(page.threshold, page.cut))
      {
        assert lists[1..][i] == lists[i + 1] && Pages(t, cut, limit)[i] == pages[i + 1];
      }
      PagesConcatenate(t, cut, limit, table, idLess, lists[1..]);
      assert Lists(lists[0], t, table, idLess, Within(pages[0].threshold, pages[0].cut));
      ListsJoin(lists[0], Concat(lists[1..]), t, table, idLess, threshold, cut);
    }
  }
}
