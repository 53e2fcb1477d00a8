/** Ordering the OUs of a batch so that every parent comes before its children. */
module OuOrder {
  import opened Store
  import opened Sorting

  datatype OrganizationalUnit = OrganizationalUnit(id: string, name: string, parentId: Option<string>,
    changedRevision: nat)

  datatype PlanError = DuplicateOuId(id: string) | CyclicOuHierarchy(id: string)

  datatype Result<+T> = Ok(value: T) | Err(error: PlanError)

  type Index = map<string, OrganizationalUnit>

  function IndexOf(ous: seq<OrganizationalUnit>): Index {
    if ous == [] then map[] else IndexOf(ous[..|ous| - 1])[ous[|ous| - 1].id := ous[|ous| - 1]]
  }

  ghost predicate UniqueIds(ous: seq<OrganizationalUnit>) {
    forall i, j | 0 <= i < j < |ous| :: ous[i].id != ous[j].id
  }

  ghost predicate Indexed(byId: Index) {
    forall id | id in byId :: byId[id].id == id
  }

  /** The parent, if it is in the batch. */
  function ParentIn(byId: Index, id: string): Option<string> {
    if id in byId && byId[id].parentId.Some? && byId[id].parentId.value in byId then byId[id].parentId else None
  }

  /** `n` steps up inside the batch. */
  function Ancestor(byId: Index, id: string, n: nat): Option<string> {
    if n == 0 then Some(id)
    else match Ancestor(byId, id, n - 1) case None => None case Some(below) => ParentIn(byId, below)
  }

  ghost predicate OnCycle(byId: Index, id: string) {
    exists n: nat :: n >= 1 && Ancestor(byId, id, n) == Some(id)
  }

  ghost predicate Acyclic(byId: Index) {
    forall id | id in byId :: !OnCycle(byId, id)
  }

  predicate Holds(ous: seq<OrganizationalUnit>, id: string) {
    exists i :: 0 <= i < |ous| && ous[i].id == id
  }

  /** Every OU comes after its in-batch parent. */
  ghost predicate ParentsFirst(byId: Index, ordered: seq<OrganizationalUnit>) {
    forall i | 0 <= i < |ordered| ::
      ParentIn(byId, ordered[i].id).Some? ==> Holds(ordered[..i], ParentIn(byId, ordered[i].id).value)
  }

  /** What the traversal keeps: `true` marks exactly the OUs already placed, parents first. */
  ghost predicate Traversal(byId: Index, visiting: map<string, bool>, ordered: seq<OrganizationalUnit>) {
    && Indexed(byId)
    && visiting.Keys <= byId.Keys
    && (forall i | 0 <= i < |ordered| ::
          ordered[i].id in visiting && visiting[ordered[i].id] && byId[ordered[i].id] == ordered[i])
    && UniqueIds(ordered)
    && (forall id | id in visiting && visiting[id] :: Holds(ordered, id))
    && ParentsFirst(byId, ordered)
  }

  /** The OUs being visited all have `id` above them. */
  ghost predicate LeadsTo(byId: Index, visiting: map<string, bool>, id: string) {
    forall g | g in visiting && !visiting[g] :: exists n: nat :: n >= 1 && Ancestor(byId, g, n) == Some(id)
  }

  lemma LeadsToParent(byId: Index, visiting: map<string, bool>, id: string, parent: string)
    requires LeadsTo(byId, visiting, id) && ParentIn(byId, id) == Some(parent)
    ensures LeadsTo(byId, visiting[id := false], parent)
  {
    var visiting' := visiting[id := false];
    forall g | g in visiting' && !visiting'[g]
      ensures exists n: nat :: n >= 1 && Ancestor(byId, g, n) == Some(parent)
    {
      if g == id {
        assert Ancestor(byId, g, 0) == Some(id);
        assert Ancestor(byId, g, 1) == Some(parent);
      } else {
        var n: nat :| n >= 1 && Ancestor(byId, g, n) == Some(id);
        assert Ancestor(byId, g, n + 1) == Some(parent);
      }
    }
  }

  lemma PlaceLast(byId: Index, visiting: map<string, bool>, ordered: seq<OrganizationalUnit>, ou: OrganizationalUnit)
    requires Traversal(byId, visiting, ordered) && ou.id in visiting && !visiting[ou.id] && byId[ou.id] == ou
    requires ParentIn(byId, ou.id).Some? ==> Holds(ordered, ParentIn(byId, ou.id).value)
    ensures Traversal(byId, visiting[ou.id := true], ordered + [ou])
  {
    var ordered' := ordered + [ou];
    assert ordered'[..|ordered|] == ordered;
    forall i | 0 <= i < |ordered| ensures ordered'[..i] == ordered[..i] {}
    forall id | id in visiting[ou.id := true] && visiting[ou.id := true][id] ensures Holds(ordered', id) {
      if id == ou.id {
        assert ordered'[|ordered|].id == id;
      } else {
        var i :| 0 <= i < |ordered| && ordered[i].id == id;
        assert ordered'[i].id == id;
      }
    }
  }

  /** Depth-first: place the parents, then the OU itself; fail on an OU that is still being visited. */
  method Visit(ou: OrganizationalUnit, byId: Index, visiting: map<string, bool>, ordered: seq<OrganizationalUnit>)
    returns (visiting': map<string, bool>, ordered': seq<OrganizationalUnit>, error: Option<PlanError>)
    requires Traversal(byId, visiting, ordered) && LeadsTo(byId, visiting, ou.id)
    requires ou.id in byId && byId[ou.id] == ou
    ensures error.None? ==> Traversal(byId, visiting', ordered') && ou.id in visiting' && visiting'[ou.id]
    ensures error.None? ==> forall id | id in visiting :: id in visiting' && visiting'[id] == visiting[id]
    ensures error.None? ==> forall id | id in visiting' && id !in visiting :: visiting'[id]
    ensures error.Some? ==> error.value.CyclicOuHierarchy? && error.value.id in byId && OnCycle(byId, error.value.id)
    decreases byId.Keys - visiting.Keys
  {
    visiting', ordered', error := visiting, ordered, None;
    if ou.id in visiting {
      if !visiting[ou.id] {
        error := Some(CyclicOuHierarchy(ou.id));
      }
      return;
    }
    visiting' := visiting[ou.id := false];
    if ou.parentId.Some? && ou.parentId.value in byId {
      LeadsToParent(byId, visiting, ou.id, ou.parentId.value);
      assert ou.id in byId.Keys - visiting.Keys && ou.id !in byId.Keys - visiting'.Keys;
      visiting', ordered', error := Visit(byId[ou.parentId.value], byId, visiting', ordered);
      if error.Some? { return; }
    }
    if ou.id in visiting' && !visiting'[ou.id] {
      PlaceLast(byId, visiting', ordered', ou);
      ordered' := ordered' + [ou];
      visiting' := visiting'[ou.id := true];
    }
  }

  lemma {:induction false} AncestorsEarlier(byId: Index, ordered: seq<OrganizationalUnit>, i: nat, n: nat)
    requires Indexed(byId) && ParentsFirst(byId, ordered) && i < |ordered| && n >= 1
    ensures Ancestor(byId, ordered[i].id, n).Some? ==> Holds(ordered[..i], Ancestor(byId, ordered[i].id, n).value)
  {
    var id := ordered[i].id;
    if n == 1 {
      assert Ancestor(byId, id, 0) == Some(id);
    } else if Ancestor(byId, id, n).Some? {
      AncestorsEarlier(byId, ordered, i, n - 1);
      var j :| 0 <= j < i && ordered[j].id == Ancestor(byId, id, n - 1).value;
      var h :| 0 <= h < j && ordered[..j][h].id == Ancestor(byId, id, n).value;
      assert ordered[..i][h].id == Ancestor(byId, id, n).value;
    }
  }

  lemma OrderedIsAcyclic(byId: Index, ordered: seq<OrganizationalUnit>)
    requires Indexed(byId) && ParentsFirst(byId, ordered) && UniqueIds(ordered)
    requires forall id | id in byId :: Holds(ordered, id)
    ensures Acyclic(byId)
  {
    forall id | id in byId ensures !OnCycle(byId, id) {
      var i :| 0 <= i < |ordered| && ordered[i].id == id;
      forall n: nat | n >= 1 ensures Ancestor(byId, id, n) != Some(id) {
        AncestorsEarlier(byId, ordered, i, n);
      }
    }
  }

  lemma {:induction false} IndexOfUnique(ous: seq<OrganizationalUnit>)
    ensures Indexed(IndexOf(ous))
    ensures forall id :: id in IndexOf(ous) <==> Holds(ous, id)
    ensures UniqueIds(ous) ==>
              forall i | 0 <= i < |ous| :: ous[i].id in IndexOf(ous) && IndexOf(ous)[ous[i].id] == ous[i]
  {
    if ous != [] {
      var init, last := ous[..|ous| - 1], ous[|ous| - 1];
      IndexOfUnique(init);
      forall id ensures Holds(ous, id) <==> Holds(init, id) || id == last.id {
        if Holds(init, id) {
          var i :| 0 <= i < |init| && init[i].id == id;
          assert ous[i].id == id;
        }
        if Holds(ous, id) && id != last.id {
          var i :| 0 <= i < |ous| && ous[i].id == id;
          assert init[i].id == id;
        }
      }
    }
  }

  lemma {:induction false} CountWithoutRepeats<T(!new)>(s: seq<T>, x: T)
    requires NoRepeats(s)
    ensures multiset(s)[x] == if x in s then 1 else 0
  {
    if s != [] {
      var init, last := s[..|s| - 1], s[|s| - 1];
      assert s == init + [last];
      CountWithoutRepeats(init, x);
    }
  }

  lemma SamePermutation<T(!new)>(a: seq<T>, b: seq<T>)
    requires NoRepeats(a) && NoRepeats(b) && forall x :: x in a <==> x in b
    ensures multiset(a) == multiset(b)
  {
    forall x ensures multiset(a)[x] == multiset(b)[x] {
      CountWithoutRepeats(a, x);
      CountWithoutRepeats(b, x);
    }
  }

  lemma PlacedExactly(byId: Index, visiting: map<string, bool>, ordered: seq<OrganizationalUnit>,
                      ous: seq<OrganizationalUnit>, ou: OrganizationalUnit)
    requires Traversal(byId, visiting, ordered) && UniqueIds(ous) && byId == IndexOf(ous)
    requires forall i | 0 <= i < |ous| :: ous[i].id in visiting && visiting[ous[i].id]
    ensures ou in ordered <==> ou in ous
  {
    IndexOfUnique(ous);
    hide IndexOf, ParentsFirst, UniqueIds, Indexed;
    if ou in ous {
      var i :| 0 <= i < |ordered| && ordered[i].id == ou.id;
      assert ordered[i] == ou;
    }
    if ou in ordered {
      var i :| 0 <= i < |ous| && ous[i].id == ou.id;
      assert ous[i] == ou;
    }
  }

  lemma TraversalComplete(byId: Index, visiting: map<string, bool>, ordered: seq<OrganizationalUnit>,
                          ous: seq<OrganizationalUnit>)
    requires Traversal(byId, visiting, ordered) && UniqueIds(ous) && byId == IndexOf(ous)
    requires forall i | 0 <= i < |ous| :: ous[i].id in visiting && visiting[ous[i].id]
    ensures multiset(ordered) == multiset(ous)
    ensures Acyclic(byId)
  {
    hide IndexOf, ParentsFirst, Acyclic;
    forall ou ensures ou in ordered <==> ou in ous {
      PlacedExactly(byId, visiting, ordered, ous, ou);
    }
    SamePermutation(ordered, ous);
    forall id | id in byId ensures Holds(ordered, id) {
      IndexOfUnique(ous);
      var i :| 0 <= i < |ous| && ous[i].id == id;
    }
    OrderedIsAcyclic(byId, ordered);
  }

  lemma IndexGrows(ous: seq<OrganizationalUnit>, i: nat)
    requires i < |ous| && UniqueIds(ous[..i])
    ensures IndexOf(ous[..i + 1]) == IndexOf(ous[..i])[ous[i].id := ous[i]]
    ensures ous[i].id !in IndexOf(ous[..i]) ==> UniqueIds(ous[..i + 1])
    ensures ous[i].id in IndexOf(ous[..i]) ==> exists j :: 0 <= j < i && ous[j].id == ous[i].id
  {
    assert ous[..i + 1][..i] == ous[..i];
    IndexOfUnique(ous[..i]);
    hide IndexOf;
    if Holds(ous[..i], ous[i].id) {
      var j :| 0 <= j < i && ous[..i][j].id == ous[i].id;
      assert ous[j].id == ous[i].id;
    } else {
      assert forall j | 0 <= j < i :: ous[..i][j].id != ous[i].id;
    }
  }

  method BuildIndex(ous: seq<OrganizationalUnit>) returns (r: Result<Index>)
    ensures r.Ok? ==> UniqueIds(ous) && r.value == IndexOf(ous)
    ensures r.Err? ==> r.error.DuplicateOuId?
    ensures r.Err? ==> exists i, j :: 0 <= i < j < |ous| && ous[i].id == ous[j].id == r.error.id
  {
    var byId: Index := map[];
    assert IndexOf(ous[..0]) == map[];
    hide IndexOf;
    for i := 0 to |ous|
      invariant byId == IndexOf(ous[..i]) && UniqueIds(ous[..i])
    {
      IndexGrows(ous, i);
      if ous[i].id in byId {
        return Err(DuplicateOuId(ous[i].id));
      }
      byId := byId[ous[i].id := ous[i]];
    }
    assert ous[..|ous|] == ous;
    r := Ok(byId);
  }

  /**
   Succeeds exactly when the IDs are unique and the hierarchy inside the batch has no cycle; the
   result is the batch's OUs, each once, parents first.  A failure names an ID at fault.
   */
  method OrderedOrganizationalUnits(ous: seq<OrganizationalUnit>) returns (r: Result<seq<OrganizationalUnit>>)
    ensures r.Ok? <==> UniqueIds(ous) && Acyclic(IndexOf(ous))
    ensures r.Ok? ==> multiset(r.value) == multiset(ous) && ParentsFirst(IndexOf(ous), r.value)
    ensures r.Err? && r.error.DuplicateOuId? ==>
              exists i, j :: 0 <= i < j < |ous| && ous[i].id == ous[j].id == r.error.id
    ensures r.Err? && r.error.CyclicOuHierarchy? ==> UniqueIds(ous) && OnCycle(IndexOf(ous), r.error.id)
  {
    var index := BuildIndex(ous);
    if index.Err? {
      return Err(index.error);
    }
    var byId := index.value;
    IndexOfUnique(ous);
    var ordered: seq<OrganizationalUnit> := [];
    var visiting: map<string, bool> := map[];
    hide IndexOf, OnCycle, ParentsFirst;
    assert ParentsFirst(byId, []) by { NothingPlaced(byId); }
    for i := 0 to |ous|
      invariant Traversal(byId, visiting, ordered)
      invariant forall id | id in visiting :: visiting[id]
      invariant forall j | 0 <= j < i :: ous[j].id in visiting
    {
      var error;
      visiting, ordered, error := Visit(ous[i], byId, visiting, ordered);
      if error.Some? {
        return Err(error.value);
      }
    }
    TraversalComplete(byId, visiting, ordered, ous);
    r := Ok(ordered);
  }

  lemma NothingPlaced(byId: Index)
    ensures ParentsFirst(byId, [])
  {
  }
}
