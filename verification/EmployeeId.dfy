/** Automatic employee IDs: a persistent counter, skipping IDs that are taken. */
module EmployeeId {
  import opened Store
  import opened Decimal

  const WIDTH: nat := 6
  const MAX_VALUE: nat := 0x7fff_ffff_ffff_ffff

  /** Zero-padded to six places. */
  function Pad(n: nat): string {
    var digits := Show(n);
    if |digits| >= WIDTH then digits else Zeros(WIDTH - |digits|) + digits
  }

  lemma PadIsNumeral(n: nat)
    ensures AllDigits(Pad(n)) && Value(Pad(n)) == n
  {
    ShowIsNumeral(n);
    if |Show(n)| < WIDTH {
      ValueOfZerosThen(WIDTH - |Show(n)|, Show(n));
    }
  }

  lemma {:induction false} ZerosLength(k: nat)
    ensures |Zeros(k)| == k && forall i | 0 <= i < k :: Zeros(k)[i] == '0'
  {
    if k > 0 { ZerosLength(k - 1); }
  }

  /** Six places, filled with zeros on the left; longer numbers as they are. */
  lemma PadShape(n: nat)
    ensures |Pad(n)| == if |Show(n)| < 6 then 6 else |Show(n)|
    ensures Pad(n)[|Pad(n)| - |Show(n)|..] == Show(n)
    ensures forall i | 0 <= i < |Pad(n)| - |Show(n)| :: Pad(n)[i] == '0'
  {
    if |Show(n)| < WIDTH { ZerosLength(WIDTH - |Show(n)|); }
  }

  lemma PadInjective(n: nat, m: nat)
    requires Pad(n) == Pad(m)
    ensures n == m
  {
    PadIsNumeral(n);
    PadIsNumeral(m);
  }

  /** The numeric IDs in use from `n` upwards; every skipped ID leaves this finite set. */
  function Taken(users: set<string>, n: nat): set<string> {
    set u | u in users && AllDigits(u) && Value(u) >= n
  }

  lemma SkipShrinks(users: set<string>, n: nat)
    requires Pad(n) in users
    ensures Taken(users, n + 1) < Taken(users, n)
  {
    PadIsNumeral(n);
    assert Pad(n) in Taken(users, n) && Pad(n) !in Taken(users, n + 1);
  }

  /** The first number from `n` upwards whose ID is free. */
  function FirstFree(users: set<string>, n: nat): (m: nat)
    ensures m >= n && Pad(m) !in users && forall i | n <= i < m :: Pad(i) in users
    decreases Taken(users, n)
  {
    if Pad(n) in users then
      SkipShrinks(users, n);
      FirstFree(users, n + 1)
    else n
  }

  /** The ID of the first free number, unless that number is above `max`. */
  function IdUpTo(users: set<string>, next: nat, max: nat): Option<string> {
    if FirstFree(users, next) <= max then Some(Pad(FirstFree(users, next))) else None
  }

  /** Preview and allocation agree except where the last number of the column is the first free one. */
  lemma PreviewAgreesExactly(users: set<string>, next: nat)
    ensures IdUpTo(users, next, MAX_VALUE) == IdUpTo(users, next, MAX_VALUE - 1)
            <==> FirstFree(users, next) != MAX_VALUE
  {
  }

  /** Where they differ: an empty register whose counter stands at the last number. */
  lemma PreviewDiffers()
    ensures IdUpTo({}, MAX_VALUE, MAX_VALUE).Some? && IdUpTo({}, MAX_VALUE, MAX_VALUE - 1).None?
  {
  }

  /** Inside the transaction; None when the counter column overflows. */
  method AllocateEmployeeId(users: set<string>, next: nat) returns (r: Option<string>, next': nat)
    ensures r == IdUpTo(users, next, 0x7fff_ffff_ffff_fffe)
    ensures r.Some? ==> next' == FirstFree(users, next) + 1 && r.value !in users
  {
    next' := next;
    while true
      invariant next <= next' && FirstFree(users, next') == FirstFree(users, next)
      decreases Taken(users, next')
    {
      if next' >= MAX_VALUE {
        return None, next';
      }
      next' := next' + 1;
      var candidate := Pad(next' - 1);
      if candidate !in users {
        return Some(candidate), next';
      }
      SkipShrinks(users, next' - 1);
    }
  }

  /** Reads the counter without consuming it; None when the numbers are exhausted. */
  method PreviewNextEmployeeId(users: set<string>, next: nat) returns (r: Option<string>)
    requires next <= MAX_VALUE
    ensures r == IdUpTo(users, next, 0x7fff_ffff_ffff_ffff)
  {
    var value := next;
    while true
      invariant next <= value <= MAX_VALUE && FirstFree(users, value) == FirstFree(users, next)
      decreases Taken(users, value)
    {
      var candidate := Pad(value);
      if candidate !in users {
        return Some(candidate);
      }
      SkipShrinks(users, value);
      if value == MAX_VALUE {
        return None;
      }
      value := value + 1;
    }
  }

  // ----- Any run of creations, deletions and rollbacks -----

  datatype Event =
    | AutoCreate(commits: bool)
    | ExplicitCreate(id: string)
    | Delete(id: string)

  /** The users, the counter, and the numbers handed out by committed automatic creations. */
  datatype Registry = Registry(users: set<string>, next: nat, issued: seq<nat>)

  function Step(r: Registry, e: Event): Registry {
    match e
    case AutoCreate(commits) =>
      var m := FirstFree(r.users, r.next);
      if commits && m < MAX_VALUE then Registry(r.users + {Pad(m)}, m + 1, r.issued + [m]) else r
    case ExplicitCreate(id) => r.(users := r.users + {id})
    case Delete(id) => r.(users := r.users - {id})
  }

  function Steps(r: Registry, events: seq<Event>): Registry {
    if events == [] then r else Step(Steps(r, events[..|events| - 1]), events[|events| - 1])
  }

  ghost predicate Increasing(r: Registry) {
    && (forall i, j | 0 <= i < j < |r.issued| :: r.issued[i] < r.issued[j])
    && (forall i | 0 <= i < |r.issued| :: r.issued[i] < r.next)
  }

  lemma {:induction false} IssuedIncrease(r: Registry, events: seq<Event>)
    requires r.issued == []
    ensures Increasing(Steps(r, events))
  {
    if events != [] {
      IssuedIncrease(r, events[..|events| - 1]);
    }
  }

  /** No two committed automatic creations ever get the same ID, whatever is deleted in between. */
  lemma NeverReissued(r: Registry, events: seq<Event>, i: nat, j: nat)
    requires r.issued == [] && i < j < |Steps(r, events).issued|
    ensures var issued := Steps(r, events).issued; issued[i] < issued[j] && Pad(issued[i]) != Pad(issued[j])
  {
    IssuedIncrease(r, events);
    var issued := Steps(r, events).issued;
    if Pad(issued[i]) == Pad(issued[j]) {
      PadInjective(issued[i], issued[j]);
    }
  }
}
