/** Distinguished names of OUs: escaping, the memoised builder, and what the strings determine. */
module Dn {
  import opened Store
  import opened Sorting

  // ----- Escaping an attribute value -----

  predicate IsSpecial(c: char) {
    c == ',' || c == '+' || c == '"' || c == '\\' || c == '<' || c == '>' || c == ';' || c == '='
  }

  predicate NeedsEscape(s: string, i: nat)
    requires i < |s|
  {
    || (i == 0 && (s[i] == ' ' || s[i] == '#'))
    || (i == |s| - 1 && s[i] == ' ')
    || IsSpecial(s[i])
  }

  function EscapeFrom(s: string, i: nat): string
    requires i <= |s|
    decreases |s| - i
  {
    if i == |s| then ""
    else (if NeedsEscape(s, i) then ['\\', s[i]] else [s[i]]) + EscapeFrom(s, i + 1)
  }

  function Escape(s: string): string { EscapeFrom(s, 0) }

  /** Drops every escaping backslash. */
  function Unescape(t: string): string {
    if t == "" then ""
    else if t[0] == '\\' && |t| >= 2 then [t[1]] + Unescape(t[2..])
    else [t[0]] + Unescape(t[1..])
  }

  /** Reads an escaped value up to the first comma that is not escaped. */
  function ReadValue(t: string): (string, string) {
    if t == "" then ("", "")
    else if t[0] == '\\' && |t| >= 2 then
      var (value, rest) := ReadValue(t[2..]); ([t[1]] + value, rest)
    else if t[0] == ',' then ("", t[1..])
    else
      var (value, rest) := ReadValue(t[1..]); ([t[0]] + value, rest)
  }

  lemma {:induction false} UnescapeFrom(s: string, i: nat)
    requires i <= |s|
    ensures Unescape(EscapeFrom(s, i)) == s[i..]
    decreases |s| - i
  {
    if i < |s| {
      UnescapeFrom(s, i + 1);
      var rest := EscapeFrom(s, i + 1);
      if NeedsEscape(s, i) {
        assert EscapeFrom(s, i)[2..] == rest;
      } else {
        assert s[i] != '\\';
        assert EscapeFrom(s, i)[1..] == rest;
      }
      assert s[i..] == [s[i]] + s[i + 1..];
    }
  }

  /** Unescaping gives back every value. */
  lemma UnescapeInverts(s: string)
    ensures Unescape(Escape(s)) == s
  {
    UnescapeFrom(s, 0);
    assert s[0..] == s;
  }

  lemma {:induction false} ReadEscaped(s: string, i: nat, rest: string)
    requires i <= |s|
    ensures ReadValue(EscapeFrom(s, i) + "," + rest) == (s[i..], rest)
    decreases |s| - i
  {
    var t := EscapeFrom(s, i) + "," + rest;
    if i == |s| {
      assert t == "," + rest;
      assert t[0] == ',' && t[1..] == rest && s[i..] == "";
    } else {
      ReadEscaped(s, i + 1, rest);
      var tail := EscapeFrom(s, i + 1) + "," + rest;
      if NeedsEscape(s, i) {
        assert t == ['\\', s[i]] + tail;
        assert t[2..] == tail;
      } else {
        assert t == [s[i]] + tail;
        assert t[1..] == tail;
      }
      assert s[i..] == [s[i]] + s[i + 1..];
    }
  }

  /** Reading an escaped text unit by unit: an escaped character, or a bare one. */
  datatype Unit = Escaped(character: char) | Bare(character: char)

  function Units(t: string): seq<Unit> {
    if t == "" then []
    else if t[0] == '\\' && |t| >= 2 then [Escaped(t[1])] + Units(t[2..])
    else [Bare(t[0])] + Units(t[1..])
  }

  /** The unit for position `i` of a value: which characters section 2.4 of RFC 4514 has escaped, and where. */
  function UnitFor(s: string, i: nat): Unit
    requires i < |s|
  {
    if s[i] in {',', '+', '"', '\\', '<', '>', ';', '='} then Escaped(s[i])
    else if i == 0 && s[i] in {' ', '#'} then Escaped(s[i])
    else if i == |s| - 1 && s[i] == ' ' then Escaped(s[i])
    else Bare(s[i])
  }

  lemma {:induction false} UnitsFrom(s: string, i: nat)
    requires i <= |s|
    ensures Units(EscapeFrom(s, i)) == seq(|s| - i, k requires 0 <= k < |s| - i => UnitFor(s, i + k))
    decreases |s| - i
  {
    if i < |s| {
      UnitsFrom(s, i + 1);
      var t, rest := EscapeFrom(s, i), EscapeFrom(s, i + 1);
      if NeedsEscape(s, i) {
        assert t == ['\\', s[i]] + rest && t[2..] == rest;
      } else {
        assert t == [s[i]] + rest && t[1..] == rest;
      }
      assert Units(t) == [UnitFor(s, i)] + Units(rest);
    }
  }

  function Written(units: seq<Unit>): string {
    if units == [] then ""
    else (if units[0].Escaped? then ['\\', units[0].character] else [units[0].character]) + Written(units[1..])
  }

  lemma {:induction false} WrittenUnits(t: string)
    ensures Written(Units(t)) == t
    decreases |t|
  {
    if t != "" {
      if t[0] == '\\' && |t| >= 2 {
        WrittenUnits(t[2..]);
        assert Units(t)[1..] == Units(t[2..]);
      } else {
        WrittenUnits(t[1..]);
        assert Units(t)[1..] == Units(t[1..]);
      }
    }
  }

  /**
   The escaped text reads as the value's characters, in order; a character is escaped exactly when
   it is special, a leading space or number sign, or a trailing space.
   */
  lemma EscapedExactly(s: string)
    ensures |Units(Escape(s))| == |s|
    ensures forall i | 0 <= i < |s| :: Units(Escape(s))[i] == UnitFor(s, i)
    ensures Escape(s) == Written(seq(|s|, i requires 0 <= i < |s| => UnitFor(s, i)))
  {
    UnitsFrom(s, 0);
    WrittenUnits(Escape(s));
    assert Units(Escape(s)) == seq(|s|, i requires 0 <= i < |s| => UnitFor(s, i));
  }

  lemma EscapeStep(s: string, i: nat)
    requires i < |s|
    ensures EscapeFrom(s, i) == (if NeedsEscape(s, i) then ['\\', s[i]] else [s[i]]) + EscapeFrom(s, i + 1)
  {
  }

  lemma EscapeEnd(s: string)
    ensures EscapeFrom(s, |s|) == ""
  {
  }

  method EscapeLdapDnValue(value: string) returns (escaped: string)
    ensures escaped == Escape(value)
    ensures Unescape(escaped) == value
    ensures |Units(escaped)| == |value| && forall i | 0 <= i < |value| :: Units(escaped)[i] == UnitFor(value, i)
  {
    escaped := "";
    assert escaped + EscapeFrom(value, 0) == Escape(value);
    hide EscapeFrom;
    for i := 0 to |value|
      invariant escaped + EscapeFrom(value, i) == Escape(value)
    {
      ghost var before := escaped;
      var character := value[i];
      if (i == 0 && (character == ' ' || character == '#')) || (i == |value| - 1 && character == ' ')
        || IsSpecial(character) {
        escaped := escaped + ['\\'];
      }
      escaped := escaped + [character];
      assert escaped == before + if NeedsEscape(value, i) then ['\\', character] else [character];
      EscapeStep(value, i);
      assert escaped + EscapeFrom(value, i + 1) == before + EscapeFrom(value, i);
    }
    EscapeEnd(value);
    UnescapeInverts(value);
    EscapedExactly(value);
  }

  // ----- The DN of an OU -----

  datatype Ou = Ou(name: string, parentId: Option<string>)

  type Ous = map<string, Ou>

  /** The chain of parents from `id` ends at a root OU after `n` steps, every OU on it being present. */
  predicate Reaches(ous: Ous, id: string, n: nat)
    decreases n
  {
    && id in ous
    && match ous[id].parentId {
         case None => n == 0
         case Some(parent) => n > 0 && Reaches(ous, parent, n - 1)
       }
  }

  ghost predicate Grounded(ous: Ous, id: string) {
    exists n: nat :: Reaches(ous, id, n)
  }

  /** One component in front of a DN. */
  function Component(name: string, rest: string): string {
    "OU=" + Escape(name) + "," + rest
  }

  function DnOf(ous: Ous, root: string, id: string, n: nat): string
    requires Reaches(ous, id, n)
    decreases n
  {
    Component(ous[id].name, if n == 0 then root else DnOf(ous, root, ous[id].parentId.value, n - 1))
  }

  /** The names on the chain, from the OU up to the root. */
  function Names(ous: Ous, id: string, n: nat): seq<string>
    requires Reaches(ous, id, n)
    decreases n
  {
    [ous[id].name] + if n == 0 then [] else Names(ous, ous[id].parentId.value, n - 1)
  }

  lemma {:induction false} DnLonger(ous: Ous, root: string, id: string, n: nat)
    requires Reaches(ous, id, n)
    ensures |DnOf(ous, root, id, n)| > |root|
    decreases n
  {
    if n > 0 {
      DnLonger(ous, root, ous[id].parentId.value, n - 1);
    }
  }

  lemma ComponentInjective(name: string, rest: string, name': string, rest': string)
    ensures Component(name, rest) == Component(name', rest') <==> name == name' && rest == rest'
  {
    ReadComponent(name, rest);
    ReadComponent(name', rest');
  }

  /** A component can be read back: its name and what follows it. */
  lemma ReadComponent(name: string, rest: string)
    ensures |Component(name, rest)| >= 3 && ReadValue(Component(name, rest)[3..]) == (name, rest)
  {
    var t := Component(name, rest);
    assert t == "OU=" + (Escape(name) + "," + rest);
    assert t[3..] == Escape(name) + "," + rest;
    ReadEscaped(name, 0, rest);
    assert name[0..] == name;
  }

  lemma ConsInjective(x: string, xs: seq<string>, y: string, ys: seq<string>)
    ensures [x] + xs == [y] + ys <==> x == y && xs == ys
  {
    var a, b := [x] + xs, [y] + ys;
    assert a[0] == x && b[0] == y && a[1..] == xs && b[1..] == ys;
  }

  /**
   Under one mirror root, two OUs, even of two different stores, have the same DN string only
   if the whole chains of names are the same.
   */
  lemma {:induction false} DnDeterminesNames(ous: Ous, id: string, n: nat, ous': Ous, id': string, n': nat,
                                             root: string)
    requires Reaches(ous, id, n) && Reaches(ous', id', n')
    ensures DnOf(ous, root, id, n) == DnOf(ous', root, id', n') <==> Names(ous, id, n) == Names(ous', id', n')
    decreases n
  {
    hide Component;
    var name, name' := ous[id].name, ous'[id'].name;
    var rest := if n == 0 then root else DnOf(ous, root, ous[id].parentId.value, n - 1);
    var rest' := if n' == 0 then root else DnOf(ous', root, ous'[id'].parentId.value, n' - 1);
    var names := if n == 0 then [] else Names(ous, ous[id].parentId.value, n - 1);
    var names' := if n' == 0 then [] else Names(ous', ous'[id'].parentId.value, n' - 1);
    ComponentInjective(name, rest, name', rest');
    ConsInjective(name, names, name', names');
    assert rest == rest' <==> names == names' by {
      if n > 0 && n' > 0 {
        DnDeterminesNames(ous, ous[id].parentId.value, n - 1, ous', ous'[id'].parentId.value, n' - 1, root);
      } else if n > 0 {
        DnLonger(ous, root, ous[id].parentId.value, n - 1);
      } else if n' > 0 {
        DnLonger(ous', root, ous'[id'].parentId.value, n' - 1);
      }
    }
  }

  // ----- The memoised builder -----

  /** `n` steps up; the OU reached need not be present. */
  function Up(ous: Ous, id: string, n: nat): Option<string> {
    if n == 0 then Some(id)
    else
      match Up(ous, id, n - 1)
      case None => None
      case Some(below) => if below in ous then ous[below].parentId else None
  }

  lemma {:induction false} UpFromReaches(ous: Ous, id: string, n: nat, k: nat)
    requires Reaches(ous, id, n)
    ensures k <= n ==> Up(ous, id, k).Some? && Reaches(ous, Up(ous, id, k).value, n - k)
    ensures k > n ==> Up(ous, id, k).None?
  {
    if k > 0 {
      UpFromReaches(ous, id, n, k - 1);
    }
  }

  lemma {:induction false} ReachesUnique(ous: Ous, id: string, n: nat, m: nat)
    requires Reaches(ous, id, n) && Reaches(ous, id, m)
    ensures n == m
    decreases n
  {
    if n > 0 && m > 0 {
      ReachesUnique(ous, ous[id].parentId.value, n - 1, m - 1);
    }
  }

  lemma MissingNotGrounded(ous: Ous, id: string, k: nat)
    requires Up(ous, id, k).Some? && Up(ous, id, k).value !in ous
    ensures !Grounded(ous, id)
  {
    if n: nat :| Reaches(ous, id, n) {
      UpFromReaches(ous, id, n, k);
    }
  }

  ghost predicate OnLoop(ous: Ous, id: string) {
    exists n: nat :: n >= 1 && Up(ous, id, n) == Some(id)
  }

  lemma LoopNotGrounded(ous: Ous, id: string, k: nat)
    requires Up(ous, id, k).Some? && OnLoop(ous, Up(ous, id, k).value)
    ensures !Grounded(ous, id)
  {
    if n: nat :| Reaches(ous, id, n) {
      UpFromReaches(ous, id, n, k);
      var x := Up(ous, id, k).value;
      var m: nat :| m >= 1 && Up(ous, x, m) == Some(x);
      UpFromReaches(ous, x, n - k, m);
      ReachesUnique(ous, x, n - k, n - k - m);
    }
  }

  /** Whether the walk up from `id` ends at a root; `visited` are the OUs below it. */
  predicate HasChain(ous: Ous, id: string, visited: set<string>)
    decreases ous.Keys - visited
  {
    && id in ous
    && id !in visited
    && (ous[id].parentId.Some? ==> HasChain(ous, ous[id].parentId.value, visited + {id}))
  }

  lemma {:induction false} HasChainGrounded(ous: Ous, id: string, visited: set<string>)
    requires HasChain(ous, id, visited)
    ensures Grounded(ous, id)
    decreases ous.Keys - visited
  {
    if ous[id].parentId.Some? {
      HasChainGrounded(ous, ous[id].parentId.value, visited + {id});
      var n: nat :| Reaches(ous, ous[id].parentId.value, n);
      assert Reaches(ous, id, n + 1);
    } else {
      assert Reaches(ous, id, 0);
    }
  }

  ghost predicate Farther(ous: Ous, id: string, n: nat) {
    exists m: nat :: m > n && Reaches(ous, id, m)
  }

  lemma {:induction false} ReachesHasChain(ous: Ous, id: string, n: nat, visited: set<string>)
    requires Reaches(ous, id, n)
    requires forall v | v in visited :: Farther(ous, v, n)
    ensures HasChain(ous, id, visited)
    decreases n
  {
    if id in visited {
      var m: nat :| m > n && Reaches(ous, id, m);
      ReachesUnique(ous, id, n, m);
    } else if n > 0 {
      forall v | v in visited + {id} ensures Farther(ous, v, n - 1) {
        if v != id {
          var m: nat :| m > n && Reaches(ous, v, m);
        }
      }
      ReachesHasChain(ous, ous[id].parentId.value, n - 1, visited + {id});
    }
  }

  /** Walking up with a set of visited OUs decides whether an OU has a complete chain of parents. */
  lemma HasChainExactly(ous: Ous, id: string)
    ensures HasChain(ous, id, {}) <==> Grounded(ous, id)
  {
    if HasChain(ous, id, {}) {
      HasChainGrounded(ous, id, {});
    }
    if n: nat :| Reaches(ous, id, n) {
      ReachesHasChain(ous, id, n, {});
    }
  }

  /** Every OU of `part` is in `ous`, as it is there. */
  ghost predicate PartOf(part: Ous, ous: Ous) {
    forall id | id in part :: id in ous && ous[id] == part[id]
  }

  lemma {:induction false} ReachesInWhole(part: Ous, ous: Ous, id: string, n: nat)
    requires PartOf(part, ous) && Reaches(part, id, n)
    ensures Reaches(ous, id, n)
    decreases n
  {
    if n > 0 {
      ReachesInWhole(part, ous, part[id].parentId.value, n - 1);
    }
  }

  lemma {:induction false} ReachesInPart(part: Ous, ous: Ous, id: string, n: nat)
    requires PartOf(part, ous) && id in part && Reaches(ous, id, n)
    requires forall x | x in part && part[x].parentId.Some? :: part[x].parentId.value in part
    ensures Reaches(part, id, n)
    decreases n
  {
    if n > 0 {
      ReachesInPart(part, ous, part[id].parentId.value, n - 1);
    }
  }

  /** The DN of a grounded OU. */
  ghost function TheDn(ous: Ous, root: string, id: string): string
    requires Grounded(ous, id)
  {
    var n: nat :| Reaches(ous, id, n);
    DnOf(ous, root, id, n)
  }

  lemma TheDnStep(ous: Ous, root: string, id: string)
    requires id in ous && (ous[id].parentId.Some? ==> Grounded(ous, ous[id].parentId.value))
    ensures Grounded(ous, id)
    ensures TheDn(ous, root, id) ==
            Component(ous[id].name, if ous[id].parentId.None? then root else TheDn(ous, root, ous[id].parentId.value))
    ensures TheDn(ous, root, id) == "OU=" + Escape(ous[id].name) + "," +
            if ous[id].parentId.None? then root else TheDn(ous, root, ous[id].parentId.value)
  {
    if ous[id].parentId.Some? {
      var parent := ous[id].parentId.value;
      var n: nat :| Reaches(ous, parent, n);
      assert Reaches(ous, id, n + 1);
      forall m: nat | Reaches(ous, parent, m) ensures m == n { ReachesUnique(ous, parent, m, n); }
      forall m: nat | Reaches(ous, id, m) ensures m == n + 1 { ReachesUnique(ous, id, m, n + 1); }
    } else {
      assert Reaches(ous, id, 0);
      forall m: nat | Reaches(ous, id, m) ensures m == 0 { ReachesUnique(ous, id, m, 0); }
    }
  }

  /** What the memo table holds is right, and it holds all ancestors of what it holds. */
  ghost predicate MemoValid(ous: Ous, root: string, dns: map<string, string>) {
    forall id | id in dns ::
      && id in ous
      && Grounded(ous, id)
      && dns[id] == TheDn(ous, root, id)
      && (ous[id].parentId.Some? ==> ous[id].parentId.value in dns)
  }

  /** The memo table holds only involved OUs and their ancestors. */
  ghost predicate MemoNeeded(ous: Ous, involved: seq<string>, dns: map<string, string>) {
    forall id | id in dns :: exists i, n: nat :: 0 <= i < |involved| && Up(ous, involved[i], n) == Some(id)
  }

  datatype DnError = MissingOu(id: string) | CyclicHierarchy(id: string)

  datatype DnResult<+T> = Built(value: T) | Failed(error: DnError)

  function Above(chain: seq<string>, j: nat, current: Option<string>): Option<string> {
    if j + 1 < |chain| then Some(chain[j + 1]) else current
  }

  /** The OUs from `start` upwards that are not in the memo table yet, ending below `current`. */
  ghost predicate Chain(ous: Ous, start: string, chain: seq<string>, current: Option<string>) {
    && (forall j | 0 <= j < |chain| :: Up(ous, start, j) == Some(chain[j]) && chain[j] in ous)
    && (forall j | 0 <= j < |chain| :: ous[chain[j]].parentId == Above(chain, j, current))
    && (if current.Some? then Up(ous, start, |chain|) == current else chain != [])
  }

  ghost predicate FaultAbove(ous: Ous, start: string, error: DnError) {
    exists n: nat :: Up(ous, start, n) == Some(error.id) &&
      match error { case MissingOu(id) => id !in ous case CyclicHierarchy(id) => OnLoop(ous, id) }
  }

  lemma {:induction false} UpSplit(ous: Ous, id: string, x: string, n: nat, k: nat)
    requires Up(ous, id, k) == Some(x)
    ensures Up(ous, x, n) == Up(ous, id, k + n)
  {
    if n > 0 {
      UpSplit(ous, id, x, n - 1, k);
    }
  }

  lemma LoopFault(ous: Ous, start: string, chain: seq<string>, current: string)
    requires Chain(ous, start, chain, Some(current)) && current in Elements(chain)
    ensures FaultAbove(ous, start, CyclicHierarchy(current))
  {
    var j :| 0 <= j < |chain| && chain[j] == current;
    UpSplit(ous, start, current, |chain| - j, j);
    assert Up(ous, current, |chain| - j) == Some(current);
    assert Up(ous, start, j) == Some(current);
  }

  lemma MissingFault(ous: Ous, start: string, chain: seq<string>, current: string)
    requires Chain(ous, start, chain, Some(current)) && current !in ous
    ensures FaultAbove(ous, start, MissingOu(current))
  {
    assert Up(ous, start, |chain|) == Some(current);
  }

  /** The cache holds what was looked up, and nothing was looked up twice. */
  ghost predicate CacheValid(ous: Ous, cache: Ous, lookups: seq<string>) {
    && cache.Keys == Elements(lookups)
    && NoRepeats(lookups)
    && (forall id | id in cache :: id in ous && cache[id] == ous[id])
  }

  lemma CacheAdd(ous: Ous, cache: Ous, lookups: seq<string>, id: string)
    requires CacheValid(ous, cache, lookups) && id in ous && id !in cache
    ensures CacheValid(ous, cache[id := ous[id]], lookups + [id])
  {
    assert forall x | x in lookups :: x in Elements(lookups);
  }

  lemma ChainGrows(ous: Ous, start: string, chain: seq<string>, id: string)
    requires Chain(ous, start, chain, Some(id)) && id in ous
    ensures Chain(ous, start, chain + [id], ous[id].parentId)
  {
    var longer := chain + [id];
    forall j | 0 <= j < |chain| ensures longer[j] == chain[j]
      && Above(longer, j, ous[id].parentId) == Above(chain, j, Some(id)) {}
    assert Up(ous, start, |longer|) == ous[id].parentId;
  }

  lemma ElementsAppend(s: seq<string>, x: string)
    ensures Elements(s + [x]) == Elements(s) + {x}
  {
  }

  /** The inner loop: walk up until the memo table, a root, a repetition or a missing OU. */
  method WalkUp(ous: Ous, start: string, dns: map<string, string>, cache: Ous, ghost lookups: seq<string>)
    returns (r: DnResult<seq<string>>, ghost current: Option<string>, cache': Ous, ghost lookups': seq<string>)
    requires CacheValid(ous, cache, lookups)
    ensures CacheValid(ous, cache', lookups')
    ensures r.Built? ==> Chain(ous, start, r.value, current) && (current.Some? ==> current.value in dns)
    ensures r.Failed? ==> FaultAbove(ous, start, r.error)
  {
    var chain: seq<string> := [];
    var id := start;
    var visited: set<string> := {};
    cache', lookups' := cache, lookups;
    hide CacheValid;
    assert Chain(ous, start, chain, Some(id));
    while true
      invariant Chain(ous, start, chain, Some(id))
      invariant visited == Elements(chain) && visited <= ous.Keys
      invariant CacheValid(ous, cache', lookups')
      decreases ous.Keys - visited
    {
      if id in dns {
        return Built(chain), Some(id), cache', lookups';
      }
      if id in visited {
        LoopFault(ous, start, chain, id);
        return Failed(CyclicHierarchy(id)), None, cache', lookups';
      }
      if id !in cache' {
        if id !in ous {
          MissingFault(ous, start, chain, id);
          return Failed(MissingOu(id)), None, cache', lookups';
        }
        CacheAdd(ous, cache', lookups', id);
        cache' := cache'[id := ous[id]];
        lookups' := lookups' + [id];
      }
      CacheHit(ous, cache', lookups', id);
      var unit := cache'[id];
      ChainGrows(ous, start, chain, id);
      ElementsAppend(chain, id);
      hide Chain, Elements, FaultAbove;
      assert id in ous.Keys - visited;
      visited := visited + {id};
      chain := chain + [id];
      if unit.parentId.None? {
        return Built(chain), None, cache', lookups';
      }
      id := unit.parentId.value;
    }
  }

  lemma MemoAdd(ous: Ous, root: string, dns: map<string, string>, id: string)
    requires MemoValid(ous, root, dns) && id in ous
    requires ous[id].parentId.Some? ==> ous[id].parentId.value in dns
    ensures var parentDn := if ous[id].parentId.Some? then dns[ous[id].parentId.value] else root;
            MemoValid(ous, root, dns[id := Component(ous[id].name, parentDn)])
  {
    hide Component;
    TheDnStep(ous, root, id);
    hide Grounded, TheDn;
  }

  /** The "missing parent OU DN" error cannot happen: the parent is always there. */
  lemma ParentPlaced(ous: Ous, start: string, chain: seq<string>, current: Option<string>, dns: map<string, string>,
                     i: nat)
    requires Chain(ous, start, chain, current) && i < |chain|
    requires current.Some? ==> current.value in dns
    requires Elements(chain[i + 1..]) <= dns.Keys
    ensures chain[i] in ous && (ous[chain[i]].parentId.Some? ==> ous[chain[i]].parentId.value in dns)
  {
    assert Up(ous, start, i) == Some(chain[i]);
    assert ous[chain[i]].parentId == Above(chain, i, current);
    assert i + 1 < |chain| ==> chain[i + 1..][0] in Elements(chain[i + 1..]);
  }

  /** The second loop: fill the memo table from the top of the chain down. */
  method FillDown(ous: Ous, root: string, start: string, chain: seq<string>, ghost current: Option<string>,
                  dns: map<string, string>)
    returns (dns': map<string, string>)
    requires Chain(ous, start, chain, current) && (current.Some? ==> current.value in dns)
    requires MemoValid(ous, root, dns)
    ensures MemoValid(ous, root, dns')
    ensures dns'.Keys == dns.Keys + Elements(chain)
  {
    hide Chain, Component, MemoValid;
    dns' := dns;
    for i := |chain| downto 0
      invariant MemoValid(ous, root, dns')
      invariant dns'.Keys == dns.Keys + Elements(chain[i..])
    {
      var id := chain[i];
      assert chain[i..] == [id] + chain[i + 1..];
      ParentPlaced(ous, start, chain, current, dns', i);
      MemoAdd(ous, root, dns', id);
      var parentDn := if ous[id].parentId.Some? then dns'[ous[id].parentId.value] else root;
      dns' := dns'[id := Component(ous[id].name, parentDn)];
    }
    assert chain[0..] == chain;
  }

  lemma ChainNeeded(ous: Ous, involved: seq<string>, i: nat, chain: seq<string>, current: Option<string>,
                    dns: map<string, string>, dns': map<string, string>)
    requires i < |involved| && Chain(ous, involved[i], chain, current) && MemoNeeded(ous, involved, dns)
    requires dns'.Keys == dns.Keys + Elements(chain)
    ensures MemoNeeded(ous, involved, dns')
  {
    forall id | id in dns' ensures exists h, n: nat :: 0 <= h < |involved| && Up(ous, involved[h], n) == Some(id) {
      if id !in dns {
        var j :| 0 <= j < |chain| && chain[j] == id;
        assert Up(ous, involved[i], j) == Some(id);
      }
    }
  }

  lemma StartPlaced(ous: Ous, start: string, chain: seq<string>, current: Option<string>)
    requires Chain(ous, start, chain, current)
    ensures start in Elements(chain) || current == Some(start)
  {
    assert Up(ous, start, 0) == Some(start);
    if chain != [] {
      assert chain[0] in Elements(chain) && Up(ous, start, 0) == Some(chain[0]);
    }
  }

  lemma FaultNotGrounded(ous: Ous, start: string, error: DnError)
    requires FaultAbove(ous, start, error)
    ensures !Grounded(ous, start)
  {
    var n: nat :| Up(ous, start, n) == Some(error.id) &&
      match error { case MissingOu(id) => id !in ous case CyclicHierarchy(id) => OnLoop(ous, id) };
    match error
    case MissingOu(_) => MissingNotGrounded(ous, start, n);
    case CyclicHierarchy(_) => LoopNotGrounded(ous, start, n);
  }

  /** One involved OU: walk up, then fill down. */
  method AddInvolved(ous: Ous, root: string, involved: seq<string>, i: nat, dns: map<string, string>,
                     cache: Ous, ghost lookups: seq<string>)
    returns (r: DnResult<map<string, string>>, cache': Ous, ghost lookups': seq<string>)
    requires i < |involved| && MemoValid(ous, root, dns) && MemoNeeded(ous, involved, dns)
             && CacheValid(ous, cache, lookups)
    ensures CacheValid(ous, cache', lookups')
    ensures r.Built? ==> MemoValid(ous, root, r.value) && MemoNeeded(ous, involved, r.value)
    ensures r.Built? ==> dns.Keys <= r.value.Keys && involved[i] in r.value
    ensures r.Failed? ==> FaultAbove(ous, involved[i], r.error)
  {
    hide Chain, FaultAbove, MemoValid, MemoNeeded, CacheValid;
    var walked;
    ghost var current;
    walked, current, cache', lookups' := WalkUp(ous, involved[i], dns, cache, lookups);
    if walked.Failed? {
      return Failed(walked.error), cache', lookups';
    }
    StartPlaced(ous, involved[i], walked.value, current);
    var dns' := FillDown(ous, root, involved[i], walked.value, current, dns);
    ChainNeeded(ous, involved, i, walked.value, current, dns, dns');
    r := Built(dns');
  }

  lemma NothingBuilt(ous: Ous, root: string, involved: seq<string>)
    ensures MemoValid(ous, root, map[]) && MemoNeeded(ous, involved, map[]) && CacheValid(ous, map[], [])
    ensures Elements<string>([]) == {}
  {
  }

  method AddAllInvolved(ous: Ous, root: string, involved: seq<string>)
    returns (r: DnResult<map<string, string>>, ghost cache: Ous, ghost lookups: seq<string>)
    ensures CacheValid(ous, cache, lookups)
    ensures r.Built? ==> MemoValid(ous, root, r.value) && MemoNeeded(ous, involved, r.value)
    ensures r.Built? ==> Elements(involved) <= r.value.Keys
    ensures r.Failed? ==> exists i :: 0 <= i < |involved| && FaultAbove(ous, involved[i], r.error)
  {
    hide FaultAbove, MemoValid, MemoNeeded, CacheValid, Elements;
    NothingBuilt(ous, root, involved);
    var dns: map<string, string> := map[];
    var known: Ous := map[];
    cache, lookups := known, [];
    assert involved[..0] == [];
    for i := 0 to |involved|
      invariant MemoValid(ous, root, dns) && MemoNeeded(ous, involved, dns)
      invariant Elements(involved[..i]) <= dns.Keys
      invariant CacheValid(ous, known, lookups) && cache == known
    {
      var added;
      added, known, lookups := AddInvolved(ous, root, involved, i, dns, known, lookups);
      cache := known;
      if added.Failed? {
        return Failed(added.error), cache, lookups;
      }
      dns := added.value;
      ElementsAppend(involved[..i], involved[i]);
      assert involved[..i + 1] == involved[..i] + [involved[i]];
    }
    assert involved[..|involved|] == involved;
    r := Built(dns);
  }

  /**
   Succeeds exactly when every involved OU has a complete chain of parents up to a root.  The
   table then holds the involved OUs and their ancestors and nothing else, each with the DN of
   its definition.  A failure names a missing OU or an OU on a cycle above an involved one.
   Each OU is looked up at most once, so concurrent changes cannot show two versions of it.
   */
  method OrganizationalUnitDns(ous: Ous, root: string, involved: seq<string>)
    returns (r: DnResult<map<string, string>>, ghost lookups: seq<string>)
    ensures r.Built? <==> forall i | 0 <= i < |involved| :: Grounded(ous, involved[i])
    ensures r.Built? ==> MemoValid(ous, root, r.value) && MemoNeeded(ous, involved, r.value)
    ensures r.Built? ==> Elements(involved) <= r.value.Keys
    ensures r.Failed? ==> exists i :: 0 <= i < |involved| && FaultAbove(ous, involved[i], r.error)
    ensures NoRepeats(lookups)
  {
    hide FaultAbove, MemoValid, MemoNeeded, Grounded, CacheValid;
    ghost var cache;
    r, cache, lookups := AddAllInvolved(ous, root, involved);
    LookedUpOnce(ous, cache, lookups);
    if r.Failed? {
      ghost var i :| 0 <= i < |involved| && FaultAbove(ous, involved[i], r.error);
      FaultNotGrounded(ous, involved[i], r.error);
    } else {
      forall i | 0 <= i < |involved| ensures Grounded(ous, involved[i]) {
        assert involved[i] in Elements(involved);
        MemoGrounded(ous, root, r.value, involved[i]);
      }
    }
  }

  lemma CacheHit(ous: Ous, cache: Ous, lookups: seq<string>, id: string)
    requires CacheValid(ous, cache, lookups) && id in cache
    ensures id in ous && cache[id] == ous[id]
  {
  }

  lemma LookedUpOnce(ous: Ous, cache: Ous, lookups: seq<string>)
    requires CacheValid(ous, cache, lookups)
    ensures NoRepeats(lookups)
  {
  }

  lemma MemoGrounded(ous: Ous, root: string, dns: map<string, string>, id: string)
    requires MemoValid(ous, root, dns) && id in dns
    ensures Grounded(ous, id)
  {
  }
}
