/** Scope strings: one-space separated, from a fixed set, without repeats, containing `openid`. */
module Scopes {
  import opened Store
  import opened Sorting
  import opened Text

  predicate Supported(scope: string) {
    scope == "openid" || scope == "profile" || scope == "email" || scope == "phone"
  }

  /** The lists of scopes that are accepted. */
  predicate Acceptable(scopes: seq<string>) {
    && 1 <= |scopes| <= 4
    && "openid" in scopes
    && (forall i | 0 <= i < |scopes| :: Supported(scopes[i]))
    && NoRepeats(scopes)
  }

  function ScopesOf(value: string): Option<seq<string>> {
    if 1 <= |value| <= 256 && Acceptable(Split(value, ' ')) then Some(Split(value, ' ')) else None
  }

  /** The standard order of strings. */
  predicate LexLeq(a: string, b: string) {
    a == "" || (b != "" && (a[0] < b[0] || (a[0] == b[0] && LexLeq(a[1..], b[1..]))))
  }

  lemma {:induction false} LexTotal(a: string, b: string)
    ensures LexLeq(a, b) || LexLeq(b, a)
  {
    if a != "" && b != "" { LexTotal(a[1..], b[1..]); }
  }

  lemma {:induction false} LexAntisymmetric(a: string, b: string)
    requires LexLeq(a, b) && LexLeq(b, a)
    ensures a == b
  {
    if a != "" && b != "" {
      LexAntisymmetric(a[1..], b[1..]);
      assert a == [a[0]] + a[1..] && b == [b[0]] + b[1..];
    }
  }

  lemma {:induction false} LexTransitive(a: string, b: string, c: string)
    requires LexLeq(a, b) && LexLeq(b, c)
    ensures LexLeq(a, c)
  {
    if a != "" && a[0] == b[0] == c[0] { LexTransitive(a[1..], b[1..], c[1..]); }
  }

  lemma LexIsTotalOrder()
    ensures TotalOrder(LexLeq)
  {
    forall a, b ensures LexLeq(a, b) || LexLeq(b, a) { LexTotal(a, b); }
    forall a, b | LexLeq(a, b) && LexLeq(b, a) ensures a == b { LexAntisymmetric(a, b); }
    forall a, b, c | LexLeq(a, b) && LexLeq(b, c) ensures LexLeq(a, c) { LexTransitive(a, b, c); }
  }

  /** Comparing the length before and after sorting and deduplicating finds repeats exactly. */
  method HasNoRepeats(scopes: seq<string>) returns (ok: bool)
    ensures ok <==> NoRepeats(scopes)
  {
    LexIsTotalOrder();
    SortAscending(scopes, LexLeq);
    SortElements(scopes, LexLeq);
    var unique := Sort(scopes, LexLeq);
    unique := Dedup(unique, LexLeq);
    NoRepeatsByCount(unique);
    NoRepeatsByCount(scopes);
    ok := |unique| == |scopes|;
  }

  method ValidateScopes(value: string) returns (r: Option<seq<string>>)
    ensures r == ScopesOf(value)
    ensures r.Some? <==>
              var scopes := Split(value, ' ');
              && 1 <= |value| <= 256 && |scopes| <= 4 && NoRepeats(scopes) && "openid" in scopes
              && forall i | 0 <= i < |scopes| :: scopes[i] in {"openid", "profile", "email", "phone"}
    ensures r.Some? ==> r.value == Split(value, ' ')
  {
    if |value| < 1 || |value| > 256 {
      return None;
    }
    var scopes := Split(value, ' ');
    if |scopes| > 4 {
      return None;
    }
    if exists i :: 0 <= i < |scopes| && scopes[i] == "" {
      return None;
    }
    if "openid" !in scopes {
      return None;
    }
    if exists i :: 0 <= i < |scopes| && !Supported(scopes[i]) {
      return None;
    }
    var distinct := HasNoRepeats(scopes);
    if !distinct {
      return None;
    }
    r := Some(scopes);
  }

  lemma SupportedFacts(scope: string)
    requires Supported(scope)
    ensures 5 <= |scope| <= 7 && ' ' !in scope
  {
  }

  lemma {:induction false} JoinLength(scopes: seq<string>)
    requires forall i | 0 <= i < |scopes| :: |scopes[i]| <= 7
    ensures |Join(scopes, ' ')| <= 8 * |scopes|
    ensures scopes != [] ==> |Join(scopes, ' ')| >= |scopes[0]|
  {
    if |scopes| > 1 { JoinLength(scopes[1..]); }
  }

  /** Joining an accepted list with spaces validates back to the same list. */
  lemma JoinedScopesValidate(scopes: seq<string>)
    requires Acceptable(scopes)
    ensures ScopesOf(Join(scopes, ' ')) == Some(scopes)
  {
    forall i | 0 <= i < |scopes| ensures 5 <= |scopes[i]| <= 7 && ' ' !in scopes[i] { SupportedFacts(scopes[i]); }
    JoinLength(scopes);
    SplitJoin(scopes, ' ');
  }
}
