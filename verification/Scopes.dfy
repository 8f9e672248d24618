/** Scope lists: what is validated, and when comparing two of them by length and
    containment is comparing them as sets. */
module Scopes {

  const MaxScopeTokenLength := 255

  predicate ScopeChar(c: char) {
    ' ' < c < 0x7f as char && c != '"' && c != '\\'
  }

  predicate ValidToken(scope: string) {
    0 < |scope| <= MaxScopeTokenLength && forall i :: 0 <= i < |scope| ==> ScopeChar(scope[i])
  }

  /** scope-token of section 3.3 of RFC 6749: one or more of %x21, %x23-5B and
      %x5D-7E. */
  predicate ScopeToken(scope: string) {
    |scope| >= 1 && forall i :: 0 <= i < |scope| ==> scope[i] == '!' || '#' <= scope[i] <= '[' || ']' <= scope[i] <= '~'
  }

  /** A valid token is one of the standard's, of 255 characters at most. */
  lemma ValidTokenExact(scope: string)
    ensures ValidToken(scope) <==> ScopeToken(scope) && |scope| <= 255
  {
  }

  predicate Distinct(scopes: seq<string>) {
    forall i, j :: 0 <= i < j < |scopes| ==> scopes[i] != scopes[j]
  }

  predicate ValidScopes(scopes: seq<string>) {
    |scopes| > 0 && Distinct(scopes) && forall i :: 0 <= i < |scopes| ==> ValidToken(scopes[i])
  }

  function AsSet(scopes: seq<string>): set<string> {
    set i | 0 <= i < |scopes| :: scopes[i]
  }

  method ValidateScopes(scopes: seq<string>) returns (ok: bool)
    ensures ok <==> ValidScopes(scopes)
  {
    if |scopes| == 0 {
      return false;
    }
    var seen: set<string> := {};
    for i := 0 to |scopes|
      invariant seen == AsSet(scopes[..i])
      invariant forall j :: 0 <= j < i ==> ValidToken(scopes[j])
      invariant forall j, k :: 0 <= j < k < i ==> scopes[j] != scopes[k]
    {
      if !ValidToken(scopes[i]) {
        return false;
      }
      if scopes[i] in seen {
        return false;
      }
      assert forall j :: 0 <= j < i ==> scopes[..i][j] in seen;
      seen := seen + {scopes[i]};
      assert scopes[..i + 1] == scopes[..i] + [scopes[i]];
    }
    ok := true;
  }

  predicate SameScopeSet(a: seq<string>, b: seq<string>) {
    |a| == |b| && forall i :: 0 <= i < |b| ==> b[i] in a
  }

  method CompareScopeSets(a: seq<string>, b: seq<string>) returns (same: bool)
    ensures same <==> SameScopeSet(a, b)
  {
    if |a| != |b| {
      return false;
    }
    var seen: set<string> := {};
    for i := 0 to |a|
      invariant forall x :: x in seen <==> x in a[..i]
    {
      seen := seen + {a[i]};
    }
    assert a[..|a|] == a;
    for i := 0 to |b|
      invariant forall j :: 0 <= j < i ==> b[j] in a
    {
      if b[i] !in seen {
        return false;
      }
    }
    same := true;
  }

  lemma {:induction false} DistinctCount(scopes: seq<string>)
    requires Distinct(scopes)
    ensures |AsSet(scopes)| == |scopes|
  {
    if scopes != [] {
      var rest := scopes[..|scopes| - 1];
      var last := scopes[|scopes| - 1];
      DistinctCount(rest);
      LastApart(scopes);
      assert last !in AsSet(rest);
    }
  }

  lemma LastApart(scopes: seq<string>)
    requires scopes != []
    ensures AsSet(scopes) == AsSet(scopes[..|scopes| - 1]) + {scopes[|scopes| - 1]}
  {
  }

  lemma {:induction false} SetNoLarger(scopes: seq<string>)
    ensures |AsSet(scopes)| <= |scopes|
  {
    if scopes != [] {
      var rest := scopes[..|scopes| - 1];
      SetNoLarger(rest);
      LastApart(scopes);
    }
  }

  lemma SubsetOfSameSize(a: set<string>, b: set<string>)
    requires b <= a && |a| <= |b|
    ensures a == b
  {
    assert |a - b| == |a| - |b|;
    assert a == b + (a - b);
  }

  /** The pigeonhole: with distinct tokens on the right, equal length and
      containment leave nothing over on the left. */
  lemma SameScopeSetIsEquality(a: seq<string>, b: seq<string>)
    requires Distinct(b)
    ensures SameScopeSet(a, b) ==> AsSet(a) == AsSet(b)
    ensures |a| == |b| && AsSet(a) == AsSet(b) ==> SameScopeSet(a, b)
  {
    if SameScopeSet(a, b) {
      DistinctCount(b);
      SetNoLarger(a);
      forall x | x in AsSet(b) ensures x in AsSet(a) {
        var i :| 0 <= i < |b| && b[i] == x;
        assert b[i] in a;
      }
      SubsetOfSameSize(AsSet(a), AsSet(b));
    }
    if |a| == |b| && AsSet(a) == AsSet(b) {
      forall i | 0 <= i < |b| ensures b[i] in a { assert b[i] in AsSet(b); }
    }
  }

  function Longest(scopes: seq<string>): (n: nat)
    ensures forall i :: 0 <= i < |scopes| ==> |scopes[i]| <= n
  {
    if scopes == [] then 0
    else
      var n := Longest(scopes[1..]);
      assert forall i :: 1 <= i < |scopes| ==> scopes[i] == scopes[1..][i - 1];
      if |scopes[0]| > n then |scopes[0]| else n
  }

  /** Exactly when the comparison can be trusted: the right-hand list repeats
      nothing. */
  lemma SameScopeSetExact(b: seq<string>)
    ensures (forall a :: SameScopeSet(a, b) ==> AsSet(a) == AsSet(b)) <==> Distinct(b)
  {
    if Distinct(b) {
      forall a | SameScopeSet(a, b) ensures AsSet(a) == AsSet(b) { SameScopeSetIsEquality(a, b); }
    } else {
      var i, j :| 0 <= i < j < |b| && b[i] == b[j];
      var longer := seq(Longest(b) + 1, k => 'x');
      var a := b[j := longer];
      forall k | 0 <= k < |b| ensures b[k] in a {
        assert a[if k == j then i else k] == b[k];
      }
      assert SameScopeSet(a, b);
      assert a[j] in AsSet(a);
      assert longer !in AsSet(b);
    }
  }
}
