// Finalizer lists: pkg/agent/mcn/mcn_manager.go:271-296 and the same helpers in
// pkg/agent/controller/mcnc_controller.go:391-410.

module Finalizers {
  const FINALIZER_DOMAIN := "multicluster.ovn.org"

  // getFinalizerName: "<clusterID>.multicluster.ovn.org".
  function FinalizerName(cluster: string): string
  {
    cluster + "." + FINALIZER_DOMAIN
  }

  // Distinct clusters never share a finalizer.
  lemma FinalizerNameInjective(c: string)
    ensures forall d :: FinalizerName(c) == FinalizerName(d) ==> c == d
  {
    forall d | FinalizerName(c) == FinalizerName(d) ensures c == d {
      assert FinalizerName(c)[..|c|] == c;
      assert FinalizerName(d)[..|d|] == d;
    }
  }

  predicate NoDuplicates(s: seq<string>)
  {
    forall i, j :: 0 <= i < j < |s| ==> s[i] != s[j]
  }

  function Without(s: seq<string>, x: string): seq<string>
  {
    if s == [] then []
    else Without(s[..|s| - 1], x) + if s[|s| - 1] == x then [] else [s[|s| - 1]]
  }

  lemma {:induction false} WithoutMembers(s: seq<string>, x: string)
    ensures forall y :: y in Without(s, x) <==> y in s && y != x
    ensures NoDuplicates(s) ==> NoDuplicates(Without(s, x))
    ensures x !in s ==> Without(s, x) == s
  {
    if s != [] {
      var init := s[..|s| - 1];
      WithoutMembers(init, x);
      assert s == init + [s[|s| - 1]];
      if NoDuplicates(s) {
        assert s[|s| - 1] !in init;
      }
    }
  }

  // Removal goes element by element: the order of what stays is kept.
  lemma {:induction false} WithoutConcat(a: seq<string>, b: seq<string>, x: string)
    ensures Without(a + b, x) == Without(a, x) + Without(b, x)
    ensures Without([x], x) == []
  {
    assert [x][..0] == [];
    if b == [] {
      assert a + b == a;
    } else {
      WithoutConcat(a, b[..|b| - 1], x);
      assert (a + b)[..|a + b| - 1] == a + b[..|b| - 1];
    }
  }

  // Removing what was just appended restores the list, order included.
  lemma AppendThenRemove(s: seq<string>, x: string)
    requires x !in s
    ensures Without(s + [x], x) == s
  {
    WithoutMembers(s, x);
    assert (s + [x])[..|s|] == s;
  }

  method ContainsString(slice: seq<string>, s: string) returns (found: bool)
    ensures found <==> s in slice
  {
    for i := 0 to |slice|
      invariant s !in slice[..i]
    {
      if slice[i] == s {
        return true;
      }
    }
    return false;
  }

  method RemoveString(slice: seq<string>, s: string) returns (result: seq<string>)
    ensures result == Without(slice, s)
    ensures forall y :: y in result <==> y in slice && y != s
  {
    result := [];
    for i := 0 to |slice|
      invariant result == Without(slice[..i], s)
    {
      assert slice[..i + 1][..i] == slice[..i];
      if slice[i] != s {
        result := result + [slice[i]];
      }
    }
    assert slice[..|slice|] == slice;
    WithoutMembers(slice, s);
  }
}
