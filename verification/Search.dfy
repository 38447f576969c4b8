/** Linear table scans and counting facts shared by the fixed-size table models. */
module Search {

  /** The first index whose element satisfies p, or -1: what every `for ... break` scan computes. */
  function FirstIndex<T>(s: seq<T>, p: T -> bool): (r: int)
    ensures -1 <= r < |s|
    ensures r >= 0 ==> p(s[r]) && forall j :: 0 <= j < r ==> !p(s[j])
    ensures r == -1 ==> forall j :: 0 <= j < |s| ==> !p(s[j])
  {
    if |s| == 0 then -1
    else if p(s[0]) then 0
    else
      var r := FirstIndex(s[1..], p);
      if r == -1 then
        assert forall j :: 1 <= j < |s| ==> s[j] == s[1..][j - 1];
        -1
      else
        assert forall j :: 1 <= j < r + 1 ==> s[j] == s[1..][j - 1];
        r + 1
  }

  /** A table of n equal entries. */
  function Repeat<T>(n: nat, x: T): (r: seq<T>)
    ensures |r| == n && forall i :: 0 <= i < n ==> r[i] == x
  {
    if n == 0 then [] else [x] + Repeat(n - 1, x)
  }

  /** An index with the characteristic property of a scan is the scan's result. */
  lemma {:induction false} FirstIndexUnique<T>(s: seq<T>, p: T -> bool, r: int)
    requires -1 <= r < |s|
    requires r >= 0 ==> p(s[r]) && forall j :: 0 <= j < r ==> !p(s[j])
    requires r == -1 ==> forall j :: 0 <= j < |s| ==> !p(s[j])
    ensures r == FirstIndex(s, p)
  {
    var q := FirstIndex(s, p);
    if r >= 0 && q >= 0 {
      assert !(r < q) && !(q < r);
    }
  }

  /** A set mapped injectively into another is no larger. */
  lemma {:induction false} InjectionBound(a: set<nat>, b: set<nat>, f: map<nat, nat>)
    requires a <= f.Keys
    requires forall x :: x in a ==> f[x] in b
    requires forall x, y :: x in a && y in a && f[x] == f[y] ==> x == y
    ensures |a| <= |b|
  {
    if a != {} {
      var x :| x in a;
      InjectionBound(a - {x}, b - {f[x]}, f);
    }
  }

  ghost function Image(a: set<nat>, f: map<nat, nat>): set<nat>
    requires a <= f.Keys
  {
    set x | x in a :: f[x]
  }

  /** An injective image is as large as its source. */
  lemma {:induction false} ImageSize(a: set<nat>, f: map<nat, nat>)
    requires a <= f.Keys
    requires forall x, y :: x in a && y in a && f[x] == f[y] ==> x == y
    ensures |Image(a, f)| == |a|
  {
    if a == {} {
      assert Image(a, f) == {};
    } else {
      var x :| x in a;
      ImageSize(a - {x}, f);
      assert Image(a, f) == Image(a - {x}, f) + {f[x]};
    }
  }
}
