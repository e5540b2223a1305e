/** Definitions shared by the component models. */
module Base {

  datatype Option<+T> = None | Some(value: T)

  ghost predicate Distinct<T>(s: seq<T>) { forall i, j :: 0 <= i < j < |s| ==> s[i] != s[j] }

  /** The sequence without the element with index k. */
  function Without<T>(s: seq<T>, k: nat): seq<T>
    requires k < |s|
  {
    s[..k] + s[k + 1..]
  }

  /** The CPU (or slot) numbers below n. */
  function Below(n: nat): (r: set<nat>)
    ensures forall i: nat :: i in r <==> i < n
  {
    if n == 0 then {} else Below(n - 1) + {n - 1}
  }

  lemma {:induction false} BelowSize(n: nat)
    ensures |Below(n)| == n
  {
    if n > 0 {
      BelowSize(n - 1);
    }
  }

  /** A set of n numbers below n leaves none out. */
  lemma FullSet(s: set<nat>, n: nat)
    requires s <= Below(n)
    ensures |s| <= n
    ensures |s| == n <==> s == Below(n)
  {
    BelowSize(n);
    SubsetSize(s, Below(n));
  }

  lemma {:induction false} SubsetSize<T>(a: set<T>, b: set<T>)
    requires a <= b
    ensures |a| <= |b|
    ensures |a| == |b| ==> a == b
  {
    if x :| x in a {
      SubsetSize(a - {x}, b - {x});
    } else if b != {} {
      var y :| y in b;
      assert |b| == |b - {y}| + 1;
    }
  }

  /** All numbers below n but c: there are n - 1 of them. */
  lemma OthersSize(s: set<nat>, n: nat, c: nat)
    requires c < n && s <= Below(n) - {c}
    ensures |s| <= n - 1
    ensures |s| == n - 1 <==> s == Below(n) - {c}
  {
    BelowSize(n);
    SubsetSize(s, Below(n) - {c});
    assert |Below(n) - {c}| == n - 1;
  }
}
