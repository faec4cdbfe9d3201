/** What several modules share about optional values, sequences and sets. */
module Collections {
  datatype Option<T> = None | Some(value: T)

  function Remove<T>(s: seq<T>, i: nat): (r: seq<T>)
    requires i < |s|
  {
    s[..i] + s[i + 1..]
  }

  ghost predicate Distinct(s: seq<nat>) {
    forall i, j :: 0 <= i < j < |s| ==> s[i] != s[j]
  }

  ghost function Elems(s: seq<nat>): (r: set<nat>) {
    set x | x in s
  }

  lemma {:induction false} SubsetSize(a: set<nat>, b: set<nat>)
    requires a <= b
    ensures |a| <= |b|
    decreases |a|
  {
    if a != {} {
      var x :| x in a;
      SubsetSize(a - {x}, b - {x});
    }
  }

  /** Different numbers are as many as their set has members. */
  lemma {:induction false} SizeOf(s: seq<nat>)
    requires Distinct(s)
    ensures |Elems(s)| == |s|
  {
    if s != [] {
      var m := |s| - 1;
      SizeOf(s[..m]);
      assert s == s[..m] + [s[m]];
      assert Elems(s) == Elems(s[..m]) + {s[m]};
    }
  }

  function Sum(s: seq<nat>): (m: nat) { if s == [] then 0 else Sum(s[..|s| - 1]) + s[|s| - 1] }

  lemma {:induction false} SumUpdate(s: seq<nat>, i: nat, v: nat)
    requires i < |s|
    ensures Sum(s[i := v]) == Sum(s) - s[i] + v
  {
    var m := |s| - 1;
    if i < m {
      SumUpdate(s[..m], i, v);
      assert s[i := v][..m] == s[..m][i := v];
    } else {
      assert s[i := v][..m] == s[..m];
    }
  }

  lemma {:induction false} SumBound(s: seq<nat>, k: nat)
    requires forall i :: 0 <= i < |s| ==> s[i] <= k
    ensures Sum(s) <= |s| * k
    ensures (forall i :: 0 <= i < |s| ==> s[i] == k) ==> Sum(s) == |s| * k
  {
    if s != [] {
      var m := |s| - 1;
      SumBound(s[..m], k);
      assert |s| * k == m * k + k;
    }
  }
}
