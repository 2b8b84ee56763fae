/** Optional values, hash containers, and lists of distinct elements. */
module Collections {

  datatype Option<+T> = None | Some(value: T)

  function Min(a: int, b: int): int {
    if a <= b then a else b
  }

  function Max(a: int, b: int): int {
    if a <= b then b else a
  }

  /** The next element of a hash set or of a map's keys: any one of them. */
  method Pick<T(==)>(s: set<T>) returns (x: T)
    requires s != {}
    ensures x in s
  {
    x :| x in s;
  }

  lemma SomeElement<T>(s: set<T>) returns (x: T)
    requires s != {}
    ensures x in s
  {
    x :| x in s;
  }

  function Elements<T>(s: seq<T>): set<T> {
    set i | 0 <= i < |s| :: s[i]
  }

  ghost predicate Differ<T(!new)>(s: seq<T>, i: nat, j: nat)
    requires i < |s| && j < |s|
  {
    s[i] != s[j]
  }

  ghost predicate Distinct<T(!new)>(s: seq<T>) {
    forall i: nat, j: nat {:trigger Differ(s, i, j)} :: i < j < |s| ==> Differ(s, i, j)
  }

  lemma DistinctAt<T(!new)>(s: seq<T>, i: nat, j: nat)
    requires Distinct(s) && i < |s| && j < |s| && i != j
    ensures s[i] != s[j]
  {
    assert if i < j then Differ(s, i, j) else Differ(s, j, i);
  }

  lemma ElementsMore<T>(s: seq<T>)
    requires s != []
    ensures Elements(s) == Elements(s[..|s| - 1]) + {s[|s| - 1]}
  {
    assert forall x :: x in Elements(s[..|s| - 1]) ==> x in Elements(s);
  }

  lemma ElementsIn<T>(s: seq<T>, x: T)
    ensures x in s <==> x in Elements(s)
  {
  }

  lemma ElementsTake<T>(s: seq<T>, k: nat)
    requires k < |s|
    ensures Elements(s[..k + 1]) == Elements(s[..k]) + {s[k]}
  {
    assert s[..k + 1][..k] == s[..k];
    ElementsMore(s[..k + 1]);
  }

  lemma DistinctNext<T(!new)>(s: seq<T>, k: nat)
    requires Distinct(s) && k < |s|
    ensures s[k] !in Elements(s[..k])
  {
    forall i | 0 <= i < k ensures s[i] != s[k] {
      DistinctAt(s, i, k);
    }
  }

  lemma DistinctTake<T(!new)>(s: seq<T>, k: nat)
    requires Distinct(s) && k <= |s|
    ensures Distinct(s[..k])
  {
    forall i: nat, j: nat | i < j < k ensures Differ(s[..k], i, j) {
      assert Differ(s, i, j);
    }
  }

  lemma {:induction false} DistinctSize<T(!new)>(s: seq<T>)
    requires Distinct(s)
    ensures |Elements(s)| == |s|
  {
    if s != [] {
      DistinctTake(s, |s| - 1);
      DistinctSize(s[..|s| - 1]);
      ElementsMore(s);
      DistinctNext(s, |s| - 1);
    } else {
      assert Elements(s) == {};
    }
  }
}
