/** Reachability along a relation. */
module Paths {

  ghost predicate Path<T(!new)>(r: (T, T) -> bool, c: seq<T>) {
    c != [] && forall i :: 0 <= i < |c| - 1 ==> r(c[i], c[i + 1])
  }

  /** A path leads from `a` to `b`. */
  ghost predicate Joined<T(!new)>(r: (T, T) -> bool, a: T, b: T) {
    exists c :: Path(r, c) && c[0] == a && c[|c| - 1] == b
  }

  lemma JoinedSelf<T(!new)>(r: (T, T) -> bool, a: T)
    ensures Joined(r, a, a)
  {
    assert Path(r, [a]) && [a][0] == a;
  }

  lemma JoinedOne<T(!new)>(r: (T, T) -> bool, a: T, b: T)
    requires r(a, b)
    ensures Joined(r, a, b)
  {
    assert Path(r, [a, b]) && [a, b][0] == a;
  }

  lemma JoinedThrough<T(!new)>(r: (T, T) -> bool, a: T, b: T, c: T)
    requires Joined(r, a, b) && Joined(r, b, c)
    ensures Joined(r, a, c)
  {
    var x :| Path(r, x) && x[0] == a && x[|x| - 1] == b;
    var y :| Path(r, y) && y[0] == b && y[|y| - 1] == c;
    var z := x + y[1..];
    forall i | 0 <= i < |z| - 1
      ensures r(z[i], z[i + 1])
    {
      if i >= |x| - 1 {
        assert z[i] == y[i + 1 - |x|] && z[i + 1] == y[i + 2 - |x|];
      }
    }
    assert Path(r, z) && z[0] == a && z[|z| - 1] == c;
  }

  lemma JoinedBack<T(!new)>(r: (T, T) -> bool, a: T, b: T)
    requires Joined(r, a, b) && forall x, y :: r(x, y) ==> r(y, x)
    ensures Joined(r, b, a)
  {
    var c :| Path(r, c) && c[0] == a && c[|c| - 1] == b;
    var d := seq(|c|, i requires 0 <= i < |c| => c[|c| - 1 - i]);
    forall i | 0 <= i < |d| - 1
      ensures r(d[i], d[i + 1])
    {
      assert r(c[|c| - 2 - i], c[|c| - 1 - i]);
    }
    assert Path(r, d) && d[0] == b && d[|d| - 1] == a;
  }
}
