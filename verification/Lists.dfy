/** Lists without duplicates, and how many elements they have. */
module Lists {

  ghost predicate NoDuplicates(q: seq<int>) {
    forall i, j :: 0 <= i < j < |q| ==> q[i] != q[j]
  }

  ghost function Elements(q: seq<int>): set<int> {
    set d | d in q
  }

  lemma {:induction false} ElementsSize(q: seq<int>)
    ensures |Elements(q)| <= |q|
    ensures NoDuplicates(q) ==> |Elements(q)| == |q|
  {
    if q == [] {
      assert Elements(q) == {};
    } else {
      var front, last := q[..|q| - 1], q[|q| - 1];
      ElementsSize(front);
      assert Elements(q) == Elements(front) + {last};
      assert NoDuplicates(q) ==> last !in front;
    }
  }

  /** A list of distinct members of a set is no longer than the set, and has them all if it is as long. */
  lemma {:induction false} FitsIn(q: seq<int>, all: set<int>)
    requires NoDuplicates(q) && forall i :: 0 <= i < |q| ==> q[i] in all
    ensures |q| <= |all|
    ensures |q| == |all| ==> forall d :: d in all ==> d in q
  {
    if q != [] {
      var front, last := q[..|q| - 1], q[|q| - 1];
      FitsIn(front, all - {last});
      assert q == front + [last];
    }
  }
}
