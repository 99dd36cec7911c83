/**
 The table of domains: the first `participating` entries take part in stop-the-world sections, the
 rest are free. Joining and leaving swap entries in place.
 */
module StwDomains {
  import opened Lists

  function Find(q: seq<int>, d: int): (i: nat)
    requires d in q
    ensures i < |q| && q[i] == d && forall j :: 0 <= j < i ==> q[j] != d
  {
    if q[0] == d then 0 else 1 + Find(q[1..], d)
  }

  /** Leaving: the last participating entry takes the place of the one that leaves. */
  function SwapOut(q: seq<int>, d: int): seq<int>
    requires d in q
  {
    q[Find(q, d) := q[|q| - 1]][..|q| - 1]
  }

  lemma {:induction false} SwapOutIs(q: seq<int>, d: int)
    requires NoDuplicates(q) && d in q
    ensures NoDuplicates(SwapOut(q, d))
    ensures forall e :: e in SwapOut(q, d) <==> e in q && e != d
  {
    var i, last, r := Find(q, d), q[|q| - 1], SwapOut(q, d);
    forall e | e in q && e != d ensures e in r {
      var j :| 0 <= j < |q| && q[j] == e;
      if j == |q| - 1 {
        assert r[i] == e;
      } else {
        assert r[j] == e;
      }
    }
  }

  class Table {
    const domains: array<int>
    var participating: nat

    ghost predicate Valid()
      reads this, domains
    {
      participating <= domains.Length && NoDuplicates(domains[..])
    }

    ghost function Participants(): seq<int>
      reads this, domains
      requires Valid()
    {
      domains[..participating]
    }

    constructor (capacity: nat)
      ensures Valid() && Participants() == [] && domains.Length == capacity && fresh(domains)
      ensures forall i :: 0 <= i < capacity ==> domains[i] == i
    {
      domains := new int[capacity](i => i);
      participating := 0;
    }

    /** add_to_stw_domains */
    method Add(d: int)
      requires Valid() && d in domains[participating..]
      modifies `participating, domains
      ensures Valid() && Participants() == old(Participants()) + [d]
      ensures multiset(domains[..]) == multiset(old(domains[..]))
    {
      ghost var rest := domains[participating..];
      var i := participating;
      while domains[i] != d
        invariant participating <= i < domains.Length
        invariant d in domains[i..]
        decreases domains.Length - i
      {
        assert domains[i..] == [domains[i]] + domains[i + 1..];
        i := i + 1;
      }
      ghost var before := domains[..];
      domains[i], domains[participating] := domains[participating], domains[i];
      Swapped(before, domains[..], participating, i);
      participating := participating + 1;
    }

    /** remove_from_stw_domains */
    method Remove(d: int)
      requires Valid() && d in Participants()
      modifies `participating, domains
      ensures Valid() && Participants() == SwapOut(old(Participants()), d)
      ensures multiset(domains[..]) == multiset(old(domains[..]))
    {
      ghost var q := Participants();
      var i := 0;
      while domains[i] != d
        invariant 0 <= i <= Find(q, d)
        decreases Find(q, d) - i
      {
        assert domains[i] == q[i];
        i := i + 1;
      }
      assert i == Find(q, d);
      ghost var before := domains[..];
      participating := participating - 1;
      domains[i] := domains[participating];
      domains[participating] := d;
      Swapped(before, domains[..], i, participating);
      assert Participants() == SwapOut(q, d);
    }
  }

  lemma Swapped(q: seq<int>, r: seq<int>, i: nat, j: nat)
    requires i < |q| && j < |q| && r == q[i := q[j]][j := q[i]]
    ensures NoDuplicates(q) ==> NoDuplicates(r)
    ensures multiset(r) == multiset(q)
  {
  }
}
