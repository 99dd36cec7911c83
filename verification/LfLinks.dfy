/**
 The bottom level of the lock-free skip list: cells with a key, a forward pointer and a deletion
 mark, and the three successful compare-and-swaps that change it: snip, link and mark.
 */
module LfLinks {

  datatype Cell = Cell(key: int, next: int, marked: bool)

  type Links = map<int, Cell>

  const HEAD := 0
  const TAIL := 1
  const MAX_KEY := 0xFFFF_FFFF_FFFF_FFFF

  /** Every forward pointer goes to a strictly larger key; the sentinels are never marked. */
  ghost predicate Sorted(l: Links) {
    && HEAD in l && TAIL in l
    && l[HEAD].key == 0 && !l[HEAD].marked && l[TAIL].key == MAX_KEY && !l[TAIL].marked
    && (forall n :: n in l && n != TAIL ==> l[n].key < MAX_KEY && l[n].next in l && l[n].key < l[l[n].next].key)
    && (forall n :: n in l && n != HEAD ==> l[n].key > 0)
  }

  /** `b` is on the forward chain that starts at `a`. */
  ghost predicate Reach(l: Links, a: int, b: int)
    requires Sorted(l) && a in l
    decreases MAX_KEY - l[a].key
  {
    a == b || (a != TAIL && Reach(l, l[a].next, b))
  }

  /** Every unmarked cell is on the chain from the head. */
  ghost predicate Chained(l: Links) {
    Sorted(l) && forall n :: n in l && !l[n].marked ==> Reach(l, HEAD, n)
  }

  /** The abstract set: keys of the unmarked cells between the sentinels. */
  ghost function Keys(l: Links): set<int> {
    set n | n in l && n != HEAD && n != TAIL && !l[n].marked :: l[n].key
  }

  // ----- chains -----

  lemma {:induction false} ReachKeys(l: Links, a: int, b: int)
    requires Sorted(l) && a in l && Reach(l, a, b)
    ensures b in l && (a == b || l[a].key < l[b].key)
    decreases MAX_KEY - l[a].key
  {
    if a != b {
      ReachKeys(l, l[a].next, b);
    }
  }

  lemma {:induction false} ReachTransitive(l: Links, a: int, b: int, c: int)
    requires Sorted(l) && a in l && b in l && Reach(l, a, b) && Reach(l, b, c)
    ensures Reach(l, a, c)
    decreases MAX_KEY - l[a].key
  {
    if a != b {
      ReachTransitive(l, l[a].next, b, c);
    }
  }

  /** A chain is a line: of two cells on it, the one with the larger key follows the other. */
  lemma {:induction false} ReachOrdered(l: Links, a: int, b: int, c: int)
    requires Sorted(l) && a in l && Reach(l, a, b) && Reach(l, a, c) && b in l && c in l && b != c
    requires l[b].key <= l[c].key
    ensures b != TAIL && Reach(l, l[b].next, c)
    decreases MAX_KEY - l[a].key
  {
    if a == c {
      ReachKeys(l, a, b);
    } else if a != b {
      ReachOrdered(l, l[a].next, b, c);
    }
  }

  /** Nothing on the chain lies strictly between the keys of a reachable cell and its successor. */
  lemma NothingBetween(l: Links, p: int, n: int)
    requires Sorted(l) && p in l && p != TAIL && n in l && Reach(l, HEAD, p) && Reach(l, HEAD, n)
    requires l[p].key < l[n].key && n != l[p].next
    ensures l[l[p].next].key < l[n].key
  {
    ReachOrdered(l, HEAD, p, n);
    ReachKeys(l, l[p].next, n);
  }

  /** If an unmarked cell and its successor enclose `k`, then `k` is absent. */
  lemma {:induction false} Gap(l: Links, p: int, k: int)
    requires Chained(l) && p in l && p != TAIL && !l[p].marked && l[p].key < k < l[l[p].next].key
    ensures k !in Keys(l)
  {
    forall n | n in l && n != HEAD && n != TAIL && !l[n].marked && l[n].key == k ensures false {
      NothingBetween(l, p, n);
    }
  }

  /** A cell passed over by a reachable link is off the chain. */
  lemma PassedOver(l: Links, p: int, n: int)
    requires Sorted(l) && p in l && p != TAIL && n in l && Reach(l, HEAD, p)
    requires l[p].key < l[n].key <= l[l[p].next].key && n != l[p].next
    ensures !Reach(l, HEAD, n)
  {
    if Reach(l, HEAD, n) {
      NothingBetween(l, p, n);
    }
  }

  /** Two unmarked cells never carry the same key. */
  lemma UniqueKey(l: Links, m: int, n: int)
    requires Chained(l) && m in l && n in l && !l[m].marked && !l[n].marked && l[m].key == l[n].key
    ensures m == n
  {
    if m != n {
      ReachOrdered(l, HEAD, m, n);
      ReachKeys(l, l[m].next, n);
    }
  }

  // ----- the three effects -----

  ghost predicate CanSnip(l: Links, p: int) {
    Sorted(l) && p in l && p != TAIL && !l[p].marked && l[l[p].next].marked
  }

  /** The CAS of skiplist_find: `p` skips its marked successor. */
  function Snipped(l: Links, p: int): Links
    requires p in l && l[p].next in l
  {
    l[p := l[p].(next := l[l[p].next].next)]
  }

  ghost predicate CanLink(l: Links, p: int, n: int, k: int) {
    Sorted(l) && p in l && p != TAIL && !l[p].marked && n !in l && 0 < k && l[p].key < k < l[l[p].next].key
  }

  /** The CAS of insert: the new cell `n` goes between `p` and its successor. */
  function Linked(l: Links, p: int, n: int, k: int): Links
    requires p in l
  {
    l[n := Cell(k, l[p].next, false)][p := l[p].(next := n)]
  }

  ghost predicate CanMark(l: Links, n: int) {
    Sorted(l) && n in l && n != HEAD && n != TAIL && !l[n].marked
  }

  /** The CAS of remove. */
  function Marked(l: Links, n: int): Links
    requires n in l
  {
    l[n := l[n].(marked := true)]
  }

  lemma SnipSorted(l: Links, p: int)
    requires CanSnip(l, p)
    ensures Sorted(Snipped(l, p))
  {
  }

  lemma {:induction false} SnipReach(l: Links, p: int, a: int, b: int)
    requires CanSnip(l, p) && a in l && b in l && b != l[p].next
    ensures Sorted(Snipped(l, p)) && (Reach(Snipped(l, p), a, b) <==> Reach(l, a, b))
    decreases MAX_KEY - l[a].key
  {
    SnipSorted(l, p);
    var l' := Snipped(l, p);
    if a != b && a != TAIL {
      if a == p {
        SnipReach(l, p, l'[p].next, b);
      } else {
        SnipReach(l, p, l[a].next, b);
      }
    }
  }

  lemma SnipRemoves(l: Links, p: int)
    requires CanSnip(l, p) && Reach(l, HEAD, p)
    ensures Sorted(Snipped(l, p)) && !Reach(Snipped(l, p), HEAD, l[p].next)
  {
    SnipSorted(l, p);
    SnipReach(l, p, HEAD, p);
    PassedOver(Snipped(l, p), p, l[p].next);
  }

  lemma LinkSorted(l: Links, p: int, n: int, k: int)
    requires CanLink(l, p, n, k)
    ensures Sorted(Linked(l, p, n, k))
  {
  }

  lemma {:induction false} LinkReach(l: Links, p: int, n: int, k: int, a: int, b: int)
    requires CanLink(l, p, n, k) && a in l && b in l
    ensures Sorted(Linked(l, p, n, k)) && (Reach(Linked(l, p, n, k), a, b) <==> Reach(l, a, b))
    decreases MAX_KEY - l[a].key
  {
    LinkSorted(l, p, n, k);
    var l' := Linked(l, p, n, k);
    if a != b && a != TAIL {
      LinkReach(l, p, n, k, l[a].next, b);
      assert a == p ==> (Reach(l', p, b) <==> Reach(l', n, b));
    }
  }

  lemma LinkReachesNew(l: Links, p: int, n: int, k: int)
    requires CanLink(l, p, n, k) && Reach(l, HEAD, p)
    ensures Sorted(Linked(l, p, n, k)) && Reach(Linked(l, p, n, k), HEAD, n)
  {
    LinkSorted(l, p, n, k);
    LinkReach(l, p, n, k, HEAD, p);
    var l' := Linked(l, p, n, k);
    assert Reach(l', p, n) by { assert Reach(l', n, n); }
    ReachTransitive(l', HEAD, p, n);
  }

  lemma {:induction false} MarkReach(l: Links, n: int, a: int, b: int)
    requires CanMark(l, n) && a in l
    ensures Sorted(Marked(l, n)) && (Reach(Marked(l, n), a, b) <==> Reach(l, a, b))
    decreases MAX_KEY - l[a].key
  {
    if a != b && a != TAIL {
      MarkReach(l, n, l[a].next, b);
    }
  }

  /** Snipping keeps the set. */
  lemma {:induction false} SnipKeeps(l: Links, p: int)
    requires Chained(l) && CanSnip(l, p)
    ensures Chained(Snipped(l, p)) && Keys(Snipped(l, p)) == Keys(l)
  {
    SnipSorted(l, p);
    var l' := Snipped(l, p);
    forall n | n in l' && !l'[n].marked ensures Reach(l', HEAD, n) {
      SnipReach(l, p, HEAD, n);
    }
    SameLive(l, l');
  }

  lemma SameLive(l: Links, l': Links)
    requires l.Keys == l'.Keys && forall n :: n in l ==> l[n].marked == l'[n].marked && l[n].key == l'[n].key
    ensures Keys(l) == Keys(l')
  {
  }

  /** Linking adds exactly the new key, which was absent. */
  lemma {:induction false} LinkAdds(l: Links, p: int, n: int, k: int)
    requires Chained(l) && CanLink(l, p, n, k)
    ensures Chained(Linked(l, p, n, k)) && Keys(Linked(l, p, n, k)) == Keys(l) + {k} && k !in Keys(l)
  {
    hide Keys;
    LinkSorted(l, p, n, k);
    Gap(l, p, k);
    var l' := Linked(l, p, n, k);
    forall m | m in l' && !l'[m].marked ensures Reach(l', HEAD, m) {
      if m == n {
        LinkReachesNew(l, p, n, k);
      } else {
        LinkReach(l, p, n, k, HEAD, m);
      }
    }
    LinkKeys(l, p, n, k);
  }

  lemma LinkKeys(l: Links, p: int, n: int, k: int)
    requires CanLink(l, p, n, k)
    ensures Keys(Linked(l, p, n, k)) == Keys(l) + {k}
  {
    hide Reach;
    var l' := Linked(l, p, n, k);
    forall x | x in Keys(l) ensures x in Keys(l') {
      var m :| m in l && m != HEAD && m != TAIL && !l[m].marked && l[m].key == x;
      assert m in l' && l'[m].key == x && !l'[m].marked;
    }
    assert n in l' && l'[n].key == k;
  }

  /** Marking removes exactly the key of the marked cell. */
  lemma {:induction false} MarkRemoves(l: Links, n: int)
    requires Chained(l) && CanMark(l, n)
    ensures Chained(Marked(l, n)) && Keys(Marked(l, n)) == Keys(l) - {l[n].key} && l[n].key in Keys(l)
  {
    var l' := Marked(l, n);
    MarkReach(l, n, HEAD, HEAD);
    forall m | m in l' && !l'[m].marked ensures Reach(l', HEAD, m) {
      MarkReach(l, n, HEAD, m);
    }
    forall m | m in l && m != HEAD && m != TAIL && !l[m].marked && m != n ensures l[m].key != l[n].key {
      if l[m].key == l[n].key {
        UniqueKey(l, m, n);
      }
    }
    forall x | x in Keys(l) && x != l[n].key ensures x in Keys(l') {
      var m :| m in l && m != HEAD && m != TAIL && !l[m].marked && l[m].key == x;
      assert m in l' && !l'[m].marked && l'[m].key == x;
    }
  }
}
