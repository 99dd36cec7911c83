/**
 One upper level of the lock-free skip list: pointers that skip cells, go to larger keys or to older cells of the same
 key, and change by the same three compare-and-swaps as the bottom level.
 */
module LfTower {
  import opened LfLinks

  /** `born` numbers the cells in the order of their allocation. */
  datatype Rung = Rung(key: int, born: nat, next: int, marked: bool)

  type Tower = map<int, Rung>

  ghost predicate Before(a: Rung, b: Rung) {
    a.key < b.key || (a.key == b.key && b.born < a.born)
  }

  ghost predicate Ordered(u: Tower) {
    && HEAD in u && TAIL in u
    && u[HEAD].key == 0 && !u[HEAD].marked && u[TAIL].key == MAX_KEY && !u[TAIL].marked
    && (forall n :: n in u && n != TAIL ==> u[n].key < MAX_KEY && u[n].next in u && Before(u[n], u[u[n].next]))
    && (forall n :: n in u && n != HEAD ==> u[n].key > 0)
  }

  /** Following the pointers from `a` leads to `b`. */
  ghost predicate Leads(u: Tower, a: int, b: int)
    requires Ordered(u) && a in u
    decreases MAX_KEY - u[a].key, u[a].born
  {
    a == b || (a != TAIL && Leads(u, u[a].next, b))
  }

  lemma {:induction false} LeadsBefore(u: Tower, a: int, b: int)
    requires Ordered(u) && a in u && Leads(u, a, b)
    ensures b in u && (a == b || Before(u[a], u[b]))
    decreases MAX_KEY - u[a].key, u[a].born
  {
    if a != b {
      LeadsBefore(u, u[a].next, b);
    }
  }

  lemma {:induction false} LeadsOn(u: Tower, a: int, b: int, c: int)
    requires Ordered(u) && a in u && b in u && Leads(u, a, b) && Leads(u, b, c)
    ensures Leads(u, a, c)
    decreases MAX_KEY - u[a].key, u[a].born
  {
    if a != b {
      LeadsOn(u, u[a].next, b, c);
    }
  }

  /** Two cells one cell leads to follow each other. */
  lemma {:induction false} LeadsOneWay(u: Tower, a: int, b: int, c: int)
    requires Ordered(u) && a in u && b in u && c in u && Leads(u, a, b) && Leads(u, a, c)
    ensures Leads(u, b, c) || Leads(u, c, b)
    decreases MAX_KEY - u[a].key, u[a].born
  {
    if a != b && a != c {
      LeadsOneWay(u, u[a].next, b, c);
    }
  }

  lemma LeadsNotBack(u: Tower, a: int, b: int)
    requires Ordered(u) && a in u && b in u && Leads(u, a, b) && Leads(u, b, a)
    ensures a == b
  {
    LeadsBefore(u, a, b);
    LeadsBefore(u, b, a);
  }

  // ----- the steps -----

  /** `p` points to `x` from now on: a snip when `x` comes after a marked successor, a link when `x` is new. */
  function Pointed(u: Tower, p: int, x: int): Tower
    requires p in u
  {
    u[p := u[p].(next := x)]
  }

  lemma PointedOrdered(u: Tower, p: int, x: int)
    requires Ordered(u) && p in u && p != TAIL && x in u && Before(u[p], u[x])
    ensures Ordered(Pointed(u, p, x))
  {
  }

  /** What a changed pointer leads to. */
  lemma {:induction false} PointedLeads(u: Tower, p: int, x: int, a: int, b: int)
    requires Ordered(u) && p in u && p != TAIL && x in u && Before(u[p], u[x]) && a in u && b in u
    ensures Ordered(Pointed(u, p, x))
    ensures Leads(Pointed(u, p, x), a, b) <==>
      if Leads(u, a, p) then (Leads(u, a, b) && Leads(u, b, p)) || Leads(u, x, b) else Leads(u, a, b)
    decreases MAX_KEY - u[a].key, u[a].born
  {
    PointedOrdered(u, p, x);
    if a == p {
      XNotBack(u, p, x);
      PointedLeads(u, p, x, x, b);
      if Leads(u, p, b) && Leads(u, b, p) {
        LeadsNotBack(u, p, b);
      }
    } else if a != TAIL && a != b {
      PointedLeads(u, p, x, u[a].next, b);
      if b == u[a].next {
        assert Leads(u, a, b);
      }
    } else if a == b {
      assert Leads(u, a, b);
    }
  }

  lemma XNotBack(u: Tower, p: int, x: int)
    requires Ordered(u) && p in u && x in u && Before(u[p], u[x])
    ensures !Leads(u, x, p)
  {
    if Leads(u, x, p) {
      LeadsBefore(u, x, p);
    }
  }

  function Flagged(u: Tower, n: int): Tower
    requires n in u
  {
    u[n := u[n].(marked := true)]
  }

  lemma {:induction false} FlaggedLeads(u: Tower, n: int, a: int, b: int)
    requires Ordered(u) && n in u && n != HEAD && n != TAIL && a in u
    ensures Ordered(Flagged(u, n)) && (Leads(Flagged(u, n), a, b) <==> Leads(u, a, b))
    decreases MAX_KEY - u[a].key, u[a].born
  {
    if a != TAIL && a != b {
      FlaggedLeads(u, n, u[a].next, b);
    }
  }

  /** A cell that is not linked yet. */
  function Added(u: Tower, m: int, r: Rung): Tower {
    u[m := r]
  }

  ghost predicate CanAdd(u: Tower, m: int, r: Rung) {
    m !in u && 0 < r.key < MAX_KEY && !r.marked && r.next in u && Before(r, u[r.next])
  }

  lemma {:induction false} AddedLeads(u: Tower, m: int, r: Rung, a: int, b: int)
    requires Ordered(u) && CanAdd(u, m, r) && a in u
    ensures Ordered(Added(u, m, r)) && (Leads(Added(u, m, r), a, b) <==> Leads(u, a, b))
    decreases MAX_KEY - u[a].key, u[a].born
  {
    if a != TAIL && a != b {
      AddedLeads(u, m, r, u[a].next, b);
    }
  }

  // ----- a walk that cannot miss a cell -----

  /** On the level: what a search from the head can meet. */
  ghost predicate OnLevel(u: Tower, n: int) {
    Ordered(u) && n in u && Leads(u, HEAD, n)
  }

  /** A walk at `a` will meet `n` whatever is snipped: over marked cells, whose pointers are frozen, it comes to `n` or
      to an unmarked cell on the level that leads there. */
  ghost predicate Tracks(u: Tower, a: int, n: int)
    requires Ordered(u) && a in u
    decreases MAX_KEY - u[a].key, u[a].born
  {
    || a == n
    || (if u[a].marked then a != TAIL && Tracks(u, u[a].next, n) else Leads(u, HEAD, a) && Leads(u, a, n))
  }

  lemma {:induction false} LevelTracks(u: Tower, a: int, n: int)
    requires Ordered(u) && a in u && Leads(u, HEAD, a) && Leads(u, a, n)
    ensures Tracks(u, a, n)
    decreases MAX_KEY - u[a].key, u[a].born
  {
    if a != n && u[a].marked {
      assert Leads(u, a, u[a].next);
      LeadsOn(u, HEAD, a, u[a].next);
      LevelTracks(u, u[a].next, n);
    }
  }

  /** A step along the pointers stays on track. */
  lemma NextTracks(u: Tower, a: int, n: int)
    requires Ordered(u) && a in u && Tracks(u, a, n) && a != n
    ensures a != TAIL && Tracks(u, u[a].next, n)
  {
    if !u[a].marked {
      assert a != TAIL;
      assert Leads(u, a, u[a].next);
      LeadsOn(u, HEAD, a, u[a].next);
      LevelTracks(u, u[a].next, n);
    }
  }

  lemma {:induction false} FlagTracks(u: Tower, m: int, a: int, n: int)
    requires Ordered(u) && m in u && m != HEAD && m != TAIL && a in u && Tracks(u, a, n)
    ensures Ordered(Flagged(u, m)) && Tracks(Flagged(u, m), a, n)
    decreases MAX_KEY - u[a].key, u[a].born
  {
    var v := Flagged(u, m);
    FlaggedLeads(u, m, HEAD, a);
    FlaggedLeads(u, m, a, n);
    if a != n {
      if u[a].marked {
        FlagTracks(u, m, u[a].next, n);
      } else {
        LevelTracks(v, a, n);
      }
    }
  }

  lemma {:induction false} AddTracks(u: Tower, m: int, r: Rung, a: int, n: int)
    requires Ordered(u) && CanAdd(u, m, r) && a in u && Tracks(u, a, n)
    ensures Ordered(Added(u, m, r)) && Tracks(Added(u, m, r), a, n)
    decreases MAX_KEY - u[a].key, u[a].born
  {
    AddedLeads(u, m, r, HEAD, a);
    AddedLeads(u, m, r, a, n);
    if a != n && u[a].marked {
      AddTracks(u, m, r, u[a].next, n);
    }
  }

  /** Snipping a marked cell other than the one tracked, or one that then leaves the level, keeps every walk on
      track. */
  lemma {:induction false} SnipTracks(u: Tower, p: int, a: int, n: int)
    requires Ordered(u) && p in u && p != TAIL && !u[p].marked && u[p].next != TAIL && u[u[p].next].marked
    requires a in u && n in u && Tracks(u, a, n)
    requires var v := Pointed(u, p, u[u[p].next].next); Ordered(v) && Leads(v, HEAD, n)
    ensures Tracks(Pointed(u, p, u[u[p].next].next), a, n)
    decreases MAX_KEY - u[a].key, u[a].born
  {
    var y := u[p].next;
    var z := u[y].next;
    var v := Pointed(u, p, z);
    if a != n && u[a].marked {
      SnipTracks(u, p, u[a].next, n);
    } else if a != n {
      PointedLeads(u, p, z, HEAD, n);
      PointedLeads(u, p, z, HEAD, a);
      PointedLeads(u, p, z, a, n);
      if Leads(u, HEAD, p) {
        LeadsOneWay(u, HEAD, a, p);
        if !Leads(u, a, p) {
          assert Leads(u, p, a) && a != p && a != y;
          assert Leads(u, y, a) && Leads(u, z, a);
        } else if !Leads(u, z, n) {
          assert Leads(u, n, p);
        }
      } else if Leads(u, a, p) {
        LeadsOn(u, HEAD, a, p);
      }
    }
  }

  /** Linking a cell that does not lead to the one tracked keeps every walk on track, while that one is on the level. */
  lemma {:induction false} LinkTracks(u: Tower, p: int, m: int, a: int, n: int)
    requires Ordered(u) && p in u && p != TAIL && !u[p].marked && m in u && Before(u[p], u[m])
    requires a in u && n in u && Tracks(u, a, n) && !Leads(u, m, n)
    requires var v := Pointed(u, p, m); Ordered(v) && Leads(v, HEAD, n)
    ensures Tracks(Pointed(u, p, m), a, n)
    decreases MAX_KEY - u[a].key, u[a].born
  {
    var v := Pointed(u, p, m);
    if a != n && u[a].marked {
      LinkTracks(u, p, m, u[a].next, n);
    } else if a != n {
      PointedLeads(u, p, m, HEAD, n);
      PointedLeads(u, p, m, HEAD, a);
      PointedLeads(u, p, m, a, n);
      if Leads(u, HEAD, p) {
        assert Leads(u, n, p);
        LeadsOn(u, a, n, p);
      } else if Leads(u, a, p) {
        LeadsOn(u, HEAD, a, p);
      }
    }
  }
}
