/** The process tree sampled from parent links: a set grown until it is closed. */
module ProcessTree {
  /** From the root down, each process the parent of the next. */
  ghost predicate Lineage(parents: map<int, int>, root: int, p: seq<int>) {
    && p != [] && p[0] == root
    && forall k | 0 < k < |p| :: p[k] in parents && parents[p[k]] == p[k - 1]
  }

  ghost predicate Descends(parents: map<int, int>, root: int, pid: int) {
    exists p :: Lineage(parents, root, p) && p[|p| - 1] == pid
  }

  lemma RootDescends(parents: map<int, int>, root: int)
    ensures Descends(parents, root, root)
  {
    assert Lineage(parents, root, [root]);
  }

  lemma ChildDescends(parents: map<int, int>, root: int, pid: int)
    requires pid in parents && Descends(parents, root, parents[pid])
    ensures Descends(parents, root, pid)
  {
    var p :| Lineage(parents, root, p) && p[|p| - 1] == parents[pid];
    assert Lineage(parents, root, p + [pid]);
  }

  /** A closed set that has the root has every descendant. */
  lemma {:induction false} ClosedHoldsLineage(parents: map<int, int>, root: int, selected: set<int>, p: seq<int>)
    requires root in selected && forall pid | pid in parents && parents[pid] in selected :: pid in selected
    requires Lineage(parents, root, p)
    ensures p[|p| - 1] in selected
    decreases |p|
  {
    if |p| > 1 {
      assert Lineage(parents, root, p[..|p| - 1]);
      ClosedHoldsLineage(parents, root, selected, p[..|p| - 1]);
    }
  }

  lemma Outside(a: set<int>, b: set<int>) returns (x: int)
    requires !(a <= b)
    ensures x in a && x !in b
  {
    if forall y :: y in a ==> y in b {
      assert false;
    }
    x :| x in a && x !in b;
  }

  /** The sampled processes below the root; the root only if it was sampled itself. */
  method Tree(parents: map<int, int>, root: int) returns (tree: set<int>)
    ensures forall pid :: pid in tree <==> pid in parents && Descends(parents, root, pid)
  {
    var selected := {root};
    RootDescends(parents, root);
    while true
      invariant root in selected && forall pid | pid in selected :: Descends(parents, root, pid)
      decreases parents.Keys - selected
    {
      var more := set pid | pid in parents && parents[pid] in selected;
      forall pid | pid in more ensures Descends(parents, root, pid) { ChildDescends(parents, root, pid); }
      if more <= selected { break; }
      ghost var added := Outside(more, selected);
      assert added in parents.Keys - selected && added !in parents.Keys - (selected + more);
      selected := selected + more;
    }
    forall pid | Descends(parents, root, pid) ensures pid in selected {
      var p :| Lineage(parents, root, p) && p[|p| - 1] == pid;
      ClosedHoldsLineage(parents, root, selected, p);
    }
    tree := set pid | pid in selected && pid in parents;
  }
}
