/** The process tree that the bridge signals: everything below one process, by the parents that the system reports. */
module Descendants {

  /** The chain of parents of `pid` arrives at `root` after `steps` steps. */
  predicate Reaches(parents: map<int, int>, pid: int, root: int, steps: nat)
    decreases steps
  {
    pid in parents && steps > 0 && if steps == 1 then parents[pid] == root
        else Reaches(parents, parents[pid], root, steps - 1)
  }

  ghost predicate IsDescendant(parents: map<int, int>, pid: int, root: int) {
    exists steps: nat :: Reaches(parents, pid, root, steps)
  }

  /** Everything whose parent is in `above` is in `found`. */
  ghost predicate ChildrenFound(parents: map<int, int>, above: set<int>, found: set<int>) {
    forall pid | pid in parents && parents[pid] in above :: pid in found
  }

  /** descendant_process_ids: exactly the processes whose ancestry reaches the root, in a map that may well have
      cycles. */
  method DescendantProcessIDs(parents: map<int, int>, root: int) returns (descendants: set<int>)
    ensures forall pid :: pid in descendants <==> IsDescendant(parents, pid, root)
  {
    descendants := {};
    var frontier := {root};
    while frontier != {}
      invariant descendants <= parents.Keys && frontier <= descendants + {root}
      invariant forall pid | pid in descendants :: IsDescendant(parents, pid, root)
      invariant ChildrenFound(parents, descendants + {root} - frontier, descendants)
      decreases |parents.Keys - descendants|, |frontier|
    {
      var children := (set pid | pid in parents && parents[pid] in frontier) - descendants;
      if children == {} {
        break;
      }
      forall pid | pid in children
        ensures IsDescendant(parents, pid, root)
      {
        if parents[pid] == root {
          assert Reaches(parents, pid, root, 1);
        } else {
          var steps: nat :| Reaches(parents, parents[pid], root, steps);
          assert Reaches(parents, pid, root, steps + 1);
        }
      }
      Shrinks(parents.Keys, descendants, children);
      descendants := descendants + children;
      frontier := children;
    }
    assert ChildrenFound(parents, descendants + {root}, descendants);
    forall pid | IsDescendant(parents, pid, root)
      ensures pid in descendants
    {
      var steps: nat :| Reaches(parents, pid, root, steps);
      ClosedHoldsAll(parents, root, descendants, pid, steps);
    }
  }

  lemma Shrinks(all: set<int>, found: set<int>, more: set<int>)
    requires more <= all && more != {} && more !! found
    ensures |all - (found + more)| < |all - found|
  {
    assert all - found == (all - (found + more)) + more;
    assert |more| > 0;
  }

  lemma {:induction false} ClosedHoldsAll(parents: map<int, int>, root: int, found: set<int>, pid: int, steps: nat)
    requires ChildrenFound(parents, found + {root}, found) && Reaches(parents, pid, root, steps)
    ensures pid in found
    decreases steps
  {
    if steps > 1 {
      ClosedHoldsAll(parents, root, found, parents[pid], steps - 1);
    }
  }
}
