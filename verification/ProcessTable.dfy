/** `inventory`: the processes below a parent, from one snapshot of the process table. */
module ProcessTable {

  // A table maps a process id to its parent's; a snapshot may be inconsistent, even cyclic.

  /** Following n parent links from `pid` leads to `root`. */
  ghost predicate Descends(table: map<int, int>, root: int, pid: int, n: nat)
    decreases n
  {
    if n == 0 then pid == root else pid in table && Descends(table, root, table[pid], n - 1)
  }

  ghost predicate IsDescendant(table: map<int, int>, root: int, pid: int) {
    exists n: nat :: Descends(table, root, pid, n)
  }

  /** Contains the root and, with any process, its children. */
  ghost predicate Closed(table: map<int, int>, root: int, s: set<int>) {
    root in s && forall pid :: pid in table && table[pid] in s ==> pid in s
  }

  function Children(table: map<int, int>, found: set<int>): set<int> {
    set pid | pid in table && table[pid] in found
  }

  lemma {:induction false} DescendantsAreIn(table: map<int, int>, root: int, s: set<int>, pid: int, n: nat)
    requires Closed(table, root, s) && Descends(table, root, pid, n)
    ensures pid in s
    decreases n
  {
    if n > 0 { DescendantsAreIn(table, root, s, table[pid], n - 1); }
  }

  lemma ChildDescends(table: map<int, int>, root: int, pid: int)
    requires pid in table && IsDescendant(table, root, table[pid])
    ensures IsDescendant(table, root, pid)
  {
    var n: nat :| Descends(table, root, table[pid], n);
    assert Descends(table, root, pid, n + 1);
  }

  /**
   Terminates on every table, cyclic ones included, with exactly the processes that reach the parent through
   parent links: the least set that contains the parent and is closed under children.
   */
  method Inventory(table: map<int, int>, parent: int) returns (found: set<int>, known: set<int>)
    ensures forall pid :: pid in found <==> IsDescendant(table, parent, pid)
    ensures Closed(table, parent, found)
    ensures forall s: set<int> :: Closed(table, parent, s) ==> found <= s
    ensures known == table.Keys
  {
    found, known := {parent}, table.Keys;
    assert Descends(table, parent, parent, 0);
    while true
      invariant parent in found
      invariant forall pid :: pid in found ==> IsDescendant(table, parent, pid)
      decreases table.Keys - found
    {
      var extra := Children(table, found) - found;
      if extra == {} {
        NothingOutside(Children(table, found), found);
        LeastClosed(table, parent, found);
        return;
      }
      forall pid | pid in extra ensures IsDescendant(table, parent, pid) { ChildDescends(table, parent, pid); }
      Shrinks(table, found, extra);
      found := found + extra;
    }
  }

  lemma Shrinks(table: map<int, int>, found: set<int>, extra: set<int>)
    requires extra != {} && extra <= Children(table, found) - found
    ensures table.Keys - (found + extra) < table.Keys - found
  {
    var pid := ElementOf(extra);
    assert pid in table.Keys - found;
  }

  lemma ElementOf<T>(s: set<T>) returns (x: T)
    requires s != {}
    ensures x in s
  {
    x :| x in s;
  }

  lemma NothingOutside<T>(s: set<T>, t: set<T>)
    requires s - t == {}
    ensures s <= t
  {
    forall x | x in s ensures x in t { assert x in t || x in s - t; }
  }

  lemma LeastClosed(table: map<int, int>, root: int, found: set<int>)
    requires root in found && Children(table, found) <= found
    requires forall pid :: pid in found ==> IsDescendant(table, root, pid)
    ensures Closed(table, root, found)
    ensures forall pid :: pid in found <==> IsDescendant(table, root, pid)
    ensures forall s: set<int> :: Closed(table, root, s) ==> found <= s
  {
    forall pid | pid in table && table[pid] in found ensures pid in found { assert pid in Children(table, found); }
    forall s: set<int> | Closed(table, root, s) ensures found <= s {
      forall pid | pid in found ensures pid in s {
        var n: nat :| Descends(table, root, pid, n);
        DescendantsAreIn(table, root, s, pid, n);
      }
    }
    forall pid | IsDescendant(table, root, pid) ensures pid in found {
      var n: nat :| Descends(table, root, pid, n);
      DescendantsAreIn(table, root, found, pid, n);
    }
  }
}
