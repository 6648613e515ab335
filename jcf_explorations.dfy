/**
 * JCFExplorations: giveRaise, which raises the salaries of the employees
 * whose names start with a given initial by a truncated percentage, and
 * incrementAll, which adds one to every natural number in a set.
 */
module Collections {
  import opened Text

  /** Whether name starts with initial (charAt(0) == initial). */
  predicate StartsWith(name: string, initial: char) {
    |name| > 0 && name[0] == initial
  }

  /** A salary raised by raisePercent percent: value + value * raisePercent / 100, the division truncating. */
  function Raised(value: int, raisePercent: int): (r: int)
    requires value > 0 && raisePercent > 0
    ensures value <= r
    ensures 100 * (r - value) <= value * raisePercent < 100 * (r - value + 1)
  {
    value + JavaDiv(value * raisePercent, 100)
  }

  /** The salaries after giveRaise: those of the employees named with initial raised, the others as they were. */
  function RaisedMap(salaries: map<string, int>, initial: char, raisePercent: int): map<string, int>
    requires forall name :: name in salaries ==> salaries[name] > 0
    requires raisePercent > 0
  {
    map name | name in salaries ::
      if StartsWith(name, initial) then Raised(salaries[name], raisePercent) else salaries[name]
  }

  /**
   * What giveRaise promises: the same names; the salary of each name that
   * starts with initial raised, every other salary unchanged; and all salaries
   * still positive.
   */
  lemma RaisedMapContract(salaries: map<string, int>, initial: char, raisePercent: int)
    requires forall name :: name in salaries ==> salaries[name] > 0
    requires raisePercent > 0
    ensures var r := RaisedMap(salaries, initial, raisePercent);
      && r.Keys == salaries.Keys
      && (forall name :: name in salaries && StartsWith(name, initial) ==>
            r[name] == Raised(salaries[name], raisePercent) && r[name] >= salaries[name])
      && (forall name :: name in salaries && !StartsWith(name, initial) ==> r[name] == salaries[name])
      && (forall name :: name in r ==> r[name] > 0)
  {
  }

  /**
   * giveRaise: first the names that start with initial are collected, in the
   * map's iteration order; then, for each collected name in turn, its salary
   * is replaced by the raised one.
   */
  method GiveRaise(salaries: map<string, int>, initial: char, raisePercent: int) returns (raised: map<string, int>)
    requires forall name :: name in salaries ==> name != [] && salaries[name] > 0
    requires raisePercent > 0
    ensures raised == RaisedMap(salaries, initial, raisePercent)
  {
    var names: seq<string> := [];
    var unvisited := salaries.Keys;
    while unvisited != {}
      invariant unvisited <= salaries.Keys
      invariant forall i, j :: 0 <= i < j < |names| ==> names[i] != names[j]
      invariant forall name :: name in names <==>
                  name in salaries && name !in unvisited && StartsWith(name, initial)
      decreases |unvisited|
    {
      var name :| name in unvisited;
      unvisited := unvisited - {name};
      if name[0] == initial {
        names := names + [name];
      }
    }
    raised := salaries;
    ghost var done: set<string> := {};
    while |names| > 0
      invariant raised.Keys == salaries.Keys
      invariant forall name :: name in names ==> name in salaries
      invariant forall i, j :: 0 <= i < j < |names| ==> names[i] != names[j]
      invariant forall name :: name in names ==> name !in done
      invariant forall name :: name in salaries ==>
                  (StartsWith(name, initial) <==> name in names || name in done)
      invariant forall name :: name in salaries ==>
                  raised[name] == if name in done then Raised(salaries[name], raisePercent) else salaries[name]
      decreases |names|
    {
      var name := names[0];
      names := names[1..];
      var value := raised[name];
      value := value + JavaDiv(value * raisePercent, 100);
      raised := raised[name := value];
      done := done + {name};
    }
  }

  /* ------------------------------------------------------------------------
   * incrementAll
   * ------------------------------------------------------------------------ */

  /** { x + 1 | x in s }. */
  function Incremented(s: set<nat>): set<nat> {
    set x | x in s :: x + 1
  }

  /** Adding one is undone by subtracting one: Incremented loses nothing and adds nothing else. */
  lemma IncrementedMembers(s: set<nat>, y: nat)
    ensures y in Incremented(s) <==> y > 0 && y - 1 in s
  {
    if y > 0 && y - 1 in s {
      assert (y - 1) + 1 == y;
    }
  }

  /** Incrementing a set with one more element adds its successor. */
  lemma IncrementedInsert(s: set<nat>, x: nat)
    ensures Incremented(s + {x}) == Incremented(s) + {x + 1}
  {
  }

  /** The set keeps its size. */
  lemma {:induction false} IncrementedSize(s: set<nat>)
    ensures |Incremented(s)| == |s|
    decreases |s|
  {
    if s != {} {
      var x :| x in s;
      var rest := s - {x};
      IncrementedSize(rest);
      assert s == rest + {x};
      IncrementedInsert(rest, x);
      IncrementedMembers(rest, x + 1);
    }
  }

  /**
   * incrementAll: every element is removed in turn, incremented and added to
   * a new set, which then replaces the original.
   */
  method IncrementAll(s: set<nat>) returns (result: set<nat>)
    ensures result == Incremented(s)
  {
    var rest := s;
    var set2: set<nat> := {};
    while |rest| > 0
      invariant rest <= s
      invariant set2 == Incremented(s - rest)
      decreases |rest|
    {
      var a :| a in rest;
      ghost var visited := s - rest;
      rest := rest - {a};
      assert s - rest == visited + {a};
      IncrementedInsert(visited, a);
      a := a + 1;
      set2 := set2 + {a};
    }
    assert s - rest == s;
    result := set2;
  }

  /**
   * incrementAll over java.util sets: each element is copied, the copy
   * incremented and collected; then the set is cleared and refilled with the
   * collected values.
   */
  method IncrementAllByCopy(s: set<nat>) returns (result: set<nat>)
    ensures result == Incremented(s)
  {
    var set2: set<nat> := {};
    var unseen := s;
    while unseen != {}
      invariant unseen <= s
      invariant set2 == Incremented(s - unseen)
      decreases |unseen|
    {
      var n :| n in unseen;
      ghost var seen := s - unseen;
      var a := n;
      a := a + 1;
      set2 := set2 + {a};
      unseen := unseen - {n};
      assert s - unseen == seen + {n};
      IncrementedInsert(seen, n);
    }
    assert s - unseen == s;
    result := {};
    result := result + set2;
  }
}
