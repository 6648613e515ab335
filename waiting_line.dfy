/**
 * WaitingLine: a queue (front at index 0) with kernel operations joinLine,
 * leaveLine and sizeOfLine, and secondary operations written on top of them.
 * Searching and removing drain the line into a temporary line and append that
 * back, so what remains comes back rotated.
 */
module WaitingLines {
  import opened Text

  /* ------------------------------------------------------------------------
   * Values the secondary operations leave behind
   * ------------------------------------------------------------------------ */

  /** The index of the first occurrence of x in s, or |s| when x does not occur. */
  function FirstIndex<T(==)>(s: seq<T>, x: T): (k: nat)
    ensures k <= |s| && x !in s[..k]
    ensures k < |s| ==> s[k] == x
    ensures k == |s| <==> x !in s
  {
    if s == [] then 0
    else if s[0] == x then 0
    else
      assert s[1..][..FirstIndex(s[1..], x)] == s[1..FirstIndex(s[1..], x) + 1];
      FirstIndex(s[1..], x) + 1
  }

  /** s after the entry at k leaves, the entries behind it first: s[k+1..] * s[..k]. */
  function RemovedRotated<T>(s: seq<T>, k: nat): seq<T>
    requires k < |s|
  {
    s[k + 1..] + s[..k]
  }

  /** The number of entries removeFromLine(pos) moves aside: pos, or none when pos is negative. */
  function Skipped(pos: int): (k: nat)
    ensures pos >= 0 ==> k == pos
    ensures pos < 0 ==> k == 0
  {
    if pos < 0 then 0 else pos
  }

  /** s rotated so that the entry at k is at the front: s[k..] * s[..k]. */
  function Rotated<T>(s: seq<T>, k: nat): seq<T>
    requires k <= |s|
  {
    s[k..] + s[..k]
  }

  /** Removing at k loses one entry, exactly s[k], and keeps every other. */
  lemma RemovedRotatedEntries<T>(s: seq<T>, k: nat)
    requires k < |s|
    ensures |RemovedRotated(s, k)| == |s| - 1
    ensures multiset(RemovedRotated(s, k)) + multiset{s[k]} == multiset(s)
  {
    assert s == s[..k] + [s[k]] + s[k + 1..];
  }

  /** Removing at k in order loses one entry, exactly s[k], and keeps every other. */
  lemma RemovedInOrderEntries<T>(s: seq<T>, k: nat)
    requires k < |s|
    ensures |s[..k] + s[k + 1..]| == |s| - 1
    ensures multiset(s[..k] + s[k + 1..]) + multiset{s[k]} == multiset(s)
  {
    assert s == s[..k] + [s[k]] + s[k + 1..];
  }

  /**
   * On the line <1, 2, 3>, removeFromLine(1) leaves <3, 1> where <1, 3> is
   * meant, and isInLine(2) leaves <2, 3, 1> where the line should be restored.
   */
  lemma RotationCounterexample()
    ensures RemovedRotated([1, 2, 3], 1) == [3, 1] != [1, 2, 3][..1] + [1, 2, 3][2..]
    ensures FirstIndex([1, 2, 3], 2) == 1 && Rotated([1, 2, 3], 1) == [2, 3, 1] != [1, 2, 3]
  {
    var s := [1, 2, 3];
    assert s[2..] == [3] && s[..1] == [1] && s[1..] == [2, 3];
    assert RemovedRotated(s, 1) == [3, 1];
    assert [3, 1] != [1, 3];
    assert FirstIndex([2, 3], 2) == 0;
    assert FirstIndex(s, 2) == 1;
    assert Rotated(s, 1) == [2, 3, 1];
    assert [2, 3, 1] != s;
  }

  /** A rotation keeps the entries and puts s[k] in front. */
  lemma RotatedEntries<T>(s: seq<T>, k: nat)
    requires k < |s|
    ensures multiset(Rotated(s, k)) == multiset(s)
    ensures Rotated(s, k)[0] == s[k]
  {
    assert s == s[..k] + s[k..];
  }

  /** The entries rendered and separated by commas between angle brackets. */
  function Shown<T>(s: seq<T>, show: T -> string): (r: seq<string>)
    ensures |r| == |s| && forall i :: 0 <= i < |s| ==> r[i] == show(s[i])
  {
    if s == [] then [] else Shown(s[..|s| - 1], show) + [show(s[|s| - 1])]
  }

  /** Appending one more part to a join adds the separator and the part. */
  lemma {:induction false} JoinSnoc(parts: seq<string>, sep: string, p: string)
    requires parts != []
    ensures Join(parts + [p], sep) == Join(parts, sep) + sep + p
  {
    if |parts| > 1 {
      JoinSnoc(parts[1..], sep, p);
      assert (parts + [p])[1..] == parts[1..] + [p];
    } else {
      assert parts + [p] == [parts[0], p];
    }
  }

  /** toString's text of an empty line is "<>", and of a one-entry line "<" + x + ">". */
  lemma ShownShortLines<T>(x: T, show: T -> string)
    ensures "<" + Join(Shown([], show), ",") + ">" == "<>"
    ensures "<" + Join(Shown([x], show), ",") + ">" == "<" + show(x) + ">"
  {
    assert Shown([x], show) == [show(x)];
  }

  /* ------------------------------------------------------------------------
   * The component
   * ------------------------------------------------------------------------ */

  /** WaitingLine1: the entries of the line, front first. */
  class WaitingLine<T(==)> {
    var line: seq<T>

    /** createNewRep through the no-argument constructor: an empty line. */
    constructor ()
      ensures line == []
    {
      line := [];
    }

    /** transferFrom: this takes source's line and source becomes empty. */
    method TransferFrom(source: WaitingLine<T>)
      requires source != this
      modifies this, source
      ensures line == old(source.line) && source.line == []
    {
      line := source.line;
      source.line := [];
    }

    /** clear: this = <>. */
    method Clear()
      modifies this
      ensures line == []
    {
      line := [];
    }

    /** joinLine(x): x joins at the back. */
    method JoinLine(x: T)
      modifies this
      ensures line == old(line) + [x]
    {
      line := line + [x];
    }

    /** leaveLine: the front entry leaves and is returned. */
    method LeaveLine() returns (x: T)
      requires line != []
      modifies this
      ensures x == old(line)[0] && line == old(line)[1..]
    {
      x := line[0];
      line := line[1..];
    }

    /** sizeOfLine: the number of entries. */
    method SizeOfLine() returns (n: nat)
      ensures n == |line|
    {
      n := |line|;
    }

    /** iterator: the entries it visits, front to back. */
    method Iterator() returns (visits: seq<T>)
      ensures visits == line
    {
      visits := line;
    }

    /** firstInLine: the front entry; the line is unchanged. */
    method FirstInLine() returns (x: T)
      requires line != []
      ensures x == line[0]
    {
      var visits := Iterator();
      x := visits[0];
    }

    /**
     * replaceFirstInLine(x): the old front is returned and this = <x> * #this[1..];
     * the line is rebuilt through a temporary queue.
     */
    method ReplaceFirstInLine(x: T) returns (replaced: T)
      requires line != []
      modifies this
      ensures replaced == old(line)[0]
      ensures line == [x] + old(line)[1..]
    {
      ghost var s := line;
      var temp := [x];
      replaced := LeaveLine();
      var n := SizeOfLine();
      while n > 0
        invariant n == |line| && temp + line == [x] + s[1..]
        decreases n
      {
        var y := LeaveLine();
        temp := temp + [y];
        n := SizeOfLine();
      }
      while |temp| > 0
        invariant line + temp == [x] + s[1..]
        decreases |temp|
      {
        var y := temp[0];
        temp := temp[1..];
        JoinLine(y);
      }
    }

    /** appendToLine(q): this = #this * #q and q = <>. */
    method AppendToLine(q: WaitingLine<T>)
      requires q != this
      modifies this, q
      ensures line == old(line) + old(q.line) && q.line == []
    {
      ghost var whole := line + q.line;
      var n := q.SizeOfLine();
      while n > 0
        invariant n == |q.line| && line + q.line == whole
        decreases n
      {
        var y := q.LeaveLine();
        JoinLine(y);
        n := q.SizeOfLine();
      }
    }

    /**
     * removeFromLine(pos): returns #this[pos]; the entries before pos go through
     * a temporary line that is appended back, so this = #this[pos+1..] * #this[..pos].
     * A negative pos moves nothing and removes the first entry.
     */
    method RemoveFromLineAt(pos: int) returns (returned: T)
      requires pos < |line| && line != []
      modifies this
      ensures returned == old(line)[Skipped(pos)]
      ensures line == RemovedRotated(old(line), Skipped(pos))
    {
      ghost var s := line;
      var temp := new WaitingLine<T>();
      for i := 0 to Skipped(pos)
        invariant temp.line == s[..i] && line == s[i..]
      {
        assert s[..i + 1] == s[..i] + [s[i]];
        var y := LeaveLine();
        temp.JoinLine(y);
      }
      returned := LeaveLine();
      AppendToLine(temp);
    }

    /**
     * removeFromLine(element): returns the index of the first occurrence and
     * removes it, leaving the rotation #this[pos+1..] * #this[..pos]. When the
     * element does not occur, |this| is returned and the line is unchanged.
     */
    method RemoveFromLine(element: T) returns (pos: int)
      modifies this
      ensures pos == FirstIndex(old(line), element)
      ensures pos < |old(line)| ==> line == RemovedRotated(old(line), pos)
      ensures pos == |old(line)| ==> line == old(line)
    {
      ghost var s := line;
      pos := 0;
      var flag := false;
      var temp := new WaitingLine<T>();
      var n := SizeOfLine();
      while n > 0 && !flag
        invariant n == |line| && 0 <= pos <= |s| && element !in s[..pos] && temp.line == s[..pos]
        invariant !flag ==> line == s[pos..]
        invariant flag ==> pos < |s| && s[pos] == element && line == s[pos + 1..]
        decreases n
      {
        var currentElement := LeaveLine();
        if currentElement == element {
          flag := true;
        } else {
          assert s[..pos + 1] == s[..pos] + [s[pos]];
          temp.JoinLine(currentElement);
          pos := pos + 1;
        }
        n := SizeOfLine();
      }
      assert !flag ==> s[..pos] == s;
      AppendToLine(temp);
    }

    /**
     * isInLine(element): whether the element occurs; when it does, the line is
     * left rotated to start at its first occurrence, #this[k..] * #this[..k].
     */
    method IsInLine(element: T) returns (inLine: bool)
      modifies this
      ensures inLine <==> element in old(line)
      ensures inLine ==> line == Rotated(old(line), FirstIndex(old(line), element))
      ensures !inLine ==> line == old(line)
    {
      ghost var s := line;
      ghost var k := 0;
      inLine := false;
      var temp := new WaitingLine<T>();
      var n := SizeOfLine();
      while n > 0 && !inLine
        invariant n == |line| && 0 <= k <= |s| && element !in s[..k] && temp.line == s[..k]
        invariant line == s[k..]
        invariant inLine ==> k < |s| && s[k] == element
        decreases n, !inLine
      {
        var first := FirstInLine();
        if first == element {
          inLine := true;
        } else {
          assert s[..k + 1] == s[..k] + [s[k]];
          var y := LeaveLine();
          temp.JoinLine(y);
          k := k + 1;
        }
        n := SizeOfLine();
      }
      assert !inLine ==> s[..k] == s;
      assert inLine ==> k == FirstIndex(s, element);
      AppendToLine(temp);
    }

    /**
     * removeFromLine(pos) as its contract means it: the entry at pos leaves
     * and the others keep their order. The entries before pos and then those
     * after it go through the temporary line, which then becomes this.
     */
    method RemoveFromLineInOrder(pos: int) returns (returned: T)
      requires 0 <= pos < |line|
      modifies this
      ensures returned == old(line)[pos]
      ensures line == old(line)[..pos] + old(line)[pos + 1..]
    {
      ghost var s := line;
      var temp := new WaitingLine<T>();
      for i := 0 to pos
        invariant temp.line == s[..i] && line == s[i..]
      {
        assert s[..i + 1] == s[..i] + [s[i]];
        var y := LeaveLine();
        temp.JoinLine(y);
      }
      returned := LeaveLine();
      temp.AppendToLine(this);
      TransferFrom(temp);
    }

    /**
     * removeFromLine(element) keeping the order of the other entries: the
     * index of the first occurrence is returned and that entry leaves; when
     * the element does not occur, |this| is returned and the line is unchanged.
     */
    method RemoveElementInOrder(element: T) returns (pos: int)
      modifies this
      ensures pos == FirstIndex(old(line), element)
      ensures pos < |old(line)| ==> line == old(line)[..pos] + old(line)[pos + 1..]
      ensures pos == |old(line)| ==> line == old(line)
    {
      ghost var s := line;
      pos := 0;
      var flag := false;
      var temp := new WaitingLine<T>();
      var n := SizeOfLine();
      while n > 0 && !flag
        invariant n == |line| && 0 <= pos <= |s| && element !in s[..pos] && temp.line == s[..pos]
        invariant !flag ==> line == s[pos..]
        invariant flag ==> pos < |s| && s[pos] == element && line == s[pos + 1..]
        decreases n
      {
        var currentElement := LeaveLine();
        if currentElement == element {
          flag := true;
        } else {
          assert s[..pos + 1] == s[..pos] + [s[pos]];
          temp.JoinLine(currentElement);
          pos := pos + 1;
        }
        n := SizeOfLine();
      }
      assert !flag ==> s[..pos] == s;
      temp.AppendToLine(this);
      TransferFrom(temp);
    }

    /** isInLine(element) restoring this: whether the element occurs, with the line as it was. */
    method IsInLineRestoring(element: T) returns (inLine: bool)
      modifies this
      ensures inLine <==> element in old(line)
      ensures line == old(line)
    {
      ghost var s := line;
      ghost var k := 0;
      inLine := false;
      var temp := new WaitingLine<T>();
      var n := SizeOfLine();
      while n > 0 && !inLine
        invariant n == |line| && 0 <= k <= |s| && element !in s[..k] && temp.line == s[..k]
        invariant line == s[k..]
        invariant inLine ==> k < |s| && s[k] == element
        decreases n, !inLine
      {
        var first := FirstInLine();
        if first == element {
          inLine := true;
        } else {
          assert s[..k + 1] == s[..k] + [s[k]];
          var y := LeaveLine();
          temp.JoinLine(y);
          k := k + 1;
        }
        n := SizeOfLine();
      }
      assert !inLine ==> s[..k] == s;
      assert s == s[..k] + s[k..];
      temp.AppendToLine(this);
      TransferFrom(temp);
    }

    /**
     * placeInLine(element) as intended: the index of the first occurrence of
     * the element, with the line restored. The entries before it and then the
     * rest go through the temporary line, which then becomes this.
     */
    method PlaceInLine(element: T) returns (pos: int)
      requires element in line
      modifies this
      ensures pos == FirstIndex(old(line), element)
      ensures line == old(line)
    {
      ghost var s := line;
      pos := 0;
      var temp := new WaitingLine<T>();
      var first := FirstInLine();
      while first != element
        invariant 0 <= pos < |s| && element !in s[..pos] && temp.line == s[..pos] && line == s[pos..]
        invariant element in s[pos..] && first == s[pos]
        decreases |s| - pos
      {
        SearchStep(s, pos, element);
        PassFront(temp);
        pos := pos + 1;
        first := FirstInLine();
      }
      assert s == s[..pos] + s[pos..];
      temp.AppendToLine(this);
      TransferFrom(temp);
    }

    /** One round of placeInLine's search: the front entry leaves this line and joins temp. */
    method PassFront(temp: WaitingLine<T>)
      requires temp != this && line != []
      modifies this, temp
      ensures temp.line == old(temp.line) + [old(line)[0]] && line == old(line)[1..]
    {
      var y := LeaveLine();
      temp.JoinLine(y);
    }

    /** toString: "<", the entries separated by ",", then ">". */
    method ToString(show: T -> string) returns (r: string)
      ensures r == "<" + Join(Shown(line, show), ",") + ">"
    {
      var result := "<";
      var visits := Iterator();
      for i := 0 to |visits|
        invariant result == "<" + Join(Shown(visits[..i], show), ",")
                              + (if 0 < i < |visits| then "," else "")
      {
        assert visits[..i + 1] == visits[..i] + [visits[i]];
        if i > 0 {
          JoinSnoc(Shown(visits[..i], show), ",", show(visits[i]));
        }
        result := result + show(visits[i]);
        if i + 1 < |visits| {
          result := result + ",";
        }
      }
      assert visits[..|visits|] == visits;
      r := result + ">";
    }

    /** equals: equal sizes and pairwise equal entries, front to back. */
    method Equals(w: WaitingLine<T>) returns (isEqual: bool)
      ensures isEqual <==> line == w.line
    {
      isEqual := true;
      var size1 := SizeOfLine();
      var size2 := w.SizeOfLine();
      if size1 != size2 {
        isEqual := false;
      } else if w == this {
        isEqual := true;
      } else {
        var it1 := Iterator();
        var it2 := w.Iterator();
        for i := 0 to |it1|
          invariant isEqual <==> it1[..i] == it2[..i]
        {
          assert it1[..i + 1] == it1[..i] + [it1[i]] && it2[..i + 1] == it2[..i] + [it2[i]];
          if it1[i] != it2[i] {
            isEqual := false;
          }
        }
        assert it1[..|it1|] == it1 && it2[..|it2|] == it2;
      }
    }
  }

  /** Passing an entry other than element, when element is still ahead, keeps it ahead and not behind. */
  lemma SearchStep<T>(s: seq<T>, pos: nat, element: T)
    requires pos < |s| && element !in s[..pos] && element in s[pos..] && s[pos] != element
    ensures pos + 1 < |s| && element !in s[..pos + 1] && element in s[pos + 1..]
    ensures s[..pos + 1] == s[..pos] + [s[pos]] && s[pos..][1..] == s[pos + 1..]
  {
    assert s[pos..] == [s[pos]] + s[pos + 1..];
  }

  /* ------------------------------------------------------------------------
   * removeFromLine(pos) under the interface's precondition
   * ------------------------------------------------------------------------ */

  /** The removed entry and the rotated rest, or LeaveOfEmpty when the final leaveLine meets an empty line. */
  datatype Removal<T> = Removed(entry: T, rest: seq<T>) | LeaveOfEmpty

  /**
   * removeFromLine(pos) for every pos the interface admits, 0 <= pos <= |this|:
   * after pos entries move to the temporary line, leaveLine needs an entry.
   */
  function RemoveFromLineAsSpecified<T>(s: seq<T>, pos: int): (r: Removal<T>)
    requires 0 <= pos <= |s|
    ensures r.Removed? <==> pos < |s|
    ensures r.Removed? ==> r.entry == s[pos] && |r.rest| == |s| - 1
  {
    if pos < |s| then Removed(s[pos], RemovedRotated(s, pos)) else LeaveOfEmpty
  }

  /** pos = |this| is admitted by the interface, and the code then dequeues from an empty line. */
  lemma RemoveAtLengthFails<T>(s: seq<T>)
    ensures RemoveFromLineAsSpecified(s, |s|) == LeaveOfEmpty
  {
  }

  /* ------------------------------------------------------------------------
   * placeInLine(element) as written
   * ------------------------------------------------------------------------ */

  /** The reported position, or the abort of a leaveLine or firstInLine on an empty line. */
  datatype Place = At(pos: nat) | EmptyLineRead

  /**
   * placeInLine as written: while the front of this is not the element, an
   * entry is moved from the temporary line to itself. The temporary line
   * starts empty and this never changes, so only an element at the front is
   * placed; otherwise the first leaveLine meets an empty line.
   */
  function PlaceInLineAsWritten<T(==)>(s: seq<T>, element: T): (r: Place)
    ensures r.At? <==> s != [] && s[0] == element
    ensures r.At? ==> r.pos == FirstIndex(s, element)
  {
    if s != [] && s[0] == element then At(0) else EmptyLineRead
  }

  /** On the line <1, 2>, placeInLine(2) aborts, where position 1 is meant. */
  lemma PlaceInLineCounterexample()
    ensures PlaceInLineAsWritten([1, 2], 2) == EmptyLineRead
    ensures FirstIndex([1, 2], 2) == 1
  {
    var s := [1, 2];
    assert s[1..] == [2];
    assert FirstIndex([2], 2) == 0;
  }
}
