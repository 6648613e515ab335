/**
 * Sequence3: a sequence represented by two stacks, with the correspondence
 * this = rev(left) * right. Every positional operation first shifts entries so
 * that left holds exactly the entries before the position.
 */
module SequenceOnStack {
  import opened TwoStack

  class Sequence3<T> {
    var left: Stack<T>
    var right: Stack<T>

    /** The representation invariant: two distinct stacks. */
    predicate Valid()
      reads this
    {
      left != right
    }

    /** The abstract value, rev(left) * right. */
    function Value(): seq<T>
      reads this, left, right
    {
      Rev(left.entries) + right.entries
    }

    /** createNewRep through the no-argument constructor: two new empty stacks. */
    constructor ()
      ensures Valid() && fresh(left) && fresh(right)
      ensures Value() == []
    {
      left := new Stack<T>();
      right := new Stack<T>();
    }

    /** clear: a fresh representation, so this = <>. */
    method Clear()
      modifies this
      ensures Valid() && fresh(left) && fresh(right)
      ensures Value() == []
    {
      left := new Stack<T>();
      right := new Stack<T>();
    }

    /** transferFrom: this takes source's stacks, and source gets a fresh, empty representation. */
    method TransferFrom(source: Sequence3<T>)
      requires source != this && source.Valid()
      modifies this, source
      ensures Valid() && source.Valid()
      ensures Value() == old(source.Value())
      ensures source.Value() == [] && fresh(source.left) && fresh(source.right)
    {
      left := source.left;
      right := source.right;
      source.left := new Stack<T>();
      source.right := new Stack<T>();
    }

    /** add(pos, x): this = #this[0, pos) * <x> * #this[pos, |#this|). */
    method Add(pos: int, x: T)
      requires Valid() && 0 <= pos <= |Value()|
      modifies left, right
      ensures Valid()
      ensures Value() == old(Value())[..pos] + [x] + old(Value())[pos..]
    {
      ghost var w := Value();
      SetLengthOfLeftStack(left, right, pos);
      ghost var l := left.entries;
      assert Rev(l) + right.entries == w && |l| == pos;
      assert Rev(l) == w[..pos] && right.entries == w[pos..];
      right.Push(x);
    }

    /**
     * remove(pos) as its contract means it: the entry at pos, which is the
     * top of right once left holds the first pos entries, is popped and
     * returned.
     */
    method Remove(pos: int) returns (x: T)
      requires Valid() && 0 <= pos < |Value()|
      modifies left, right
      ensures Valid()
      ensures x == old(Value())[pos]
      ensures Value() == old(Value())[..pos] + old(Value())[pos + 1..]
    {
      ghost var w := Value();
      SetLengthOfLeftStack(left, right, pos);
      ghost var l := left.entries;
      assert Rev(l) + right.entries == w && |l| == pos;
      assert Rev(l) == w[..pos] && right.entries == w[pos..];
      x := right.Pop();
    }

    /**
     * remove(pos) as written: after the shift it pops left, whose top is the
     * entry at pos - 1; for pos = 0 left is empty.
     */
    method RemoveAsWritten(pos: int) returns (x: T)
      requires Valid() && 0 < pos < |Value()|
      modifies left, right
      ensures Valid()
      ensures x == old(Value())[pos - 1]
      ensures Value() == old(Value())[..pos - 1] + old(Value())[pos..]
    {
      ghost var w := Value();
      SetLengthOfLeftStack(left, right, pos);
      ghost var l := left.entries;
      assert Rev(l) + right.entries == w && |l| == pos;
      assert Rev(l) == w[..pos] && right.entries == w[pos..];
      RevIndex(l, pos - 1);
      assert l[0] == Rev(l)[pos - 1];
      RevConcat([l[0]], l[1..]);
      assert l == [l[0]] + l[1..];
      assert Rev(l[1..]) == w[..pos - 1];
      x := left.Pop();
    }

    /** flip as its contract means it: the two stacks trade places, so this = rev(#this). */
    method Flip()
      requires Valid()
      modifies this
      ensures Valid()
      ensures Value() == Rev(old(Value()))
    {
      RevConcat(Rev(left.entries), right.entries);
      RevRev(left.entries);
      left, right := right, left;
    }

    /**
     * flip as written: right gets a new empty stack and left the same one, so
     * the entries are lost and the two fields share one stack.
     */
    method FlipAsWritten()
      modifies this
      ensures left == right && !Valid()
      ensures Value() == []
    {
      var temp := new Stack<T>();
      right := temp;
      left := right;
      temp := left;
    }

    /** length: |left| + |right|, the length of this. */
    method Length() returns (n: int)
      ensures n == |Value()|
    {
      n := |left.entries| + |right.entries|;
    }

    /**
     * entry(pos): #this[pos], read as the top of right once left holds the
     * first pos entries; this is unchanged.
     */
    method Entry(pos: int) returns (p: T)
      requires Valid() && 0 <= pos < |Value()|
      modifies left, right
      ensures Valid()
      ensures p == old(Value())[pos]
      ensures Value() == old(Value())
    {
      ghost var w := Value();
      SetLengthOfLeftStack(left, right, pos);
      ghost var l := left.entries;
      assert Rev(l) + right.entries == w && |l| == pos;
      assert right.entries == w[pos..];
      p := right.Pop();
      right.Push(p);
    }

    /**
     * iterator: empties left first, so right alone holds this in order; the
     * entries the iterator visits are returned.
     */
    method Iterator() returns (visits: seq<T>)
      requires Valid()
      modifies left, right
      ensures Valid()
      ensures visits == old(Value()) && Value() == old(Value())
      ensures left.entries == [] && right.entries == Value()
    {
      SetLengthOfLeftStack(left, right, 0);
      visits := right.entries;
    }
  }
}
