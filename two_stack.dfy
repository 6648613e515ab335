/**
 * Two stacks standing for one string of entries: rev(left) * right, where a
 * stack's top is the front of its string. setLengthOfLeftStack moves entries
 * between the tops of the two stacks until left has a requested length,
 * keeping rev(left) * right fixed.
 */
module TwoStack {

  /** The reverse of a string of entries. */
  function Rev<T>(s: seq<T>): (r: seq<T>)
    ensures |r| == |s|
  {
    if s == [] then [] else [s[|s| - 1]] + Rev(s[..|s| - 1])
  }

  /** The i-th entry of rev(s) is the i-th from the end of s. */
  lemma {:induction false} RevIndex<T>(s: seq<T>, i: nat)
    requires i < |s|
    ensures Rev(s)[i] == s[|s| - 1 - i]
  {
    if i > 0 {
      RevIndex(s[..|s| - 1], i - 1);
    }
  }

  /** rev(a * b) = rev(b) * rev(a). */
  lemma {:induction false} RevConcat<T>(a: seq<T>, b: seq<T>)
    ensures Rev(a + b) == Rev(b) + Rev(a)
  {
    if b == [] {
      assert a + b == a;
    } else {
      var b' := b[..|b| - 1];
      assert (a + b)[..|a + b| - 1] == a + b';
      RevConcat(a, b');
    }
  }

  /** rev(rev(s)) = s. */
  lemma {:induction false} RevRev<T>(s: seq<T>)
    ensures Rev(Rev(s)) == s
  {
    if s != [] {
      var s' := s[..|s| - 1];
      RevConcat([s[|s| - 1]], Rev(s'));
      RevRev(s');
      assert Rev([s[|s| - 1]]) == [s[|s| - 1]];
      assert s' + [s[|s| - 1]] == s;
    }
  }

  /** A stack; its top is entries[0]. */
  class Stack<T> {
    var entries: seq<T>

    /** A new stack is empty. */
    constructor ()
      ensures entries == []
    {
      entries := [];
    }

    method Push(x: T)
      modifies this
      ensures entries == [x] + old(entries)
    {
      entries := [x] + entries;
    }

    method Pop() returns (x: T)
      requires entries != []
      modifies this
      ensures x == old(entries)[0] && entries == old(entries)[1..]
    {
      x := entries[0];
      entries := entries[1..];
    }

    method Length() returns (n: nat)
      ensures n == |entries|
    {
      n := |entries|;
    }
  }

  /**
   * The stacks after setLengthOfLeftStack(left, right, n): when left is too
   * short, the top n - |left| entries of right, one by one onto left; when it
   * is too long, the top |left| - n entries of left, one by one onto right;
   * otherwise nothing moves. Its contract is the routine's: rev(left) * right
   * is kept, and left ends with n entries.
   */
  function Shifted<T>(left: seq<T>, right: seq<T>, n: int): (r: (seq<T>, seq<T>))
    requires 0 <= n <= |left| + |right|
    ensures Rev(r.0) + r.1 == Rev(left) + right
    ensures |r.0| == n
  {
    if |left| < n then
      var k := n - |left|;
      ShiftLeftKeeps(left, right, k);
      (Rev(right[..k]) + left, right[k..])
    else if |left| > n then
      var k := |left| - n;
      ShiftRightKeeps(left, right, k);
      (left[k..], Rev(left[..k]) + right)
    else (left, right)
  }

  /** Moving the top k entries of right onto left keeps rev(left) * right. */
  lemma ShiftLeftKeeps<T>(left: seq<T>, right: seq<T>, k: nat)
    requires k <= |right|
    ensures Rev(Rev(right[..k]) + left) + right[k..] == Rev(left) + right
  {
    var top, rest := right[..k], right[k..];
    RevConcat(Rev(top), left);
    RevRev(top);
    calc {
      Rev(Rev(top) + left) + rest;
      (Rev(left) + top) + rest;
      Rev(left) + (top + rest);
      { assert top + rest == right; }
      Rev(left) + right;
    }
  }

  /** Moving the top k entries of left onto right keeps rev(left) * right. */
  lemma ShiftRightKeeps<T>(left: seq<T>, right: seq<T>, k: nat)
    requires k <= |left|
    ensures Rev(left[k..]) + (Rev(left[..k]) + right) == Rev(left) + right
  {
    SplitAt(left, k);
    RevConcatThen(left[..k], left[k..], right);
  }

  /** A string is its first k entries followed by the rest. */
  lemma SplitAt<T>(s: seq<T>, k: nat)
    requires k <= |s|
    ensures s[..k] + s[k..] == s
  {
  }

  /** rev(rest) * (rev(top) * right) = rev(top * rest) * right. */
  lemma RevConcatThen<T>(top: seq<T>, rest: seq<T>, right: seq<T>)
    ensures Rev(rest) + (Rev(top) + right) == Rev(top + rest) + right
  {
    RevConcat(top, rest);
    assert Rev(rest) + (Rev(top) + right) == (Rev(rest) + Rev(top)) + right;
  }

  /** The pair of stacks standing for a string w with n entries on the left is unique. */
  lemma {:induction false} SplitUnique<T>(left: seq<T>, right: seq<T>, left': seq<T>, right': seq<T>)
    requires Rev(left) + right == Rev(left') + right' && |left| == |left'|
    ensures left == left' && right == right'
  {
    var w := Rev(left) + right;
    assert Rev(left) == w[..|left|] == Rev(left');
    RevRev(left);
    RevRev(left');
  }

  /** The result of the shift is determined by its contract. */
  lemma ShiftedUnique<T>(left: seq<T>, right: seq<T>, n: int, left': seq<T>, right': seq<T>)
    requires 0 <= n <= |left| + |right|
    requires Rev(left') + right' == Rev(left) + right && |left'| == n
    ensures Shifted(left, right, n) == (left', right')
  {
    var r := Shifted(left, right, n);
    SplitUnique(r.0, r.1, left', right');
  }

  /** rev(s[..i + 1]) = s[i] * rev(s[..i]). */
  lemma RevPrefixStep<T>(s: seq<T>, i: nat)
    requires i < |s|
    ensures Rev(s[..i + 1]) == [s[i]] + Rev(s[..i])
  {
    assert s[..i + 1][..i] == s[..i];
  }

  /**
   * The loop of either branch of setLengthOfLeftStack: k times, pop the top
   * of one stack and push it on the other.
   */
  method Move<T>(from: Stack<T>, to: Stack<T>, k: int)
    requires from != to && 0 <= k <= |from.entries|
    modifies from, to
    ensures to.entries == Rev(old(from.entries)[..k]) + old(to.entries)
    ensures from.entries == old(from.entries)[k..]
  {
    ghost var f0, t0 := from.entries, to.entries;
    for i := 0 to k
      invariant to.entries == Rev(f0[..i]) + t0
      invariant from.entries == f0[i..]
    {
      RevPrefixStep(f0, i);
      var x := from.Pop();
      to.Push(x);
      assert f0[i..][1..] == f0[i + 1..];
    }
  }

  /**
   * setLengthOfLeftStack, the routine of SequenceTest: pop from one stack and
   * push on the other, |left| - n times in one direction or the other.
   */
  method SetLengthOfLeftStack<T>(leftStack: Stack<T>, rightStack: Stack<T>, newLeftLength: int)
    requires leftStack != rightStack
    requires 0 <= newLeftLength <= |leftStack.entries| + |rightStack.entries|
    modifies leftStack, rightStack
    ensures (leftStack.entries, rightStack.entries)
            == Shifted(old(leftStack.entries), old(rightStack.entries), newLeftLength)
  {
    var currentLeftLength := leftStack.Length();
    var requiredShift := currentLeftLength - newLeftLength;
    if requiredShift < 0 {
      requiredShift := requiredShift * -1;
      Move(rightStack, leftStack, requiredShift);
    } else if requiredShift > 0 {
      Move(leftStack, rightStack, requiredShift);
    }
  }

  /** When left already has the requested length, neither stack changes. */
  lemma ShiftedAtLength<T>(left: seq<T>, right: seq<T>)
    ensures Shifted(left, right, |left|) == (left, right)
  {
  }

  /* ------------------------------------------------------------------------
   * The shift loop of Sequence3 as written
   * ------------------------------------------------------------------------ */

  /** How the loop ends: with the two stacks, or at a pop of an empty stack. */
  datatype Outcome<T> = Ended(left: seq<T>, right: seq<T>) | PopOfEmpty

  /**
   * The loop of Sequence3.setLengthOfLeftStack: its test compares the length
   * read before the loop, g, with n, and g is never updated. When g < n each
   * round moves the top of right to the bottom of left (flip, push, flip);
   * otherwise it moves the top of left onto right.
   */
  function AsWrittenShift<T>(left: seq<T>, right: seq<T>, g: int, n: int): (r: Outcome<T>)
    ensures g == n ==> r == Ended(left, right)
    decreases if g < n then |right| else |left|
  {
    if g == n then Ended(left, right)
    else if g < n then
      if right == [] then PopOfEmpty
      else AsWrittenShift(Rev([right[0]] + Rev(left)), right[1..], g, n)
    else
      if left == [] then PopOfEmpty
      else AsWrittenShift(left[1..], [left[0]] + right, g, n)
  }

  /** As written, every call that needs a shift ends in a pop of an empty stack. */
  lemma {:induction false} AsWrittenAborts<T>(left: seq<T>, right: seq<T>, g: int, n: int)
    requires g != n
    ensures AsWrittenShift(left, right, g, n) == PopOfEmpty
    decreases if g < n then |right| else |left|
  {
    if g < n && right != [] {
      AsWrittenAborts(Rev([right[0]] + Rev(left)), right[1..], g, n);
    } else if g > n && left != [] {
      AsWrittenAborts(left[1..], [left[0]] + right, g, n);
    }
  }

  /**
   * The smallest input that shows it: left = <>, right = <x>, n = 1. The
   * routine's contract asks for left = <x>, right = <>.
   */
  lemma AsWrittenCounterexample<T>(x: T)
    ensures AsWrittenShift([], [x], 0, 1) == PopOfEmpty
    ensures Shifted([], [x], 1) == ([x], [])
  {
    AsWrittenAborts([], [x], 0, 1);
  }
}
