/**
 * Word-count maps as the word programs keep them: a word absent from the map
 * is added with count 1, a present one has its count raised by one.
 */
module Tally {

  /** The count the map holds for w, 0 when w is no key. */
  function Get(m: map<string, int>, w: string): int {
    if w in m then m[w] else 0
  }

  /** One occurrence of w counted: add it with 1, or increment its value. */
  function Bump(m: map<string, int>, w: string): map<string, int> {
    if w in m then m[w := m[w] + 1] else m[w := 1]
  }

  /** Bump raises the count of w by one, keeps every other count, and adds w as a key. */
  lemma BumpGet(m: map<string, int>, w: string, k: string)
    ensures Get(Bump(m, w), k) == Get(m, k) + (if k == w then 1 else 0)
    ensures Bump(m, w).Keys == m.Keys + {w}
  {
  }

  /** The words ws counted into m, first to last. */
  function Tallied(m: map<string, int>, ws: seq<string>): map<string, int>
    decreases ws
  {
    if ws == [] then m else Tallied(Bump(m, ws[0]), ws[1..])
  }

  /** The number of occurrences of w in ws. */
  function Occurrences(ws: seq<string>, w: string): nat {
    if ws == [] then 0 else (if ws[0] == w then 1 else 0) + Occurrences(ws[1..], w)
  }

  /** Counting ws adds to each word's count the number of its occurrences in ws. */
  lemma {:induction false} TalliedGet(m: map<string, int>, ws: seq<string>, w: string)
    ensures Get(Tallied(m, ws), w) == Get(m, w) + Occurrences(ws, w)
    decreases ws
  {
    if ws != [] {
      BumpGet(m, ws[0], w);
      TalliedGet(Bump(m, ws[0]), ws[1..], w);
    }
  }

  /** Counting ws adds exactly the words of ws as keys. */
  lemma {:induction false} TalliedKeys(m: map<string, int>, ws: seq<string>)
    ensures Tallied(m, ws).Keys == m.Keys + set i | 0 <= i < |ws| :: ws[i]
    decreases ws
  {
    if ws != [] {
      BumpGet(m, ws[0], ws[0]);
      TalliedKeys(Bump(m, ws[0]), ws[1..]);
      var rest := set i | 0 <= i < |ws[1..]| :: ws[1..][i];
      var all := set i | 0 <= i < |ws| :: ws[i];
      assert all == {ws[0]} + rest by {
        forall x | x in all ensures x in {ws[0]} + rest {
          var i :| 0 <= i < |ws| && ws[i] == x;
          if i > 0 {
            assert ws[1..][i - 1] == x;
          }
        }
      }
    }
  }

  /** Counting keeps every count positive when the initial counts are. */
  lemma {:induction false} TalliedPositive(m: map<string, int>, ws: seq<string>)
    requires forall k :: k in m ==> m[k] > 0
    ensures forall k :: k in Tallied(m, ws) ==> Tallied(m, ws)[k] > 0
    decreases ws
  {
    if ws != [] {
      TalliedPositive(Bump(m, ws[0]), ws[1..]);
    }
  }

  /** Counting w followed by ws: w first, then ws. */
  lemma TalliedCons(m: map<string, int>, w: string, ws: seq<string>)
    ensures Tallied(m, [w] + ws) == Tallied(Bump(m, w), ws)
  {
    assert ([w] + ws)[0] == w && ([w] + ws)[1..] == ws;
  }

  /** Counting one more token: the count of ts followed by t is one more count of t. */
  lemma {:induction false} TalliedSnoc(m: map<string, int>, ts: seq<string>, t: string)
    ensures Tallied(m, ts + [t]) == Bump(Tallied(m, ts), t)
    decreases ts
  {
    if ts != [] {
      assert (ts + [t])[0] == ts[0] && (ts + [t])[1..] == ts[1..] + [t];
      TalliedSnoc(Bump(m, ts[0]), ts[1..], t);
    }
  }

  /** Counting a then b is counting a * b. */
  lemma {:induction false} TalliedAppend(m: map<string, int>, a: seq<string>, b: seq<string>)
    ensures Tallied(m, a + b) == Tallied(Tallied(m, a), b)
    decreases a
  {
    if a != [] {
      assert (a + b)[0] == a[0] && (a + b)[1..] == a[1..] + b;
      TalliedAppend(Bump(m, a[0]), a[1..], b);
    } else {
      assert a + b == b;
    }
  }

  /** Occurrences counted at the end: one more exactly when the appended word is w. */
  lemma {:induction false} OccurrencesSnoc(ws: seq<string>, x: string, w: string)
    ensures Occurrences(ws + [x], w) == Occurrences(ws, w) + (if x == w then 1 else 0)
    decreases ws
  {
    if ws != [] {
      assert (ws + [x])[0] == ws[0] && (ws + [x])[1..] == ws[1..] + [x];
      OccurrencesSnoc(ws[1..], x, w);
    }
  }
}
