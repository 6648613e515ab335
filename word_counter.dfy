/**
 * WordCounter: a scanner that splits a line into maximal runs of separator
 * and of non-separator characters, and the counting loop of its main program,
 * which counts every token (separator runs too) and lists each new token
 * that holds no separator, in the order of first occurrence.
 */
module WordCounting {
  import opened Text
  import opened Tally

  /** The separators main puts in its set. */
  const SeparatorSet: set<char> := {' ', '/', '-', '_', '&', '.', ',', '!', '?', '"', '\'', ';', ':'}

  /** Whether c is on the same side of the separator set as text[position]. */
  predicate SameSide(text: string, position: int, c: char, separators: set<char>)
    requires 0 <= position < |text|
  {
    (c in separators) == (text[position] in separators)
  }

  /** The end of the run of characters, from i on, on text[position]'s side of the separator set. */
  function RunEnd(text: string, position: int, i: int, separators: set<char>): (j: int)
    requires 0 <= position < |text| && position <= i <= |text|
    ensures i <= j <= |text|
    decreases |text| - i
  {
    if i < |text| && SameSide(text, position, text[i], separators) then RunEnd(text, position, i + 1, separators) else i
  }

  /** The run from i to RunEnd is on text[position]'s side, and the character at RunEnd is not. */
  lemma {:induction false} RunEndIsMaximal(text: string, position: int, i: int, separators: set<char>)
    requires 0 <= position < |text| && position <= i <= |text|
    ensures forall k :: i <= k < RunEnd(text, position, i, separators) ==> SameSide(text, position, text[k], separators)
    ensures var e := RunEnd(text, position, i, separators);
      e == |text| || !SameSide(text, position, text[e], separators)
    decreases |text| - i
  {
    if i < |text| && SameSide(text, position, text[i], separators) {
      RunEndIsMaximal(text, position, i + 1, separators);
    }
  }

  /** The word or separator string at position. */
  function Token(text: string, position: int, separators: set<char>): (r: string)
    requires 0 <= position < |text|
    ensures 1 <= |r| && position + |r| <= |text| && r == text[position..position + |r|]
  {
    text[position..RunEnd(text, position, position, separators)]
  }

  /**
   * nextWordOrSeparator: characters on text[position]'s side are appended to
   * output one at a time; the first one on the other side sets count to the
   * length of the rest of the text, which ends the loop.
   */
  method NextWordOrSeparator(text: string, position: int, separators: set<char>) returns (output: string)
    requires 0 <= position < |text|
    ensures output == Token(text, position, separators)
  {
    output := "";
    var count := 0;
    var returned := ' ';
    ghost var e := RunEnd(text, position, position, separators);
    if text[position] in separators {
      while count < |text[position..]|
        invariant 0 <= count <= |text| - position
        invariant position + |output| <= e && output == text[position..position + |output|]
        invariant count == |output| || (count == |text| - position && position + |output| == e)
        invariant count == |output| ==> RunEnd(text, position, position + count, separators) == e
        decreases |text| - position - count
      {
        returned := text[position + count];
        if text[position + count] in separators {
          RunGoesOn(text, position, count, separators, e);
          output := output + [returned];
          count := count + 1;
        } else {
          RunStops(text, position, count, separators, e);
          count := |text[position..]|;
        }
      }
    } else {
      while count < |text[position..]|
        invariant 0 <= count <= |text| - position
        invariant position + |output| <= e && output == text[position..position + |output|]
        invariant count == |output| || (count == |text| - position && position + |output| == e)
        invariant count == |output| ==> RunEnd(text, position, position + count, separators) == e
        decreases |text| - position - count
      {
        returned := text[position + count];
        if text[position + count] !in separators {
          RunGoesOn(text, position, count, separators, e);
          output := output + [returned];
          count := count + 1;
        } else {
          RunStops(text, position, count, separators, e);
          count := |text[position..]|;
        }
      }
    }
  }

  /** A character on text[position]'s side extends the run scanned so far, which still ends at e. */
  lemma RunGoesOn(text: string, position: int, count: int, separators: set<char>, e: int)
    requires 0 <= position && 0 <= count && position + count < |text|
    requires RunEnd(text, position, position + count, separators) == e
    requires SameSide(text, position, text[position + count], separators)
    ensures position + count + 1 <= e
    ensures RunEnd(text, position, position + count + 1, separators) == e
    ensures text[position..position + count] + [text[position + count]] == text[position..position + count + 1]
  {
  }

  /** A character on the other side ends the run scanned so far at e. */
  lemma RunStops(text: string, position: int, count: int, separators: set<char>, e: int)
    requires 0 <= position && 0 <= count && position + count < |text|
    requires RunEnd(text, position, position + count, separators) == e
    requires !SameSide(text, position, text[position + count], separators)
    ensures position + count == e
  {
  }

  /**
   * The token is the maximal run on text[position]'s side: a run of
   * separators when text[position] is one, a run of other characters
   * otherwise, ending at the end of the text or at the other side.
   */
  lemma TokenIsMaximalRun(text: string, position: int, separators: set<char>)
    requires 0 <= position < |text|
    ensures var r := Token(text, position, separators);
      var e := position + |r|;
      && (text[position] in separators ==>
            (forall k :: 0 <= k < |r| ==> r[k] in separators)
            && (e == |text| || text[e] !in separators))
      && (text[position] !in separators ==>
            (forall k :: 0 <= k < |r| ==> r[k] !in separators)
            && (e == |text| || text[e] in separators))
  {
    var r := Token(text, position, separators);
    RunEndIsMaximal(text, position, position, separators);
    forall k | 0 <= k < |r|
      ensures SameSide(text, position, r[k], separators)
    {
      assert r[k] == text[position + k];
    }
  }

  /* ------------------------------------------------------------------------
   * The counting loop
   * ------------------------------------------------------------------------ */

  /** The tokens the scan of a line visits from index to the end. */
  function Tokens(line: string, index: int, separators: set<char>): (ts: seq<string>)
    requires 0 <= index <= |line|
    ensures forall i :: 0 <= i < |ts| ==> ts[i] != []
    decreases |line| - index
  {
    if index == |line| then []
    else
      var t := Token(line, index, separators);
      [t] + Tokens(line, index + |t|, separators)
  }

  /** The scan advances by the token lengths and covers the rest of the line exactly. */
  lemma {:induction false} TokensCoverLine(line: string, index: int, separators: set<char>)
    requires 0 <= index <= |line|
    ensures Concat(Tokens(line, index, separators)) == line[index..]
    decreases |line| - index
  {
    if index < |line| {
      var t := Token(line, index, separators);
      var rest := Tokens(line, index + |t|, separators);
      TokensCoverLine(line, index + |t|, separators);
      assert Tokens(line, index, separators) == [t] + rest;
      assert ([t] + rest)[1..] == rest;
      assert line[index..] == t + line[index + |t|..];
    }
  }

  /** The tokens of all lines, line by line. */
  function AllTokens(lines: seq<string>, separators: set<char>): seq<string> {
    if lines == [] then [] else Tokens(lines[0], 0, separators) + AllTokens(lines[1..], separators)
  }

  /** Whether w holds a separator. */
  predicate HasSeparator(w: string, separators: set<char>) {
    exists i :: 0 <= i < |w| && w[i] in separators
  }

  /** The tokens of ts that are listed: each at its first occurrence, when it holds no separator. */
  function NewWords(ts: seq<string>, separators: set<char>): seq<string> {
    if ts == [] then []
    else
      var front, t := ts[..|ts| - 1], ts[|ts| - 1];
      NewWords(front, separators) + (if t !in front && !HasSeparator(t, separators) then [t] else [])
  }

  /** A word is listed exactly when it occurs among the tokens and holds no separator. */
  lemma {:induction false} NewWordsMember(ts: seq<string>, separators: set<char>, x: string)
    ensures x in NewWords(ts, separators) <==> x in ts && !HasSeparator(x, separators)
  {
    if ts != [] {
      var front := ts[..|ts| - 1];
      NewWordsMember(front, separators, x);
      assert ts == front + [ts[|ts| - 1]];
    }
  }

  /** No word is listed twice. */
  lemma {:induction false} NewWordsDistinct(ts: seq<string>, separators: set<char>)
    ensures var ws := NewWords(ts, separators);
      forall i, j :: 0 <= i < j < |ws| ==> ws[i] != ws[j]
  {
    if ts != [] {
      var front, t := ts[..|ts| - 1], ts[|ts| - 1];
      NewWordsDistinct(front, separators);
      if t !in front {
        NewWordsMember(front, separators, t);
      }
    }
  }

  /**
   * The body of the inner loop for one token: its count is raised (removed
   * and added again with one more) or it is added with count 1; a token added
   * for the first time is enqueued on both lists when it holds no separator.
   */
  method CountTerm(termsCount: map<string, int>, wordsList: seq<string>, wordsListCopy: seq<string>,
                   currentWord: string, separators: set<char>)
    returns (termsCount': map<string, int>, wordsList': seq<string>, wordsListCopy': seq<string>)
    ensures termsCount' == Bump(termsCount, currentWord)
    ensures var added := if currentWord !in termsCount && !HasSeparator(currentWord, separators)
                         then [currentWord] else [];
      wordsList' == wordsList + added && wordsListCopy' == wordsListCopy + added
  {
    termsCount', wordsList', wordsListCopy' := termsCount, wordsList, wordsListCopy;
    if currentWord in termsCount' {
      var tempCount := termsCount'[currentWord];
      tempCount := tempCount + 1;
      termsCount' := termsCount' - {currentWord};
      termsCount' := termsCount'[currentWord := tempCount];
    } else {
      termsCount' := termsCount'[currentWord := 1];
      var containsSeparator := ContainsSeparator(currentWord, separators);
      if !containsSeparator {
        wordsList' := wordsList' + [currentWord];
        wordsListCopy' := wordsListCopy' + [currentWord];
      }
    }
  }

  /** The for-loop over the characters of a word that breaks at the first separator. */
  method ContainsSeparator(word: string, separators: set<char>) returns (containsSeparator: bool)
    ensures containsSeparator <==> HasSeparator(word, separators)
  {
    containsSeparator := false;
    var i := 0;
    while i < |word|
      invariant 0 <= i <= |word|
      invariant !containsSeparator
      invariant forall k :: 0 <= k < i ==> word[k] !in separators
    {
      if word[i] in separators {
        containsSeparator := true;
        return;
      }
      i := i + 1;
    }
  }

  /** The counts and lists after the tokens done, with the tokens still to come making up all. */
  ghost predicate Counted(termsCount: map<string, int>, wordsList: seq<string>, wordsListCopy: seq<string>,
                          done: seq<string>, separators: set<char>)
  {
    && termsCount == Tallied(map[], done)
    && wordsList == NewWords(done, separators)
    && wordsListCopy == wordsList
  }

  /** One token more keeps the counts and lists in step with the tokens done. */
  lemma CountedStep(termsCount: map<string, int>, wordsList: seq<string>, wordsListCopy: seq<string>,
                    done: seq<string>, t: string, separators: set<char>,
                    termsCount': map<string, int>, wordsList': seq<string>, wordsListCopy': seq<string>)
    requires Counted(termsCount, wordsList, wordsListCopy, done, separators)
    requires termsCount' == Bump(termsCount, t)
    requires var added := if t !in termsCount && !HasSeparator(t, separators) then [t] else [];
      wordsList' == wordsList + added && wordsListCopy' == wordsListCopy + added
    ensures Counted(termsCount', wordsList', wordsListCopy', done + [t], separators)
  {
    TalliedSnoc(map[], done, t);
    TalliedKeys(map[], done);
    assert (done + [t])[..|done|] == done;
    assert t in termsCount <==> t in done by {
      forall x | x in done ensures x in set i | 0 <= i < |done| :: done[i] {
        var i :| 0 <= i < |done| && done[i] == x;
      }
    }
  }

  /**
   * The reading loop of main, over the lines of the input: every token of
   * every line is counted, and wordsList and wordsListCopy receive each
   * token without separators at its first occurrence.
   */
  method CountTerms(lines: seq<string>, separators: set<char>)
    returns (termsCount: map<string, int>, wordsList: seq<string>, wordsListCopy: seq<string>)
    ensures termsCount == Tallied(map[], AllTokens(lines, separators))
    ensures wordsList == NewWords(AllTokens(lines, separators), separators)
    ensures wordsListCopy == wordsList
  {
    termsCount, wordsList, wordsListCopy := map[], [], [];
    ghost var done: seq<string> := [];
    for li := 0 to |lines|
      invariant done + AllTokens(lines[li..], separators) == AllTokens(lines, separators)
      invariant Counted(termsCount, wordsList, wordsListCopy, done, separators)
    {
      var currentLine := lines[li];
      AllTokensStep(lines, li, separators, done);
      termsCount, wordsList, wordsListCopy := CountLine(currentLine, separators, termsCount, wordsList, wordsListCopy, done);
      done := done + Tokens(currentLine, 0, separators);
    }
    assert lines[|lines|..] == [];
    assert done + [] == done;
  }

  /** The tokens of the lines from li on are those of line li followed by those of the lines after it. */
  lemma AllTokensStep(lines: seq<string>, li: nat, separators: set<char>, done: seq<string>)
    requires li < |lines| && done + AllTokens(lines[li..], separators) == AllTokens(lines, separators)
    ensures (done + Tokens(lines[li], 0, separators)) + AllTokens(lines[li + 1..], separators)
            == AllTokens(lines, separators)
  {
    assert lines[li..][1..] == lines[li + 1..];
    assert AllTokens(lines[li..], separators)
           == Tokens(lines[li], 0, separators) + AllTokens(lines[li + 1..], separators);
  }

  /** The inner loop of main over one line: each token the scan visits is counted in turn. */
  method CountLine(currentLine: string, separators: set<char>,
                   termsCount: map<string, int>, wordsList: seq<string>, wordsListCopy: seq<string>,
                   ghost done: seq<string>)
    returns (termsCount': map<string, int>, wordsList': seq<string>, wordsListCopy': seq<string>)
    requires Counted(termsCount, wordsList, wordsListCopy, done, separators)
    ensures Counted(termsCount', wordsList', wordsListCopy', done + Tokens(currentLine, 0, separators), separators)
  {
    termsCount', wordsList', wordsListCopy' := termsCount, wordsList, wordsListCopy;
    ghost var d := done;
    var index := 0;
    while index < |currentLine|
      invariant 0 <= index <= |currentLine|
      invariant d + Tokens(currentLine, index, separators) == done + Tokens(currentLine, 0, separators)
      invariant Counted(termsCount', wordsList', wordsListCopy', d, separators)
      decreases |currentLine| - index
    {
      var currentWord := NextWordOrSeparator(currentLine, index, separators);
      ghost var c0, w0, k0 := termsCount', wordsList', wordsListCopy';
      termsCount', wordsList', wordsListCopy' := CountTerm(termsCount', wordsList', wordsListCopy', currentWord, separators);
      CountedStep(c0, w0, k0, d, currentWord, separators, termsCount', wordsList', wordsListCopy');
      ghost var rest := Tokens(currentLine, index + |currentWord|, separators);
      assert Tokens(currentLine, index, separators) == [currentWord] + rest;
      d := d + [currentWord];
      index := index + |currentWord|;
    }
    assert d + [] == d;
  }

  /** AlphabeticalComparator: compareToIgnoreCase. */
  function Alphabetical(o1: string, o2: string): (r: int)
    ensures r == 0 <==> LowerString(o1) == LowerString(o2)
    ensures r == -CompareToIgnoreCase(o2, o1)
  {
    CompareToIgnoreCaseZero(o1, o2);
    CompareToSwap(LowerString(o1), LowerString(o2));
    CompareToIgnoreCase(o1, o2)
  }
}
