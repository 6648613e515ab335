/**
 * TagCloudGeneratorStandard: splitting a line into words and separator
 * strings, counting the lower-cased words, the two orders on (word, count)
 * entries, and the font a count gets in the cloud.
 */
module TagCloudStandard {
  import opened Text
  import opened Tally

  /** SEPARATORS. */
  const Separators: string := " \t\n\r,-.!?[]';:/()"

  /** SEPARATORS.indexOf(c): the index of c in SEPARATORS, -1 for a word character. */
  function Kind(c: char): (k: int)
    ensures -1 <= k < |Separators|
  {
    match c
    case ' ' => 0 case '\t' => 1 case '\n' => 2 case '\r' => 3
    case ',' => 4 case '-' => 5 case '.' => 6 case '!' => 7
    case '?' => 8 case '[' => 9 case ']' => 10 case '\'' => 11
    case ';' => 12 case ':' => 13 case '/' => 14 case '(' => 15
    case ')' => 16
    case _ => -1
  }

  /** Kind is SEPARATORS.indexOf: -1 exactly for the characters outside SEPARATORS, else c's index. */
  lemma KindIsIndex(c: char)
    ensures Kind(c) == -1 <==> c !in Separators
    ensures Kind(c) >= 0 ==> Separators[Kind(c)] == c
  {
  }

  /**
   * The end of the run that nextWordOrSeparator scans from position, looking
   * on from i: the first index that is the end of the text or whose character
   * has another SEPARATORS index than text[position].
   */
  function RunEnd(text: string, position: int, i: int): (j: int)
    requires 0 <= position < i <= |text|
    ensures i <= j <= |text|
    decreases |text| - i
  {
    if i < |text| && Kind(text[i]) == Kind(text[position]) then RunEnd(text, position, i + 1) else i
  }

  /** The run from i to RunEnd has text[position]'s SEPARATORS index, and the run is maximal. */
  lemma {:induction false} RunEndIsMaximal(text: string, position: int, i: int)
    requires 0 <= position < i <= |text|
    ensures forall k :: i <= k < RunEnd(text, position, i) ==> Kind(text[k]) == Kind(text[position])
    ensures RunEnd(text, position, i) == |text| || Kind(text[RunEnd(text, position, i)]) != Kind(text[position])
    decreases |text| - i
  {
    if i < |text| && Kind(text[i]) == Kind(text[position]) {
      RunEndIsMaximal(text, position, i + 1);
    }
  }

  /** The word or separator string that starts at position. */
  function Token(text: string, position: int): (r: string)
    requires 0 <= position < |text|
    ensures 1 <= |r| && position + |r| <= |text|
  {
    text[position..RunEnd(text, position, position + 1)]
  }

  /**
   * nextWordOrSeparator: i runs on from position + 1 while the character at i
   * has the same SEPARATORS index as text[position].
   */
  method NextWordOrSeparator(text: string, position: int) returns (r: string)
    requires 0 <= position < |text|
    ensures r == Token(text, position)
  {
    var i := position + 1;
    while i < |text| && Kind(text[position]) == Kind(text[i])
      invariant position < i <= |text|
      invariant RunEnd(text, position, i) == RunEnd(text, position, position + 1)
      decreases |text| - i
    {
      i := i + 1;
    }
    r := text[position..i];
  }

  /**
   * The contract of nextWordOrSeparator: a word is a maximal run of word
   * characters; a separator string is a run of one separator character,
   * repeated, that ends at the text's end or at another character.
   */
  lemma TokenIsMaximalRun(text: string, position: int)
    requires 0 <= position < |text|
    ensures Token(text, position) == text[position..position + |Token(text, position)|]
    ensures var r := Token(text, position);
      var e := position + |r|;
      if Kind(text[position]) < 0 then
        && (forall k :: 0 <= k < |r| ==> r[k] !in Separators)
        && (e == |text| || text[e] in Separators)
      else
        && (forall k :: 0 <= k < |r| ==> r[k] == text[position])
        && (e == |text| || text[e] != text[position])
  {
    var r := Token(text, position);
    var e := position + |r|;
    assert e == RunEnd(text, position, position + 1);
    RunEndIsMaximal(text, position, position + 1);
    forall k | 0 <= k < |r|
      ensures Kind(r[k]) == Kind(text[position])
    {
      assert r[k] == text[position + k];
    }
  }

  /** The tokens the scan of getCountMap visits from position to the end of the line. */
  function Tokens(line: string, position: int): (ts: seq<string>)
    requires 0 <= position <= |line|
    ensures forall i :: 0 <= i < |ts| ==> ts[i] != []
    decreases |line| - position
  {
    if position == |line| then []
    else
      var t := Token(line, position);
      [t] + Tokens(line, position + |t|)
  }

  /** The scan advances by the token lengths and covers the rest of the line exactly. */
  lemma {:induction false} TokensCoverLine(line: string, position: int)
    requires 0 <= position <= |line|
    ensures Concat(Tokens(line, position)) == line[position..]
    decreases |line| - position
  {
    if position < |line| {
      var t := Token(line, position);
      var rest := Tokens(line, position + |t|);
      TokensCoverLine(line, position + |t|);
      assert Tokens(line, position) == [t] + rest;
      assert ([t] + rest)[1..] == rest;
      assert line[position..] == t + line[position + |t|..];
    }
  }

  /** The words getCountMap counts: each token lower-cased, kept when its first character is no separator. */
  function Counted(tokens: seq<string>): (ws: seq<string>)
    requires forall i :: 0 <= i < |tokens| ==> tokens[i] != []
    ensures |ws| <= |tokens|
  {
    if tokens == [] then []
    else
      var w := LowerString(tokens[0]);
      (if Kind(w[0]) < 0 then [w] else []) + Counted(tokens[1..])
  }

  /** Every counted word is nonempty and starts with a character outside SEPARATORS. */
  lemma {:induction false} CountedAreWords(tokens: seq<string>)
    requires forall i :: 0 <= i < |tokens| ==> tokens[i] != []
    ensures forall i :: 0 <= i < |Counted(tokens)| ==> Counted(tokens)[i] != [] && Kind(Counted(tokens)[i][0]) < 0
  {
    if tokens != [] {
      CountedAreWords(tokens[1..]);
      var w := LowerString(tokens[0]);
      var rest := Counted(tokens[1..]);
      var ws := Counted(tokens);
      if Kind(w[0]) < 0 {
        assert ws == [w] + rest;
        forall i | 0 <= i < |ws|
          ensures ws[i] != [] && Kind(ws[i][0]) < 0
        {
          if i > 0 {
            assert ws[i] == rest[i - 1];
          }
        }
      } else {
        assert Counted(tokens) == [] + rest == rest;
      }
    }
  }

  /** The words still to be counted when the scan is at position. */
  function Remaining(line: string, position: int): seq<string>
    requires 0 <= position <= |line|
  {
    Counted(Tokens(line, position))
  }

  /**
   * getCountMap: scan the line token by token, counting each lower-cased word
   * into entries; the map, updated in place in the source, is returned.
   */
  method GetCountMap(line: string, entries: map<string, int>) returns (counted: map<string, int>)
    ensures counted == Tallied(entries, Remaining(line, 0))
  {
    counted := entries;
    var position := 0;
    ghost var total := Tallied(entries, Remaining(line, 0));
    while position < |line|
      invariant 0 <= position <= |line|
      invariant CountsTo(counted, line, position, total)
      decreases |line| - position
    {
      counted, position := CountNext(line, position, counted, total);
    }
  }

  /**
   * One round of getCountMap's loop: the token at position is scanned and,
   * lower-cased, counted when it is a word; the scan moves past it.
   */
  method CountNext(line: string, position: int, counted: map<string, int>, ghost total: map<string, int>)
    returns (counted': map<string, int>, next: int)
    requires CountsTo(counted, line, position, total) && position < |line|
    ensures CountsTo(counted', line, next, total) && position < next
  {
    var token := NextWordOrSeparator(line, position);
    var word := LowerString(token);
    counted' := CountWord(counted, word);
    next := position + |token|;
    CountStep(line, position, counted, total, word, next);
  }

  /**
   * The body of getCountMap's loop for one token, lower-cased: a word is added
   * with count 1 or has its count incremented; a separator string is skipped.
   */
  method CountWord(m: map<string, int>, word: string) returns (counted: map<string, int>)
    requires word != []
    ensures counted == StepCount(m, word)
  {
    counted := m;
    if Kind(word[0]) < 0 {
      if word !in counted {
        counted := counted[word := 1];
      } else {
        var value := counted[word];
        counted := counted[word := value + 1];
      }
    }
  }

  /** Counting the words from position on into m gives total. */
  ghost predicate CountsTo(m: map<string, int>, line: string, position: int, total: map<string, int>) {
    0 <= position <= |line| && Tallied(m, Remaining(line, position)) == total
  }

  /** What one round of getCountMap's loop does to the count map. */
  function StepCount(m: map<string, int>, word: string): map<string, int>
    requires word != []
  {
    if Kind(word[0]) < 0 then Bump(m, word) else m
  }

  /** Counting from position is one round, on the token there, then counting from the next position. */
  lemma CountStep(line: string, position: int, m: map<string, int>, total: map<string, int>, word: string, next: int)
    requires CountsTo(m, line, position, total) && position < |line|
    requires word == LowerString(Token(line, position)) && next == position + |Token(line, position)|
    ensures CountsTo(StepCount(m, word), line, next, total)
  {
    RemainingStep(line, position);
    TalliedRest(m, total, word, Remaining(line, position), Remaining(line, next));
  }

  /** When the words before are the token's contribution followed by after, one round leaves after to count. */
  lemma TalliedRest(m: map<string, int>, total: map<string, int>, word: string, before: seq<string>, after: seq<string>)
    requires word != [] && before == Kept(word) + after && Tallied(m, before) == total
    ensures Tallied(StepCount(m, word), after) == total
  {
    TalliedKept(m, word, after);
  }

  /** The token, lower-cased, as a list of the words it contributes: itself when it is a word, nothing otherwise. */
  function Kept(word: string): seq<string>
    requires word != []
  {
    if Kind(word[0]) < 0 then [word] else []
  }

  /** Counting what a token contributes, then ws, is one round of the loop followed by counting ws. */
  lemma TalliedKept(m: map<string, int>, word: string, ws: seq<string>)
    requires word != []
    ensures Tallied(m, Kept(word) + ws) == Tallied(StepCount(m, word), ws)
  {
    if Kind(word[0]) < 0 {
      TalliedCons(m, word, ws);
    } else {
      assert Kept(word) + ws == ws;
    }
  }

  /** The words from position on: the token there, lower-cased, when it is a word, then the words after it. */
  lemma RemainingStep(line: string, position: int)
    requires 0 <= position < |line|
    ensures var t := Token(line, position);
      Remaining(line, position) == Kept(LowerString(t)) + Remaining(line, position + |t|)
  {
    var t := Token(line, position);
    var rest := Tokens(line, position + |t|);
    assert Tokens(line, position) == [t] + rest;
    assert ([t] + rest)[0] == t && ([t] + rest)[1..] == rest;
  }

  /** Separator strings are never counted: every key getCountMap adds starts with a word character. */
  lemma NoSeparatorKeys(line: string, entries: map<string, int>)
    ensures forall k :: k in Tallied(entries, Remaining(line, 0)) && k !in entries ==>
              k != [] && k[0] !in Separators
  {
    var ws := Remaining(line, 0);
    TalliedKeys(entries, ws);
    CountedAreWords(Tokens(line, 0));
    forall k | k in Tallied(entries, ws) && k !in entries
      ensures k != [] && k[0] !in Separators
    {
      var i :| 0 <= i < |ws| && ws[i] == k;
      KindIsIndex(k[0]);
    }
  }

  /* ------------------------------------------------------------------------
   * The reading loop of main: the file's lines are a parameter, and a
   * readLine past the last line is null
   * ------------------------------------------------------------------------ */

  /** The words getCountMap counts when it is called on each of lines in turn. */
  function LinesWords(lines: seq<string>): seq<string>
  {
    if lines == [] then [] else LinesWords(lines[..|lines| - 1]) + Remaining(lines[|lines| - 1], 0)
  }

  /** The lines at even indexes that another line follows. */
  function EveryOtherLine(lines: seq<string>): seq<string>
  {
    seq(|lines| / 2, k requires 0 <= k < |lines| / 2 => lines[2 * k])
  }

  /**
   * main's loop as written: the line read before the loop is counted only
   * when the loop condition reads another one, which is then dropped, and the
   * next line read replaces the counted one. So the lines at odd indexes,
   * and the last line read, are never counted.
   */
  method CountFileAsWritten(lines: seq<string>) returns (entries: map<string, int>)
    ensures entries == Tallied(map[], LinesWords(EveryOtherLine(lines)))
  {
    entries := map[];
    // line holds lines[n - 1] once n lines are read; "" stands for null,
    // which is never counted: after a null line the condition reads null too
    var line := if |lines| > 0 then lines[0] else "";
    var n := 1;
    ghost var pairs: nat := 0;
    while n < |lines|
      invariant n == 2 * pairs + 1 && n <= |lines| + 1
      invariant n < |lines| ==> line == lines[n - 1]
      invariant entries == Tallied(map[], LinesWords(EveryOtherLine(lines[..2 * pairs])))
      decreases |lines| - n
    {
      n := n + 1;
      AsWrittenStep(lines, pairs, entries);
      entries := GetCountMap(line, entries);
      line := if n < |lines| then lines[n] else "";
      n := n + 1;
      pairs := pairs + 1;
    }
    EveryOtherEnd(lines, pairs);
  }

  /** main's loop as intended: every line read is counted, and reading stops at null. */
  method CountFile(lines: seq<string>) returns (entries: map<string, int>)
    ensures entries == Tallied(map[], LinesWords(lines))
  {
    entries := map[];
    var n := 0;
    while n < |lines|
      invariant 0 <= n <= |lines|
      invariant entries == Tallied(map[], LinesWords(lines[..n]))
      decreases |lines| - n
    {
      var line := lines[n];
      EveryLineStep(lines, n, entries);
      entries := GetCountMap(line, entries);
      n := n + 1;
    }
    assert lines[..n] == lines;
  }

  /** One round of the loop as written: counting lines[k] counts the lines passed among the first k + 2. */
  lemma AsWrittenStep(lines: seq<string>, pairs: nat, entries: map<string, int>)
    requires 2 * pairs + 2 <= |lines|
    requires entries == Tallied(map[], LinesWords(EveryOtherLine(lines[..2 * pairs])))
    ensures Tallied(entries, Remaining(lines[2 * pairs], 0))
         == Tallied(map[], LinesWords(EveryOtherLine(lines[..2 * pairs + 2])))
  {
    var before := EveryOtherLine(lines[..2 * pairs]);
    EveryOtherStep(lines, pairs);
    LinesWordsStep(before, lines[2 * pairs]);
    TalliedAppend(map[], LinesWords(before), Remaining(lines[2 * pairs], 0));
  }

  /** One round of the intended loop: counting lines[n] counts the first n + 1 lines. */
  lemma EveryLineStep(lines: seq<string>, n: nat, entries: map<string, int>)
    requires n < |lines|
    requires entries == Tallied(map[], LinesWords(lines[..n]))
    ensures Tallied(entries, Remaining(lines[n], 0)) == Tallied(map[], LinesWords(lines[..n + 1]))
  {
    assert lines[..n + 1] == lines[..n] + [lines[n]];
    LinesWordsStep(lines[..n], lines[n]);
    TalliedAppend(map[], LinesWords(lines[..n]), Remaining(lines[n], 0));
  }

  /** One more line counted: its words follow those of the lines before. */
  lemma LinesWordsStep(lines: seq<string>, line: string)
    ensures LinesWords(lines + [line]) == LinesWords(lines) + Remaining(line, 0)
  {
    assert (lines + [line])[..|lines|] == lines;
  }

  /** Two more lines read by the loop as written add the first of them. */
  lemma EveryOtherStep(lines: seq<string>, pairs: nat)
    requires 2 * pairs + 2 <= |lines|
    ensures EveryOtherLine(lines[..2 * pairs + 2]) == EveryOtherLine(lines[..2 * pairs]) + [lines[2 * pairs]]
  {
  }

  /** Where the loop as written stops, the lines passed are those of the whole file. */
  lemma EveryOtherEnd(lines: seq<string>, pairs: nat)
    requires |lines| - 1 <= 2 * pairs <= |lines|
    ensures EveryOtherLine(lines[..2 * pairs]) == EveryOtherLine(lines)
  {
  }

  /**
   * Every word of every line is counted by the intended loop: each line's
   * words are among the words counted, as often as they occur in the line.
   */
  lemma {:induction false} EveryLineCounted(lines: seq<string>, i: int)
    requires 0 <= i < |lines|
    ensures multiset(Remaining(lines[i], 0)) <= multiset(LinesWords(lines))
    decreases |lines|
  {
    var last := |lines| - 1;
    var before, words := LinesWords(lines[..last]), Remaining(lines[last], 0);
    assert lines == lines[..last] + [lines[last]];
    LinesWordsStep(lines[..last], lines[last]);
    assert multiset(LinesWords(lines)) == multiset(before) + multiset(words);
    if i < last {
      EveryLineCounted(lines[..last], i);
      assert lines[..last][i] == lines[i];
    }
  }

  /**
   * The loop as written on a file of one line "a": nothing is counted,
   * where the intended loop counts a once.
   */
  lemma OneLineUncounted()
    ensures Tallied(map[], LinesWords(EveryOtherLine(["a"]))) == map[]
    ensures Tallied(map[], LinesWords(["a"])) == map["a" := 1]
  {
    assert EveryOtherLine(["a"]) == [];
    assert Token("a", 0) == "a" by {
      assert RunEnd("a", 0, 1) == 1;
    }
    assert LowerString("a") == "a";
    assert Kind('a') == -1;
    RemainingStep("a", 0);
    assert Remaining("a", 0) == ["a"];
    LinesWordsStep([], "a");
    assert [] + ["a"] == ["a"];
  }

  /* ------------------------------------------------------------------------
   * The documented reading of nextWordOrSeparator: a separator string is the
   * maximal run of any separators, not only of copies of one of them. The
   * words, and so the counts, are the same under both readings.
   * ------------------------------------------------------------------------ */

  /** The end of the run, looking on from i, of characters on text[position]'s side of SEPARATORS. */
  function SideEnd(text: string, position: int, i: int): (j: int)
    requires 0 <= position < i <= |text|
    ensures i <= j <= |text|
    decreases |text| - i
  {
    if i < |text| && (Kind(text[i]) < 0) == (Kind(text[position]) < 0) then SideEnd(text, position, i + 1) else i
  }

  /** The run from i to SideEnd stays on text[position]'s side, and the run is maximal. */
  lemma {:induction false} SideEndIsMaximal(text: string, position: int, i: int)
    requires 0 <= position < i <= |text|
    ensures forall k :: i <= k < SideEnd(text, position, i) ==> (Kind(text[k]) < 0) == (Kind(text[position]) < 0)
    ensures SideEnd(text, position, i) == |text| || (Kind(text[SideEnd(text, position, i)]) < 0) != (Kind(text[position]) < 0)
    decreases |text| - i
  {
    if i < |text| && (Kind(text[i]) < 0) == (Kind(text[position]) < 0) {
      SideEndIsMaximal(text, position, i + 1);
    }
  }

  /** The token as documented: the maximal word or the maximal separator string at position. */
  function DocumentedToken(text: string, position: int): (r: string)
    requires 0 <= position < |text|
    ensures 1 <= |r| && position + |r| <= |text|
  {
    text[position..SideEnd(text, position, position + 1)]
  }

  /** The tokens the documented scanner visits from position to the end of the line. */
  function DocumentedTokens(line: string, position: int): (ts: seq<string>)
    requires 0 <= position <= |line|
    ensures forall i :: 0 <= i < |ts| ==> ts[i] != []
    decreases |line| - position
  {
    if position == |line| then []
    else
      var t := DocumentedToken(line, position);
      [t] + DocumentedTokens(line, position + |t|)
  }

  /** From a word character both scans stop at the same place. */
  lemma {:induction false} WordRunEnds(text: string, position: int, i: int)
    requires 0 <= position < i <= |text| && Kind(text[position]) < 0
    ensures RunEnd(text, position, i) == SideEnd(text, position, i)
    decreases |text| - i
  {
    if i < |text| && Kind(text[i]) == Kind(text[position]) {
      WordRunEnds(text, position, i + 1);
    }
  }

  /** A run of one separator ends no later than the run of all separators it lies in. */
  lemma {:induction false} SeparatorRunEnd(text: string, position: int, i: int, q: int)
    requires 0 <= position < i <= q <= |text|
    requires q == |text| || Kind(text[q]) < 0
    requires Kind(text[position]) >= 0
    ensures RunEnd(text, position, i) <= q
    decreases q - i
  {
    if i < q && Kind(text[i]) == Kind(text[position]) {
      SeparatorRunEnd(text, position, i + 1, q);
    }
  }

  /** A separator string, lower-cased, contributes no word. */
  lemma SeparatorNotKept(t: string)
    requires t != [] && Kind(t[0]) >= 0
    ensures Kept(LowerString(t)) == []
  {
    SeparatorNotLetter(t[0]);
    assert LowerString(t)[0] == t[0];
  }

  /** No separator is an upper-case letter. */
  lemma SeparatorNotLetter(c: char)
    requires Kind(c) >= 0
    ensures !('A' <= c <= 'Z')
  {
  }

  /** The words the documented scan counts from position: the token there, then the words after it. */
  lemma DocumentedStep(line: string, position: int)
    requires 0 <= position < |line|
    ensures var d := DocumentedToken(line, position);
      Counted(DocumentedTokens(line, position)) == Kept(LowerString(d)) + Counted(DocumentedTokens(line, position + |d|))
  {
    var d := DocumentedToken(line, position);
    var rest := DocumentedTokens(line, position + |d|);
    assert DocumentedTokens(line, position) == [d] + rest;
    assert ([d] + rest)[0] == d && ([d] + rest)[1..] == rest;
  }

  /** Nothing in front leaves a sequence as it is. */
  lemma NothingBefore<T>(a: seq<T>, b: seq<T>)
    requires a == []
    ensures a + b == b
  {
  }

  /** The scan through a run of separators that ends at q counts nothing before q. */
  lemma {:induction false} SeparatorRunSkipped(line: string, p: int, q: int)
    requires 0 <= p < q <= |line|
    requires forall k :: p <= k < q ==> Kind(line[k]) >= 0
    requires q == |line| || Kind(line[q]) < 0
    ensures Remaining(line, p) == Remaining(line, q)
    decreases q - p
  {
    var e := p + |Token(line, p)|;
    assert Kind(line[p]) >= 0;
    SeparatorCountsNothing(line, p);
    SeparatorRunEnd(line, p, p + 1, q);
    if e < q {
      SeparatorRunSkipped(line, e, q);
      SameAs(Remaining(line, p), Remaining(line, e), Remaining(line, q));
    } else {
      assert e == q;
    }
  }

  /** Equality carried along a chain of two steps. */
  lemma SameAs<T>(a: seq<T>, b: seq<T>, c: seq<T>)
    requires a == b && b == c
    ensures a == c
  {
  }

  /** The code's scan counts nothing for a separator string. */
  lemma SeparatorCountsNothing(line: string, p: int)
    requires 0 <= p < |line| && Kind(line[p]) >= 0
    ensures Remaining(line, p) == Remaining(line, p + |Token(line, p)|)
  {
    var t := Token(line, p);
    assert t[0] == line[p];
    SeparatorNotKept(t);
    RemainingStep(line, p);
    NothingBefore(Kept(LowerString(t)), Remaining(line, p + |t|));
  }

  /** From a word character both scanners return the same word. */
  lemma WordTokenAgrees(line: string, position: int)
    requires 0 <= position < |line| && Kind(line[position]) < 0
    ensures Token(line, position) == DocumentedToken(line, position)
  {
    WordRunEnds(line, position, position + 1);
  }

  /** From a separator the documented token counts nothing, and neither does the code's scan up to its end. */
  lemma SeparatorTokenSkipped(line: string, position: int)
    requires 0 <= position < |line| && Kind(line[position]) >= 0
    ensures var d := DocumentedToken(line, position);
      Kept(LowerString(d)) == [] && Remaining(line, position) == Remaining(line, position + |d|)
  {
    var d := DocumentedToken(line, position);
    SideEndIsMaximal(line, position, position + 1);
    SeparatorNotKept(d);
    SeparatorRunSkipped(line, position, position + |d|);
  }

  /** The readings differ on separator strings: in ", " the code sees "," and then " ", the documentation ", ". */
  lemma SeparatorReadingsDiffer()
    ensures Token(", ", 0) == "," && Token(", ", 1) == " "
    ensures DocumentedToken(", ", 0) == ", "
  {
    assert RunEnd(", ", 0, 1) == 1;
    assert SideEnd(", ", 0, 2) == 2;
  }

  /** The code's scan and the documented scan count the same words, in the same order. */
  lemma {:induction false} CountedAsDocumented(line: string, position: int)
    requires 0 <= position <= |line|
    ensures Remaining(line, position) == Counted(DocumentedTokens(line, position))
    decreases |line| - position
  {
    if position < |line| {
      CountedAsDocumented(line, position + |DocumentedToken(line, position)|);
      AgreeStep(line, position);
    } else {
      NothingAtEnd(line);
    }
  }

  /** When both scans agree after the documented token at position, they agree from position. */
  lemma AgreeStep(line: string, position: int)
    requires 0 <= position < |line|
    requires var q := position + |DocumentedToken(line, position)|;
      Remaining(line, q) == Counted(DocumentedTokens(line, q))
    ensures Remaining(line, position) == Counted(DocumentedTokens(line, position))
  {
    DocumentedStep(line, position);
    RemainingDocumentedStep(line, position);
  }

  /** At the end of the line both scans have nothing left to count. */
  lemma NothingAtEnd(line: string)
    ensures Remaining(line, |line|) == [] && Counted(DocumentedTokens(line, |line|)) == []
  {
  }

  /** The code's scan from position counts what the documented token there contributes, then the words after it. */
  lemma RemainingDocumentedStep(line: string, position: int)
    requires 0 <= position < |line|
    ensures var d := DocumentedToken(line, position);
      Remaining(line, position) == Kept(LowerString(d)) + Remaining(line, position + |d|)
  {
    if Kind(line[position]) < 0 {
      WordTokenAgrees(line, position);
      RemainingStep(line, position);
    } else {
      var d := DocumentedToken(line, position);
      SeparatorTokenSkipped(line, position);
      NothingBefore(Kept(LowerString(d)), Remaining(line, position + |d|));
    }
  }

  /* ------------------------------------------------------------------------
   * Orders on entries and the font scale
   * ------------------------------------------------------------------------ */

  /** A map entry: a word and its count. */
  datatype Entry = Entry(key: string, value: int)

  /** AlphabeticalComparator: case-insensitive key order, ties broken by descending count. */
  function Alphabetical(o1: Entry, o2: Entry): int {
    var c := CompareToIgnoreCase(o1.key, o2.key);
    if c == 0 then IntegerCompare(o2.value, o1.value) else c
  }

  /** CompareArgs: descending count, ties broken by ascending key. */
  function ByCount(o1: Entry, o2: Entry): int {
    var c := IntegerCompare(o2.value, o1.value);
    if c == 0 then CompareTo(o1.key, o2.key) else c
  }

  /** CompareArgs puts o1 first exactly when its count is larger, or equal with a smaller key. */
  lemma ByCountOrder(o1: Entry, o2: Entry)
    ensures ByCount(o1, o2) < 0 <==>
              o1.value > o2.value || (o1.value == o2.value && CompareTo(o1.key, o2.key) < 0)
    ensures ByCount(o1, o2) == 0 <==> o1 == o2
    ensures ByCount(o1, o2) < 0 <==> ByCount(o2, o1) > 0
  {
    CompareToZero(o1.key, o2.key);
    CompareToSwap(o1.key, o2.key);
  }

  /**
   * AlphabeticalComparator puts o1 first exactly when its key is smaller ignoring
   * case, or equal ignoring case with a larger count.
   */
  lemma AlphabeticalOrder(o1: Entry, o2: Entry)
    ensures Alphabetical(o1, o2) < 0 <==>
              CompareToIgnoreCase(o1.key, o2.key) < 0
              || (LowerString(o1.key) == LowerString(o2.key) && o1.value > o2.value)
    ensures Alphabetical(o1, o2) < 0 <==> Alphabetical(o2, o1) > 0
  {
    CompareToIgnoreCaseZero(o1.key, o2.key);
    CompareToSwap(LowerString(o1.key), LowerString(o2.key));
  }

  /** The font of a count v in outputFullWordCloud: 11 when max = min, else (v - min) * 37 / (max - min) + 11. */
  function Font(v: int, min: int, max: int): int {
    if max != min then JavaDiv((v - min) * 37, max - min) + 11 else 11
  }

  /** For min <= v <= max the font lies in [11, 48], with 11 at min and 48 at max (when max > min). */
  lemma FontRange(v: int, min: int, max: int)
    requires min <= v <= max
    ensures 11 <= Font(v, min, max) <= 48
    ensures v == min ==> Font(v, min, max) == 11
    ensures v == max && max > min ==> Font(v, min, max) == 48
  {
    if max != min {
      var d := max - min;
      assert 0 <= (v - min) * 37 <= d * 37;
      DivBounds((v - min) * 37, d, 37);
    }
  }

  /** A larger count never gets a smaller font. */
  lemma FontMonotone(v: int, w: int, min: int, max: int)
    requires min <= v <= w <= max
    ensures Font(v, min, max) <= Font(w, min, max)
  {
    if max != min {
      assert (v - min) * 37 <= (w - min) * 37;
      DivMonotone((v - min) * 37, (w - min) * 37, max - min);
    }
  }
}
