/**
 * TagCloudGenerator: its scanner, which keeps a space or a tab as a token of
 * its own, its case-sensitive counting loop, the two comparators, the fold
 * that sets WORDMIN and WORDMAX, and the linear font scale from 10 to 50.
 */
module TagCloud {
  import opened Text
  import opened Tally

  /** SEPARATORS. */
  const Separators: string := " \t\n\r\\|:;'\",.<>/?`~!@%^&#$*()+-_={}[]"

  /** SEPARATORS.indexOf(c): the index of c in SEPARATORS, -1 for a word character. */
  function Kind(c: char): (k: int)
    ensures -1 <= k < |Separators|
    ensures k == 0 <==> c == ' '
    ensures k == 1 <==> c == '\t'
  {
    match c
    case ' ' => 0 case '\t' => 1 case '\n' => 2 case '\r' => 3
    case '\\' => 4 case '|' => 5 case ':' => 6 case ';' => 7
    case '\'' => 8 case '"' => 9 case ',' => 10 case '.' => 11
    case '<' => 12 case '>' => 13 case '/' => 14 case '?' => 15
    case '`' => 16 case '~' => 17 case '!' => 18 case '@' => 19
    case '%' => 20 case '^' => 21 case '&' => 22 case '#' => 23
    case '$' => 24 case '*' => 25 case '(' => 26 case ')' => 27
    case '+' => 28 case '-' => 29 case '_' => 30 case '=' => 31
    case '{' => 32 case '}' => 33 case '[' => 34 case ']' => 35
    case _ => -1
  }

  /** Kind is -1 exactly for the characters outside SEPARATORS, as SEPARATORS.indexOf is. */
  lemma KindIsIndex(c: char)
    ensures Kind(c) == -1 <==> c !in Separators
  {
  }

  /** For a separator, Kind is its index in SEPARATORS, as SEPARATORS.indexOf is. */
  lemma KindIndexesSeparators(c: char)
    ensures Kind(c) >= 0 ==> Separators[Kind(c)] == c
  {
  }

  /**
   * Whether a scan that started on a character of index first goes on over c:
   * a word goes on over word characters; a separator string other than a
   * space or a tab goes on over every separator but the space.
   */
  predicate Continues(first: int, c: char) {
    if first < 0 then Kind(c) < 0 else Kind(c) > 0
  }

  /** The end of the scan that goes on from i over the characters that continue first. */
  function RunEnd(text: string, first: int, i: int): (j: int)
    requires 0 <= i <= |text|
    ensures i <= j <= |text|
    decreases |text| - i
  {
    if i < |text| && Continues(first, text[i]) then RunEnd(text, first, i + 1) else i
  }

  /** The characters from i to RunEnd continue first, and the one at RunEnd does not. */
  lemma {:induction false} RunEndIsMaximal(text: string, first: int, i: int)
    requires 0 <= i <= |text|
    ensures forall k :: i <= k < RunEnd(text, first, i) ==> Continues(first, text[k])
    ensures RunEnd(text, first, i) == |text| || !Continues(first, text[RunEnd(text, first, i)])
    decreases |text| - i
  {
    if i < |text| && Continues(first, text[i]) {
      RunEndIsMaximal(text, first, i + 1);
    }
  }

  /**
   * The token nextWordOrSeparator returns at position: a space or a tab alone;
   * otherwise the run that continues text[position].
   */
  function Token(text: string, position: int): (r: string)
    requires 0 <= position < |text|
    ensures 1 <= |r| && position + |r| <= |text|
  {
    var k := Kind(text[position]);
    if k == 0 || k == 1 then text[position..position + 1]
    else text[position..RunEnd(text, k, position + 1)]
  }

  /** The token is the slice of the text it spans. */
  lemma TokenIsSlice(text: string, position: int)
    requires 0 <= position < |text|
    ensures Token(text, position) == text[position..position + |Token(text, position)|]
  {
  }

  /**
   * nextWordOrSeparator: result starts as text[position]; a separator other
   * than a space or a tab grows it over characters of index > 0, a word
   * character over characters of index < 0.
   */
  method NextWordOrSeparator(text: string, position: int) returns (result: string)
    requires 0 <= position < |text|
    ensures result == Token(text, position)
  {
    var lastPosition := position + 1;
    var length := |text|;
    result := text[position..position + 1];
    ghost var k := Kind(text[position]);
    if Kind(text[position]) > 1 {
      var i := lastPosition;
      while i < length && Kind(text[i]) > 0
        invariant position < i <= length
        invariant result == text[position..i]
        invariant RunEnd(text, k, i) == RunEnd(text, k, position + 1)
        decreases length - i
      {
        result := text[position..i + 1];
        i := i + 1;
      }
    } else if Kind(text[position]) < 0 {
      var i := lastPosition;
      while i < length && Kind(text[i]) < 0
        invariant position < i <= length
        invariant result == text[position..i]
        invariant RunEnd(text, k, i) == RunEnd(text, k, position + 1)
        decreases length - i
      {
        result := text[position..i + 1];
        i := i + 1;
      }
    }
  }

  /**
   * What the scanner returns, in terms of SEPARATORS indices (KindIsIndex
   * and KindIndexesSeparators relate them to membership): from a word
   * character (index -1), the maximal run of word characters; from a space or a tab (index 0 or 1),
   * that character alone; from any other separator, the run of characters of
   * index > 0, ending at the end of the text, at a space or at a word
   * character.
   */
  lemma TokenShape(text: string, position: int)
    requires 0 <= position < |text|
    ensures Token(text, position) == text[position..position + |Token(text, position)|]
    ensures var r := Token(text, position);
      var e := position + |r|;
      var k := Kind(text[position]);
      && (k < 0 ==>
            (forall j :: 0 <= j < |r| ==> Kind(r[j]) < 0)
            && (e == |text| || Kind(text[e]) >= 0))
      && (k == 0 || k == 1 ==> r == [text[position]])
      && (k > 1 ==>
            (forall j :: 0 <= j < |r| ==> Kind(r[j]) > 0)
            && (e == |text| || Kind(text[e]) <= 0))
  {
    var r := Token(text, position);
    var k := Kind(text[position]);
    if k != 0 && k != 1 {
      RunEndIsMaximal(text, k, position + 1);
      forall j | 0 <= j < |r|
        ensures Continues(k, r[j])
      {
        assert r[j] == text[position + j];
      }
    }
  }

  /* ------------------------------------------------------------------------
   * The counting loop of getCountMap
   * ------------------------------------------------------------------------ */

  /** The text getCountMap scans: each input line preceded by a space. */
  function InputText(lines: seq<string>): (s: string)
    ensures lines != [] ==> s != [] && s[0] == ' '
  {
    if lines == [] then [] else " " + lines[0] + InputText(lines[1..])
  }

  /** The tokens the scan visits from index while index < stop. */
  function Scanned(s: string, index: int, stop: int): (ts: seq<string>)
    requires 0 <= index <= |s| && stop <= |s|
    ensures forall i :: 0 <= i < |ts| ==> ts[i] != []
    decreases |s| - index
  {
    if index >= stop then []
    else
      var t := Token(s, index);
      [t] + Scanned(s, index + |t|, stop)
  }

  /** The tokens that are counted: those whose first character is no separator. */
  function Words(tokens: seq<string>): (ws: seq<string>)
    requires forall i :: 0 <= i < |tokens| ==> tokens[i] != []
    ensures |ws| <= |tokens|
  {
    if tokens == [] then []
    else (if Kind(tokens[0][0]) < 0 then [tokens[0]] else []) + Words(tokens[1..])
  }

  /** Every counted token is nonempty and starts with a character outside SEPARATORS. */
  lemma {:induction false} WordsAreWords(tokens: seq<string>)
    requires forall i :: 0 <= i < |tokens| ==> tokens[i] != []
    ensures forall i :: 0 <= i < |Words(tokens)| ==> Words(tokens)[i] != [] && Kind(Words(tokens)[i][0]) < 0
  {
    if tokens != [] {
      WordsAreWords(tokens[1..]);
      var rest := Words(tokens[1..]);
      var ws := Words(tokens);
      if Kind(tokens[0][0]) < 0 {
        assert ws == [tokens[0]] + rest;
        forall i | 0 <= i < |ws|
          ensures ws[i] != [] && Kind(ws[i][0]) < 0
        {
          if i > 0 {
            assert ws[i] == rest[i - 1];
          }
        }
      } else {
        assert Words(tokens) == [] + rest == rest;
      }
    }
  }

  /** The words the scan from index to stop counts. */
  function Remaining(s: string, index: int, stop: int): seq<string>
    requires 0 <= index <= |s| && stop <= |s|
  {
    Words(Scanned(s, index, stop))
  }

  /** Counting the words the scan visits from index on into m gives total. */
  ghost predicate CountsTo(m: map<string, int>, s: string, index: int, stop: int, total: map<string, int>) {
    0 <= index <= |s| && stop <= |s| && Tallied(m, Remaining(s, index, stop)) == total
  }

  /** What one round of the counting loop does to the map. */
  function StepCount(m: map<string, int>, word: string): map<string, int>
    requires word != []
  {
    if Kind(word[0]) < 0 then Bump(m, word) else m
  }

  /**
   * The body of the counting loop for one token: a token that starts with a
   * word character is added with count 1 or has its count incremented, with
   * its case kept; a separator string is skipped.
   */
  method CountWord(countMap: map<string, int>, nextWord: string) returns (counted: map<string, int>)
    requires nextWord != []
    ensures counted == StepCount(countMap, nextWord)
  {
    counted := countMap;
    if nextWord !in counted && Kind(nextWord[0]) < 0 {
      counted := counted[nextWord := 1];
    } else if Kind(nextWord[0]) < 0 {
      var value := counted[nextWord];
      counted := counted[nextWord := value + 1];
    }
  }

  /** The words the scan visits from index: the token there when it is a word, then the words after it. */
  lemma RemainingStep(s: string, index: int, stop: int)
    requires 0 <= index < stop <= |s|
    ensures var t := Token(s, index);
      Remaining(s, index, stop) == (if Kind(t[0]) < 0 then [t] else []) + Remaining(s, index + |t|, stop)
  {
    var t := Token(s, index);
    var rest := Scanned(s, index + |t|, stop);
    assert Scanned(s, index, stop) == [t] + rest;
    assert ([t] + rest)[0] == t && ([t] + rest)[1..] == rest;
  }

  /** One round of the counting loop keeps the count of everything still to come. */
  lemma CountStep(s: string, index: int, stop: int, token: string, next: int,
                  m: map<string, int>, m': map<string, int>, total: map<string, int>)
    requires 0 <= index < stop <= |s| && token == Token(s, index) && next == index + |token|
    requires m' == StepCount(m, token)
    requires CountsTo(m, s, index, stop, total)
    ensures CountsTo(m', s, next, stop, total)
  {
    var t := Token(s, index);
    assert t == token;
    RemainingStep(s, index, stop);
    var cs := Remaining(s, next, stop);
    if Kind(t[0]) < 0 {
      assert ([t] + cs)[0] == t && ([t] + cs)[1..] == cs;
      assert Tallied(m, [t] + cs) == Tallied(m', cs);
    } else {
      assert [] + cs == cs;
    }
    assert Tallied(m, Remaining(s, index, stop)) == Tallied(m', cs);
  }

  /**
   * The counting loop of getCountMap over the text s, scanning while
   * index < stop: every word token it visits is counted, case-sensitively.
   */
  method CountTokens(s: string, stop: int) returns (countMap: map<string, int>)
    requires stop <= |s|
    ensures countMap == Tallied(map[], Remaining(s, 0, stop))
  {
    var index := 0;
    countMap := map[];
    ghost var total := Tallied(map[], Remaining(s, 0, stop));
    while index < stop
      invariant CountsTo(countMap, s, index, stop, total)
      decreases |s| - index
    {
      var nextWord := NextWordOrSeparator(s, index);
      ghost var before, start := countMap, index;
      index := index + |nextWord|;
      countMap := CountWord(countMap, nextWord);
      CountStep(s, start, stop, nextWord, index, before, countMap, total);
    }
  }

  /**
   * getCountMap as written: the lines are read into one text, each preceded
   * by a space, and the loop runs while index < |s| - 1.
   */
  method GetCountMap(lines: seq<string>) returns (countMap: map<string, int>)
    ensures var s := InputText(lines);
      countMap == Tallied(map[], Remaining(s, 0, |s| - 1))
  {
    var s := InputText(lines);
    countMap := CountTokens(s, |s| - 1);
  }

  /** getCountMap with the loop running to the end of the text, so the last token is counted too. */
  method GetCountMapToEnd(lines: seq<string>) returns (countMap: map<string, int>)
    ensures var s := InputText(lines);
      countMap == Tallied(map[], Remaining(s, 0, |s|))
  {
    var s := InputText(lines);
    countMap := CountTokens(s, |s|);
  }

  /** Scanning to the end of the text visits tokens that make up the rest of the text exactly. */
  lemma {:induction false} ScanCoversText(s: string, index: int)
    requires 0 <= index <= |s|
    ensures Concat(Scanned(s, index, |s|)) == s[index..]
    decreases |s| - index
  {
    if index < |s| {
      var t := Token(s, index);
      var e := index + |t|;
      ScanCoversText(s, e);
      ScannedStep(s, index, |s|);
      ConcatCons(t, Scanned(s, e, |s|));
      TokenIsSlice(s, index);
      assert s[index..] == s[index..e] + s[e..];
    }
  }

  /**
   * Stopping at |s| - 1 instead of |s| loses nothing, or exactly the last
   * token, which is then the last character of the text alone.
   */
  lemma {:induction false} ScanStopsEarly(s: string, index: int)
    requires 0 <= index <= |s|
    ensures var early := Scanned(s, index, |s| - 1);
      var full := Scanned(s, index, |s|);
      full == early || (index < |s| && full == early + [[s[|s| - 1]]])
    decreases |s| - index
  {
    if index < |s| - 1 {
      var t := Token(s, index);
      ScanStopsEarly(s, index + |t|);
      var early := Scanned(s, index + |t|, |s| - 1);
      var full := Scanned(s, index + |t|, |s|);
      ScannedStep(s, index, |s| - 1);
      ScannedStep(s, index, |s|);
      PrependBoth(t, early, full, [s[|s| - 1]], Scanned(s, index, |s| - 1), Scanned(s, index, |s|));
    } else if index == |s| - 1 {
      var t := Token(s, index);
      TokenIsSlice(s, index);
      assert t == [s[|s| - 1]];
      ScannedStep(s, index, |s|);
      assert Scanned(s, index + |t|, |s|) == [];
      assert Scanned(s, index, |s| - 1) == [];
      assert Scanned(s, index, |s|) == [] + [t];
    }
  }

  /** Prepending one entry to both sides keeps "equal, or longer by last" (early' and full' are the results). */
  lemma PrependBoth<T>(t: T, early: seq<T>, full: seq<T>, last: T, early': seq<T>, full': seq<T>)
    requires full == early || full == early + [last]
    requires early' == [t] + early && full' == [t] + full
    ensures full' == early' || full' == early' + [last]
  {
    if full != early {
      assert [t] + (early + [last]) == ([t] + early) + [last];
    }
  }

  /** A scan that has not reached stop visits the token at index and goes on after it. */
  lemma ScannedStep(s: string, index: int, stop: int)
    requires 0 <= index < stop <= |s|
    ensures Scanned(s, index, stop) == [Token(s, index)] + Scanned(s, index + |Token(s, index)|, stop)
  {
  }

  /**
   * The input that shows the early stop: one line holding the one-letter word
   * "a". The text is " a"; as written, the scan ends after the space and
   * nothing is counted; scanning to the end counts "a" once.
   */
  lemma LastWordMissed()
    ensures InputText(["a"]) == " a"
    ensures Remaining(" a", 0, 1) == []
    ensures Remaining(" a", 0, 2) == ["a"]
    ensures Tallied(map[], Remaining(" a", 0, 1)) == map[]
    ensures Tallied(map[], Remaining(" a", 0, 2)) == map["a" := 1]
  {
    var s := " a";
    assert InputText(["a"]) == " " + "a" + InputText([]);
    assert Kind(s[0]) == 0;
    assert Token(s, 0) == " ";
    assert Scanned(s, 1, 1) == [];
    assert Scanned(s, 0, 1) == [" "];
    assert Kind(s[1]) == -1;
    assert RunEnd(s, -1, 2) == 2;
    assert Token(s, 1) == "a";
    assert Scanned(s, 2, 2) == [];
    assert Scanned(s, 1, 2) == ["a"];
    assert Scanned(s, 0, 2) == [" ", "a"];
    assert Words([" "]) == [] + Words([]);
    assert Words(["a"]) == ["a"] + Words([]);
    assert Words([" ", "a"]) == [] + Words(["a"]);
    assert Tallied(map[], ["a"]) == Tallied(Bump(map[], "a"), []);
  }

  /** Every key the count adds starts with a word character: separator strings are never counted. */
  lemma NoSeparatorKeys(s: string, stop: int)
    requires stop <= |s|
    ensures forall k :: k in Tallied(map[], Remaining(s, 0, stop)) ==> k != [] && k[0] !in Separators
  {
    var ws := Remaining(s, 0, stop);
    TalliedKeys(map[], ws);
    WordsAreWords(Scanned(s, 0, stop));
    forall k | k in Tallied(map[], ws)
      ensures k != [] && k[0] !in Separators
    {
      var i :| 0 <= i < |ws| && ws[i] == k;
      KindIsIndex(k[0]);
    }
  }

  /* ------------------------------------------------------------------------
   * Comparators
   * ------------------------------------------------------------------------ */

  /** A map pair: a word and its count. */
  datatype Pair = Pair(key: string, value: int)

  /** AlphabeticalComparator: compareToIgnoreCase on the keys; the counts play no part. */
  function Alphabetical(a: Pair, b: Pair): (r: int)
    ensures r == 0 <==> LowerString(a.key) == LowerString(b.key)
    ensures r == -CompareToIgnoreCase(b.key, a.key)
  {
    CompareToIgnoreCaseZero(a.key, b.key);
    CompareToSwap(LowerString(a.key), LowerString(b.key));
    CompareToIgnoreCase(a.key, b.key)
  }

  /** CompareArgs: arg1's count compared with arg0's, so larger counts come first; the keys play no part. */
  function ByCount(a: Pair, b: Pair): (r: int)
    ensures r < 0 <==> a.value > b.value
    ensures r == 0 <==> a.value == b.value
    ensures r > 0 <==> a.value < b.value
  {
    IntegerCompare(b.value, a.value)
  }

  /* ------------------------------------------------------------------------
   * WORDMIN, WORDMAX and the font scale
   * ------------------------------------------------------------------------ */

  /** Integer.MAX_VALUE, the initial WORDMIN. */
  const IntMax := 2147483647
  /** FONTMIN and FONTMAX. */
  const FontMin := 10
  const FontMax := 50

  /** WORDMIN after the fold over counts, starting from lo. */
  function MinFold(lo: int, counts: seq<int>): (r: int)
    ensures r <= lo
    ensures forall i :: 0 <= i < |counts| ==> r <= counts[i]
  {
    if counts == [] then lo
    else
      var m := MinFold(lo, counts[..|counts| - 1]);
      if counts[|counts| - 1] < m then counts[|counts| - 1] else m
  }

  /** WORDMAX after the fold over counts, starting from hi. */
  function MaxFold(hi: int, counts: seq<int>): (r: int)
    ensures hi <= r
    ensures forall i :: 0 <= i < |counts| ==> counts[i] <= r
  {
    if counts == [] then hi
    else
      var m := MaxFold(hi, counts[..|counts| - 1]);
      if counts[|counts| - 1] > m then counts[|counts| - 1] else m
  }

  /** The fold's result is the start value or one of the counts. */
  lemma {:induction false} FoldAttained(lo: int, hi: int, counts: seq<int>)
    ensures MinFold(lo, counts) == lo || MinFold(lo, counts) in counts
    ensures MaxFold(hi, counts) == hi || MaxFold(hi, counts) in counts
  {
    if counts != [] {
      var front := counts[..|counts| - 1];
      FoldAttained(lo, hi, front);
      assert counts == front + [counts[|counts| - 1]];
    }
  }

  /**
   * With the initial bounds, MAX_VALUE and 0, and counts in [1, MAX_VALUE],
   * both bounds are attained by some count.
   */
  lemma BoundsAttained(counts: seq<int>)
    requires counts != []
    requires forall i :: 0 <= i < |counts| ==> 0 < counts[i] <= IntMax
    ensures MinFold(IntMax, counts) in counts && MaxFold(0, counts) in counts
  {
    FoldAttained(IntMax, 0, counts);
    assert counts[0] in counts;
  }

  /** The static fields WORDMIN and WORDMAX. */
  class WordBounds {
    var wordMin: int
    var wordMax: int

    /** The initial values: Integer.MAX_VALUE and 0. */
    constructor ()
      ensures wordMin == IntMax && wordMax == 0
    {
      wordMin := IntMax;
      wordMax := 0;
    }

    /** The loop of outputWordCloud over the counts: lower WORDMIN, raise WORDMAX. */
    method Fold(counts: seq<int>)
      modifies this
      ensures wordMin == MinFold(old(wordMin), counts)
      ensures wordMax == MaxFold(old(wordMax), counts)
    {
      for i := 0 to |counts|
        invariant wordMin == MinFold(old(wordMin), counts[..i])
        invariant wordMax == MaxFold(old(wordMax), counts[..i])
      {
        assert counts[..i + 1][..i] == counts[..i];
        if counts[i] < wordMin {
          wordMin := counts[i];
        }
        if counts[i] > wordMax {
          wordMax := counts[i];
        }
      }
      assert counts[..|counts|] == counts;
    }
  }

  /** The font of a count as fontSize computes it: an integer division by zero when WORDMAX = WORDMIN. */
  datatype Font = Size(size: int) | DivisionByZero

  /** fontSize as written: 40 * (x - WORDMIN) / (WORDMAX - WORDMIN) + 10. */
  function FontSizeAsWritten(x: int, wordMin: int, wordMax: int): (r: Font)
    ensures r == DivisionByZero <==> wordMax == wordMin
  {
    if wordMax == wordMin then DivisionByZero
    else Size(JavaDiv((FontMax - FontMin) * (x - wordMin), wordMax - wordMin) + FontMin)
  }

  /** fontSize with equal bounds given the smallest font. */
  function FontSize(x: int, wordMin: int, wordMax: int): int {
    if wordMax == wordMin then FontMin
    else JavaDiv((FontMax - FontMin) * (x - wordMin), wordMax - wordMin) + FontMin
  }

  /** Where the division is defined, the corrected scale is the scale as written. */
  lemma FontSizeAgrees(x: int, wordMin: int, wordMax: int)
    requires wordMax != wordMin
    ensures FontSizeAsWritten(x, wordMin, wordMax) == Size(FontSize(x, wordMin, wordMax))
  {
  }

  /** For WORDMIN <= x <= WORDMAX the font lies in [10, 50], with 10 at WORDMIN and 50 at WORDMAX. */
  lemma FontSizeRange(x: int, wordMin: int, wordMax: int)
    requires wordMin <= x <= wordMax
    ensures FontMin <= FontSize(x, wordMin, wordMax) <= FontMax
    ensures x == wordMin ==> FontSize(x, wordMin, wordMax) == FontMin
    ensures x == wordMax && wordMax > wordMin ==> FontSize(x, wordMin, wordMax) == FontMax
  {
    if wordMax != wordMin {
      var d := wordMax - wordMin;
      assert 0 <= 40 * (x - wordMin) <= d * 40;
      DivBounds(40 * (x - wordMin), d, 40);
    }
  }

  /** A larger count never gets a smaller font. */
  lemma FontSizeMonotone(x: int, y: int, wordMin: int, wordMax: int)
    requires wordMin <= x <= y <= wordMax
    ensures FontSize(x, wordMin, wordMax) <= FontSize(y, wordMin, wordMax)
  {
    if wordMax != wordMin {
      DivMonotone(40 * (x - wordMin), 40 * (y - wordMin), wordMax - wordMin);
    }
  }

  /**
   * The input that shows the division by zero: a single counted word, count 1.
   * The fold leaves WORDMIN = WORDMAX = 1, and fontSize(1) divides by zero.
   */
  lemma SingleCountDividesByZero()
    ensures MinFold(IntMax, [1]) == 1 && MaxFold(0, [1]) == 1
    ensures FontSizeAsWritten(1, MinFold(IntMax, [1]), MaxFold(0, [1])) == DivisionByZero
    ensures FontSize(1, 1, 1) == FontMin
  {
    assert [1][..0] == [];
  }
}
