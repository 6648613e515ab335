/**
 * The BL statement parser (Statement1Parse1): parse one statement or a block
 * from the front of a token queue.
 *
 * The queue is a seq<string> whose front is index 0; a parse that succeeds
 * hands back the tokens it did not consume as `rest`. A fatal error of the
 * reporter is the outcome Fatal(message); reading the front of an empty queue
 * (a violated precondition of the queue) is the outcome Exhausted.
 *
 * The Parsed* functions state what each routine computes; the methods follow
 * the routines step by step and are proved to agree with them; the lemmas
 * relate the functions to the grammar of module BLSyntax.
 */
module StatementParser {
  import opened Text
  import opened BLSyntax

  /** The outcome of a parse: the value and the remaining tokens, a fatal error, or an empty queue. */
  datatype Parsed<T> = Parsed(value: T, rest: seq<string>) | Fatal(message: string) | Exhausted

  /** A failed outcome, passed on as the outcome of an enclosing parse. */
  function Propagate<T, U>(r: Parsed<T>): (f: Parsed<U>)
    requires !r.Parsed?
    ensures f.Fatal? <==> r.Fatal?
    ensures f.Fatal? ==> f.message == r.message
    ensures !f.Parsed?
  {
    if r.Fatal? then Fatal(r.message) else Exhausted
  }

  const InvalidCondition: string := "Error: invalid condition"
  const ThenMissing: string := "Error: THEN is missing"
  const ElseOrEndMissing: string := "Error: ELSE or END is missing"
  const EndMissing: string := "Error: END is missing"
  const IfMissing: string := "Error: IF is missing"
  const DoMissing: string := "Error: DO is missing"
  const WhileMissing: string := "Error: WHILE is missing"

  /** The message reporting an unexpected front token t. */
  function Unexpected(t: string): string {
    "Expected IF, WHILE, or IDENTIFIER, Found: " + t
  }

  /* ------------------------------------------------------------------------
   * What each routine computes
   * ------------------------------------------------------------------------ */

  /** parse: dispatch on the front token to IF, WHILE or a call. */
  function ParsedStatement(cls: Classifier, toks: seq<string>): (r: Parsed<Statement>)
    ensures r.Parsed? ==> |r.rest| < |toks|
    decreases |toks|, 1
  {
    if toks == [] then Exhausted
    else if !StartsStatement(cls, toks[0]) then Fatal(Unexpected(toks[0]))
    else if toks[0] == "IF" then ParsedIf(cls, toks)
    else if toks[0] == "WHILE" then ParsedWhile(cls, toks)
    else Parsed(Call(toks[0]), toks[1..])
  }

  /**
   * The closing "END kw" of a compound statement s: END is checked first, then
   * kw; on success both are consumed.
   */
  function Closing(s: Statement, t: seq<string>, kw: string, msg: string): (r: Parsed<Statement>)
    ensures r.Parsed? <==> |t| >= 2 && t[0] == "END" && t[1] == kw
    ensures r.Parsed? ==> r == Parsed(s, t[2..])
    ensures r.Fatal? ==> t != [] && r.message == (if t[0] != "END" then EndMissing else msg)
  {
    if t == [] then Exhausted
    else if t[0] != "END" then Fatal(EndMissing)
    else if |t| < 2 then Exhausted
    else if t[1] != kw then Fatal(msg)
    else Parsed(s, t[2..])
  }

  /** parseIf: IF c THEN block, then the rest by ParsedIfTail. */
  function ParsedIf(cls: Classifier, toks: seq<string>): (r: Parsed<Statement>)
    requires toks != [] && toks[0] == "IF"
    ensures r.Parsed? ==> |r.rest| < |toks|
    decreases |toks|, 0
  {
    if |toks| < 2 then Exhausted
    else if !cls.isCondition(toks[1]) then Fatal(InvalidCondition)
    else if |toks| < 3 then Exhausted
    else if toks[2] != "THEN" then Fatal(ThenMissing)
    else
      var b := ParsedBlock(cls, toks[3..]);
      if !b.Parsed? then b
      else ParsedIfTail(cls, ConditionOf(toks[1]), b.value, b.rest)
  }

  /** parseIf after the then-block: ELSE block END IF, or END IF. */
  function ParsedIfTail(cls: Classifier, c: Condition, thenPart: Statement, t: seq<string>): (r: Parsed<Statement>)
    ensures r.Parsed? ==> |r.rest| < |t|
    decreases |t|, 4
  {
    if t == [] then Exhausted
    else if t[0] != "ELSE" && t[0] != "END" then Fatal(ElseOrEndMissing)
    else if t[0] == "ELSE" then
      var e := ParsedBlock(cls, t[1..]);
      if !e.Parsed? then e
      else Closing(IfElse(c, thenPart, e.value), e.rest, "IF", IfMissing)
    else Closing(If(c, thenPart), t, "IF", IfMissing)
  }

  /** parseWhile: WHILE c DO block END WHILE. */
  function ParsedWhile(cls: Classifier, toks: seq<string>): (r: Parsed<Statement>)
    requires toks != [] && toks[0] == "WHILE"
    ensures r.Parsed? ==> |r.rest| < |toks|
    decreases |toks|, 0
  {
    if |toks| < 2 then Exhausted
    else if !cls.isCondition(toks[1]) then Fatal(InvalidCondition)
    else if |toks| < 3 then Exhausted
    else if toks[2] != "DO" then Fatal(DoMissing)
    else
      var b := ParsedBlock(cls, toks[3..]);
      if !b.Parsed? then b
      else Closing(While(ConditionOf(toks[1]), b.value), b.rest, "WHILE", WhileMissing)
  }

  /** parseBlock: check the front token, then parse the statements of the block. */
  function ParsedBlock(cls: Classifier, toks: seq<string>): (r: Parsed<Statement>)
    ensures r.Parsed? ==> |r.rest| <= |toks| && r.value.Block?
    decreases |toks|, 3
  {
    if toks == [] then Exhausted
    else if !StartsStatement(cls, toks[0]) && toks[0] != "END" then Fatal(Unexpected(toks[0]))
    else ParsedBlockFrom(cls, toks, [])
  }

  /**
   * The loop of parseBlock: statements are parsed while the front token starts
   * one, each appended after those in done.
   */
  function ParsedBlockFrom(cls: Classifier, toks: seq<string>, done: seq<Statement>): (r: Parsed<Statement>)
    ensures r.Parsed? ==> |r.rest| <= |toks| && r.value.Block?
    decreases |toks|, 2
  {
    if toks == [] then Exhausted
    else if !StartsStatement(cls, toks[0]) then Parsed(Block(done), toks)
    else
      var s := ParsedStatement(cls, toks);
      if !s.Parsed? then s
      else ParsedBlockFrom(cls, s.rest, done + [s.value])
  }

  /* ------------------------------------------------------------------------
   * The routines, step by step
   * ------------------------------------------------------------------------ */

  /** parseCall: the identifier at the front becomes a CALL; nothing else is consumed. */
  method ParseCall(cls: Classifier, tokens: seq<string>) returns (r: Parsed<Statement>)
    requires tokens != [] && cls.isIdentifier(tokens[0])
    ensures r == Parsed(Call(tokens[0]), tokens[1..])
  {
    var call := tokens[0];
    var q := tokens[1..];
    r := Parsed(Call(call), q);
  }

  /** parseIf. */
  method ParseIf(cls: Classifier, tokens: seq<string>) returns (r: Parsed<Statement>)
    requires tokens != [] && tokens[0] == "IF"
    ensures r == ParsedIf(cls, tokens)
    decreases |tokens|, 0
  {
    var q := tokens[1..];
    if q == [] { return Exhausted; }
    if !cls.isCondition(q[0]) { return Fatal(InvalidCondition); }
    var condIf := ConditionOf(q[0]);
    q := q[1..];
    if q == [] { return Exhausted; }
    if q[0] != "THEN" { return Fatal(ThenMissing); }
    assert q[1..] == tokens[3..];
    var ifS := ParseBlock(cls, q[1..]);
    if !ifS.Parsed? { return ifS; }
    q := ifS.rest;
    if q == [] { return Exhausted; }
    if q[0] != "ELSE" && q[0] != "END" { return Fatal(ElseOrEndMissing); }
    var s: Statement;
    if q[0] == "ELSE" {
      var elseS := ParseBlock(cls, q[1..]);
      if !elseS.Parsed? { return elseS; }
      s := IfElse(condIf, ifS.value, elseS.value);
      q := elseS.rest;
    } else {
      s := If(condIf, ifS.value);
    }
    if q == [] { return Exhausted; }
    if q[0] != "END" { return Fatal(EndMissing); }
    q := q[1..];
    if q == [] { return Exhausted; }
    if q[0] != "IF" { return Fatal(IfMissing); }
    r := Parsed(s, q[1..]);
  }

  /** parseWhile. */
  method ParseWhile(cls: Classifier, tokens: seq<string>) returns (r: Parsed<Statement>)
    requires tokens != [] && tokens[0] == "WHILE"
    ensures r == ParsedWhile(cls, tokens)
    decreases |tokens|, 0
  {
    var q := tokens[1..];
    if q == [] { return Exhausted; }
    if !cls.isCondition(q[0]) { return Fatal(InvalidCondition); }
    var condWhile := ConditionOf(q[0]);
    q := q[1..];
    if q == [] { return Exhausted; }
    if q[0] != "DO" { return Fatal(DoMissing); }
    assert q[1..] == tokens[3..];
    var whileS := ParseBlock(cls, q[1..]);
    if !whileS.Parsed? { return whileS; }
    var s := While(condWhile, whileS.value);
    q := whileS.rest;
    if q == [] { return Exhausted; }
    if q[0] != "END" { return Fatal(EndMissing); }
    q := q[1..];
    if q == [] { return Exhausted; }
    if q[0] != "WHILE" { return Fatal(WhileMissing); }
    r := Parsed(s, q[1..]);
  }

  /** parse. */
  method Parse(cls: Classifier, tokens: seq<string>) returns (r: Parsed<Statement>)
    ensures r == ParsedStatement(cls, tokens)
    decreases |tokens|, 1
  {
    if tokens == [] { return Exhausted; }
    if !StartsStatement(cls, tokens[0]) { return Fatal(Unexpected(tokens[0])); }
    if tokens[0] == "IF" {
      r := ParseIf(cls, tokens);
    } else if tokens[0] == "WHILE" {
      r := ParseWhile(cls, tokens);
    } else {
      r := ParseCall(cls, tokens);
    }
  }

  /** parseBlock: the i-th statement parsed is added to the block at position i. */
  method ParseBlock(cls: Classifier, tokens: seq<string>) returns (r: Parsed<Statement>)
    ensures r == ParsedBlock(cls, tokens)
    decreases |tokens|, 3
  {
    if tokens == [] { return Exhausted; }
    if !StartsStatement(cls, tokens[0]) && tokens[0] != "END" {
      return Fatal(Unexpected(tokens[0]));
    }
    var children: seq<Statement> := [];
    var q := tokens;
    var i := 0;
    while q != [] && StartsStatement(cls, q[0])
      invariant |q| <= |tokens|
      invariant i == |children|
      invariant ParsedBlockFrom(cls, q, children) == ParsedBlockFrom(cls, tokens, [])
      decreases |q|
    {
      var newS := Parse(cls, q);
      if !newS.Parsed? { return newS; }
      assert ParsedBlockFrom(cls, q, children) == ParsedBlockFrom(cls, newS.rest, children + [newS.value]);
      assert children[..i] + [newS.value] + children[i..] == children + [newS.value];
      children := children[..i] + [newS.value] + children[i..];
      q := newS.rest;
      i := i + 1;
    }
    if q == [] { return Exhausted; }
    r := Parsed(Block(children), q);
  }

  /* ------------------------------------------------------------------------
   * Soundness: what a successful parse consumed is the text of its result
   * ------------------------------------------------------------------------ */

  /** The tokens a successful parse consumed: toks without its last |rest| tokens. */
  function Consumed(toks: seq<string>, rest: seq<string>): seq<string>
    requires |rest| <= |toks|
  {
    toks[..|toks| - |rest|]
  }

  /** Cutting toks after a header of three tokens, a body pb and a closing m. */
  lemma Reassemble(toks: seq<string>, pb: seq<string>, t: seq<string>, m: seq<string>, rest: seq<string>)
    requires |toks| >= 3 && toks[3..] == pb + t && t == m + rest
    ensures toks == toks[..3] + pb + m + rest
    ensures Consumed(toks, rest) == toks[..3] + pb + m
  {
    assert toks == toks[..3] + toks[3..];
  }

  /** Cutting toks after a header of three tokens, a then-block, ELSE, an else-block and a closing m. */
  lemma ReassembleElse(toks: seq<string>, pt: seq<string>, t: seq<string>, x: seq<string>, pe: seq<string>, m: seq<string>, rest: seq<string>)
    requires |toks| >= 3 && toks[3..] == pt + t && t == x + pe + m + rest
    ensures toks == toks[..3] + pt + x + pe + m + rest
    ensures Consumed(toks, rest) == toks[..3] + pt + x + pe + m
  {
    assert toks == toks[..3] + toks[3..];
  }

  /** The text of an IF statement from its header h, its block text pb and its closing m. */
  lemma DerivesIfIntro(cls: Classifier, h: seq<string>, b: Statement, pb: seq<string>, m: seq<string>)
    requires |h| == 3 && h[0] == "IF" && cls.isCondition(h[1]) && h[2] == "THEN"
    requires b.Block? && DerivesSeq(cls, b.children, pb)
    requires |m| == 2 && m[0] == "END" && m[1] == "IF"
    ensures Derives(cls, If(ConditionOf(h[1]), b), h + pb + m)
  {
    var p := h + pb + m;
    assert p[3..|p| - 2] == pb;
  }

  lemma DerivesIfElseIntro(cls: Classifier, h: seq<string>, t: Statement, pt: seq<string>, x: seq<string>, e: Statement, pe: seq<string>, m: seq<string>)
    requires |h| == 3 && h[0] == "IF" && cls.isCondition(h[1]) && h[2] == "THEN"
    requires t.Block? && t.children != [] && DerivesSeq(cls, t.children, pt)
    requires x == ["ELSE"]
    requires e.Block? && DerivesSeq(cls, e.children, pe)
    requires |m| == 2 && m[0] == "END" && m[1] == "IF"
    ensures Derives(cls, IfElse(ConditionOf(h[1]), t, e), h + pt + x + pe + m)
  {
    var p := h + pt + x + pe + m;
    var k := 3 + |pt|;
    assert p[3..k] == pt;
    assert p[k + 1..|p| - 2] == pe;
  }

  lemma DerivesWhileIntro(cls: Classifier, h: seq<string>, b: Statement, pb: seq<string>, m: seq<string>)
    requires |h| == 3 && h[0] == "WHILE" && cls.isCondition(h[1]) && h[2] == "DO"
    requires b.Block? && DerivesSeq(cls, b.children, pb)
    requires |m| == 2 && m[0] == "END" && m[1] == "WHILE"
    ensures Derives(cls, While(ConditionOf(h[1]), b), h + pb + m)
  {
    var p := h + pb + m;
    assert p[3..|p| - 2] == pb;
  }

  /** The text of a statement followed by the text of a run of statements. */
  lemma DerivesSeqCons(cls: Classifier, s: Statement, ss: seq<Statement>, ps: seq<string>, pr: seq<string>)
    requires Derives(cls, s, ps) && DerivesSeq(cls, ss, pr)
    ensures DerivesSeq(cls, [s] + ss, ps + pr)
  {
    assert ([s] + ss)[1..] == ss;
    assert (ps + pr)[..|ps|] == ps;
    assert (ps + pr)[|ps|..] == pr;
  }

  /**
   * Soundness of parse: on success the original tokens are the text of the
   * parsed statement followed by the remaining tokens.
   */
  lemma {:induction false} StatementSound(cls: Classifier, toks: seq<string>)
    requires ParsedStatement(cls, toks).Parsed?
    ensures var r := ParsedStatement(cls, toks);
            && toks == Consumed(toks, r.rest) + r.rest
            && Derives(cls, r.value, Consumed(toks, r.rest))
    decreases |toks|, 1
  {
    if toks[0] == "IF" {
      IfSound(cls, toks);
    } else if toks[0] == "WHILE" {
      WhileSound(cls, toks);
    } else {
      assert toks == [toks[0]] + toks[1..];
    }
  }

  lemma {:induction false} IfSound(cls: Classifier, toks: seq<string>)
    requires toks != [] && toks[0] == "IF" && ParsedIf(cls, toks).Parsed?
    ensures var r := ParsedIf(cls, toks);
            && toks == Consumed(toks, r.rest) + r.rest
            && Derives(cls, r.value, Consumed(toks, r.rest))
    decreases |toks|, 0
  {
    var r := ParsedIf(cls, toks);
    var b := ParsedBlock(cls, toks[3..]);
    BlockSound(cls, toks[3..]);
    var pt := Consumed(toks[3..], b.rest);
    var t := b.rest;
    assert r == ParsedIfTail(cls, ConditionOf(toks[1]), b.value, t);
    if t[0] == "ELSE" {
      IfElseSound(cls, ConditionOf(toks[1]), b.value, t);
      var e := ParsedBlock(cls, t[1..]);
      var pe := Consumed(t[1..], e.rest);
      assert t[..1] == ["ELSE"];
      ReassembleElse(toks, pt, t, t[..1], pe, e.rest[..2], r.rest);
      DerivesIfElseIntro(cls, toks[..3], b.value, pt, t[..1], e.value, pe, e.rest[..2]);
    } else {
      Reassemble(toks, pt, t, t[..2], r.rest);
      DerivesIfIntro(cls, toks[..3], b.value, pt, t[..2]);
    }
  }

  /** The else-arm of parseIf: ELSE, a block, END IF. */
  lemma {:induction false} IfElseSound(cls: Classifier, c: Condition, thenPart: Statement, t: seq<string>)
    requires t != [] && t[0] == "ELSE"
    requires ParsedIfTail(cls, c, thenPart, t).Parsed?
    ensures var r := ParsedIfTail(cls, c, thenPart, t);
            var e := ParsedBlock(cls, t[1..]);
            && e.Parsed? && |e.rest| >= 2 && e.rest[0] == "END" && e.rest[1] == "IF"
            && r == Parsed(IfElse(c, thenPart, e.value), e.rest[2..])
            && e.value.Block? && DerivesSeq(cls, e.value.children, Consumed(t[1..], e.rest))
            && t == t[..1] + Consumed(t[1..], e.rest) + e.rest[..2] + e.rest[2..]
    decreases |t|, 4
  {
    var e := ParsedBlock(cls, t[1..]);
    BlockSound(cls, t[1..]);
    ConsumedSplit2(t, Consumed(t[1..], e.rest), e.rest);
  }

  /** A sequence cut after its first element, a middle part and two more elements. */
  lemma ConsumedSplit2(t: seq<string>, pe: seq<string>, rest: seq<string>)
    requires t != [] && |rest| >= 2 && t[1..] == pe + rest
    ensures t == t[..1] + pe + rest[..2] + rest[2..]
  {
    assert t == t[..1] + t[1..];
    assert rest == rest[..2] + rest[2..];
  }

  lemma {:induction false} WhileSound(cls: Classifier, toks: seq<string>)
    requires toks != [] && toks[0] == "WHILE" && ParsedWhile(cls, toks).Parsed?
    ensures var r := ParsedWhile(cls, toks);
            && toks == Consumed(toks, r.rest) + r.rest
            && Derives(cls, r.value, Consumed(toks, r.rest))
    decreases |toks|, 0
  {
    var r := ParsedWhile(cls, toks);
    var b := ParsedBlock(cls, toks[3..]);
    BlockSound(cls, toks[3..]);
    var pb := Consumed(toks[3..], b.rest);
    Reassemble(toks, pb, b.rest, b.rest[..2], r.rest);
    DerivesWhileIntro(cls, toks[..3], b.value, pb, b.rest[..2]);
  }

  /**
   * Soundness of parseBlock: on success the consumed tokens are the texts of the
   * children in order, the token left in front starts no statement, and an
   * empty block consumed nothing and left END in front.
   */
  lemma {:induction false} BlockSound(cls: Classifier, toks: seq<string>)
    requires ParsedBlock(cls, toks).Parsed?
    ensures var r := ParsedBlock(cls, toks);
            && toks == Consumed(toks, r.rest) + r.rest
            && DerivesSeq(cls, r.value.children, Consumed(toks, r.rest))
            && r.rest != [] && !StartsStatement(cls, r.rest[0])
            && (r.value.children == [] ==> r.rest == toks && r.rest[0] == "END")
    decreases |toks|, 3
  {
    BlockFromSound(cls, toks, []);
    assert ParsedBlock(cls, toks) == ParsedBlockFrom(cls, toks, []);
  }

  lemma {:induction false} BlockFromSound(cls: Classifier, toks: seq<string>, done: seq<Statement>)
    requires ParsedBlockFrom(cls, toks, done).Parsed?
    ensures var r := ParsedBlockFrom(cls, toks, done);
            && |done| <= |r.value.children| && r.value.children[..|done|] == done
            && toks == Consumed(toks, r.rest) + r.rest
            && DerivesSeq(cls, r.value.children[|done|..], Consumed(toks, r.rest))
            && r.rest != [] && !StartsStatement(cls, r.rest[0])
    decreases |toks|, 2
  {
    var r := ParsedBlockFrom(cls, toks, done);
    if StartsStatement(cls, toks[0]) {
      var s := ParsedStatement(cls, toks);
      StatementSound(cls, toks);
      BlockFromSound(cls, s.rest, done + [s.value]);
      var cs := r.value.children;
      var ps := Consumed(toks, s.rest);
      var pr := Consumed(s.rest, r.rest);
      ChildrenSplit(cs, done, s.value);
      DerivesSeqCons(cls, s.value, cs[|done| + 1..], ps, pr);
      ConsumedTrans(toks, s.rest, r.rest);
    } else {
      assert r.value.children[|done|..] == [];
    }
  }

  lemma ChildrenSplit(cs: seq<Statement>, done: seq<Statement>, s: Statement)
    requires |done| + 1 <= |cs| && cs[..|done| + 1] == done + [s]
    ensures cs[..|done|] == done && cs[|done|..] == [s] + cs[|done| + 1..]
  {
    assert cs[..|done|] == cs[..|done| + 1][..|done|];
  }

  /** Consuming toks down to mid and then mid down to rest consumes toks down to rest. */
  lemma ConsumedTrans(toks: seq<string>, mid: seq<string>, rest: seq<string>)
    requires |rest| <= |mid| <= |toks|
    requires toks == Consumed(toks, mid) + mid && mid == Consumed(mid, rest) + rest
    ensures Consumed(toks, rest) == Consumed(toks, mid) + Consumed(mid, rest)
    ensures toks == Consumed(toks, rest) + rest
  {
    assert toks == (Consumed(toks, mid) + Consumed(mid, rest)) + rest;
  }

  /* ------------------------------------------------------------------------
   * Completeness: the text of any statement parses back to it
   * ------------------------------------------------------------------------ */

  /** Every statement text is non-empty and begins with a statement-starting token. */
  lemma DerivesStarts(cls: Classifier, s: Statement, p: seq<string>)
    requires Derives(cls, s, p)
    ensures p != [] && StartsStatement(cls, p[0])
  {
  }

  /** A compound statement's text followed by rest, cut after its three-token header. */
  lemma CutHeader(p: seq<string>, rest: seq<string>)
    requires |p| >= 5
    ensures (p + rest)[3..] == p[3..|p| - 2] + (p[|p| - 2..] + rest)
    ensures (p + rest)[..3] == p[..3]
  {
    assert p == p[..3] + p[3..|p| - 2] + p[|p| - 2..];
  }

  /**
   * Completeness of parse: the text of any statement, followed by anything,
   * parses back to that statement and leaves exactly what followed.
   */
  lemma {:induction false} StatementComplete(cls: Classifier, s: Statement, p: seq<string>, rest: seq<string>)
    requires Premise(cls) && Derives(cls, s, p)
    ensures ParsedStatement(cls, p + rest) == Parsed(s, rest)
    decreases s, 1
  {
    match s
    case Call(n) =>
      assert (p + rest)[1..] == rest;
    case If(_, _) =>
      IfComplete(cls, s, p, rest);
    case IfElse(_, _, _) =>
      IfElseComplete(cls, s, p, rest);
    case While(_, _) =>
      WhileComplete(cls, s, p, rest);
  }

  lemma {:induction false} IfComplete(cls: Classifier, s: Statement, p: seq<string>, rest: seq<string>)
    requires Premise(cls) && s.If? && Derives(cls, s, p)
    ensures ParsedStatement(cls, p + rest) == Parsed(s, rest)
    decreases s, 0
  {
    var toks := p + rest;
    var pb := p[3..|p| - 2];
    var t := p[|p| - 2..] + rest;
    CutHeader(p, rest);
    BlockComplete(cls, s.body.children, pb, t);
    assert ParsedBlock(cls, toks[3..]) == Parsed(s.body, t);
    assert t[2..] == rest;
    assert ParsedIfTail(cls, s.cond, s.body, t) == Parsed(s, rest);
  }

  lemma {:induction false} IfElseComplete(cls: Classifier, s: Statement, p: seq<string>, rest: seq<string>)
    requires Premise(cls) && s.IfElse? && Derives(cls, s, p)
    ensures ParsedStatement(cls, p + rest) == Parsed(s, rest)
    decreases s, 0
  {
    var toks := p + rest;
    var k := 3 + Width(s.thenBody);
    var pt := p[3..k];
    var pe := p[k + 1..|p| - 2];
    var t := p[k..] + rest;
    var u := p[|p| - 2..] + rest;
    ElseSplit(p, rest, k);
    BlockComplete(cls, s.thenBody.children, pt, t);
    assert ParsedBlock(cls, toks[3..]) == Parsed(s.thenBody, t);
    BlockComplete(cls, s.elseBody.children, pe, u);
    assert ParsedBlock(cls, t[1..]) == Parsed(s.elseBody, u);
    assert u[2..] == rest;
    assert ParsedIfTail(cls, s.cond, s.thenBody, t) == Parsed(s, rest);
  }

  /** An IF_ELSE text followed by rest, cut around the ELSE at index k. */
  lemma ElseSplit(p: seq<string>, rest: seq<string>, k: nat)
    requires 3 <= k < |p| - 2
    ensures (p + rest)[3..] == p[3..k] + (p[k..] + rest)
    ensures (p[k..] + rest)[1..] == p[k + 1..|p| - 2] + (p[|p| - 2..] + rest)
    ensures (p + rest)[..3] == p[..3]
    ensures (p[k..] + rest)[0] == p[k]
  {
    assert p == p[..3] + p[3..k] + p[k..];
    assert p[k..] == [p[k]] + p[k + 1..|p| - 2] + p[|p| - 2..];
  }

  lemma {:induction false} WhileComplete(cls: Classifier, s: Statement, p: seq<string>, rest: seq<string>)
    requires Premise(cls) && s.While? && Derives(cls, s, p)
    ensures ParsedStatement(cls, p + rest) == Parsed(s, rest)
    decreases s, 0
  {
    var toks := p + rest;
    var pb := p[3..|p| - 2];
    var t := p[|p| - 2..] + rest;
    CutHeader(p, rest);
    BlockComplete(cls, s.body.children, pb, t);
    assert ParsedBlock(cls, toks[3..]) == Parsed(s.body, t);
    assert t[2..] == rest;
  }

  /**
   * Completeness of parseBlock: the texts of statements ss followed by a token
   * that starts no statement (END when ss is empty) parse back to Block(ss).
   */
  lemma {:induction false} BlockComplete(cls: Classifier, ss: seq<Statement>, p: seq<string>, rest: seq<string>)
    requires Premise(cls) && DerivesSeq(cls, ss, p)
    requires rest != [] && !StartsStatement(cls, rest[0])
    requires ss == [] ==> rest[0] == "END"
    ensures ParsedBlock(cls, p + rest) == Parsed(Block(ss), rest)
    decreases ss, 1
  {
    if ss != [] {
      DerivesStarts(cls, ss[0], p[..Width(ss[0])]);
      assert (p + rest)[0] == p[0];
    } else {
      assert p + rest == rest;
    }
    BlockFromComplete(cls, ss, p, rest, []);
    assert [] + ss == ss;
    assert ParsedBlock(cls, p + rest) == ParsedBlockFrom(cls, p + rest, []);
  }

  lemma {:induction false} BlockFromComplete(cls: Classifier, ss: seq<Statement>, p: seq<string>, rest: seq<string>, done: seq<Statement>)
    requires Premise(cls) && DerivesSeq(cls, ss, p)
    requires rest != [] && !StartsStatement(cls, rest[0])
    ensures ParsedBlockFrom(cls, p + rest, done) == Parsed(Block(done + ss), rest)
    decreases ss, 0
  {
    if ss == [] {
      assert p + rest == rest;
      assert done + ss == done;
    } else {
      var p1, p2 := p[..Width(ss[0])], p[Width(ss[0])..];
      SplitFront(p, Width(ss[0]), rest);
      DerivesStarts(cls, ss[0], p1);
      StatementComplete(cls, ss[0], p1, p2 + rest);
      BlockFromStep(cls, p + rest, done, ss[0], p2 + rest);
      BlockFromComplete(cls, ss[1..], p2, rest, done + [ss[0]]);
      MoveFront(done, ss);
    }
  }

  /** Cutting p at w and appending rest: p + rest is p's front followed by p's back and rest. */
  lemma SplitFront<T>(p: seq<T>, w: nat, rest: seq<T>)
    requires w <= |p|
    ensures p + rest == p[..w] + (p[w..] + rest)
  {
    assert p == p[..w] + p[w..];
  }

  /** Moving the front of ss to the back of done leaves their concatenation unchanged. */
  lemma MoveFront<T>(done: seq<T>, ss: seq<T>)
    requires ss != []
    ensures done + [ss[0]] + ss[1..] == done + ss
  {
    assert [ss[0]] + ss[1..] == ss;
  }

  /** A statement parsed at the front of a block joins the statements parsed so far. */
  lemma BlockFromStep(cls: Classifier, toks: seq<string>, done: seq<Statement>, s: Statement, after: seq<string>)
    requires toks != [] && StartsStatement(cls, toks[0]) && ParsedStatement(cls, toks) == Parsed(s, after)
    ensures ParsedBlockFrom(cls, toks, done) == ParsedBlockFrom(cls, after, done + [s])
  {
  }

  /** The grammar is unambiguous: a token string is the text of at most one statement. */
  lemma Unambiguous(cls: Classifier, s1: Statement, s2: Statement, p: seq<string>)
    requires Premise(cls) && Derives(cls, s1, p) && Derives(cls, s2, p)
    ensures s1 == s2
  {
    StatementComplete(cls, s1, p, []);
    StatementComplete(cls, s2, p, []);
  }

  /* ------------------------------------------------------------------------
   * Shapes and rejections
   * ------------------------------------------------------------------------ */

  /** An identifier at the front is consumed alone and becomes CALL(name). */
  lemma CallConsumesOneToken(cls: Classifier, toks: seq<string>)
    requires Premise(cls) && toks != [] && cls.isIdentifier(toks[0])
    ensures ParsedStatement(cls, toks) == Parsed(Call(toks[0]), toks[1..])
  {
  }

  /** parse aborts unless the front token is IF, WHILE or an identifier. */
  lemma ParseRejectsNonStarter(cls: Classifier, toks: seq<string>)
    requires toks != [] && !StartsStatement(cls, toks[0])
    ensures ParsedStatement(cls, toks) == Fatal(Unexpected(toks[0]))
  {
  }

  /** With END in front, parseBlock returns the empty block and consumes nothing. */
  lemma EmptyBlockConsumesNothing(cls: Classifier, toks: seq<string>)
    requires Premise(cls) && toks != [] && toks[0] == "END"
    ensures ParsedBlock(cls, toks) == Parsed(Block([]), toks)
  {
    assert ParsedBlock(cls, toks) == ParsedBlockFrom(cls, toks, []);
  }

  /** parseBlock aborts on a front token that is neither a statement start nor END. */
  lemma BlockRejectsOtherFront(cls: Classifier, toks: seq<string>)
    requires toks != [] && !StartsStatement(cls, toks[0]) && toks[0] != "END"
    ensures ParsedBlock(cls, toks) == Fatal(Unexpected(toks[0]))
  {
  }

  /** So an IF whose then-arm is empty and directly followed by ELSE is rejected. */
  lemma EmptyThenBeforeElseRejected(cls: Classifier, c: string, rest: seq<string>)
    requires Premise(cls) && cls.isCondition(c)
    ensures ParsedStatement(cls, ["IF", c, "THEN", "ELSE"] + rest) == Fatal(Unexpected("ELSE"))
  {
    var toks := ["IF", c, "THEN", "ELSE"] + rest;
    assert toks[3..] == ["ELSE"] + rest;
    BlockRejectsOtherFront(cls, toks[3..]);
  }

  /** The ways a WHILE aborts: no condition, no DO, no END, no closing WHILE. */
  lemma WhileRejections(cls: Classifier, toks: seq<string>)
    requires |toks| >= 3 && toks[0] == "WHILE"
    ensures !cls.isCondition(toks[1]) ==> ParsedStatement(cls, toks) == Fatal(InvalidCondition)
    ensures cls.isCondition(toks[1]) && toks[2] != "DO" ==> ParsedStatement(cls, toks) == Fatal(DoMissing)
    ensures cls.isCondition(toks[1]) && toks[2] == "DO" && ParsedBlock(cls, toks[3..]).Parsed? ==>
              var t := ParsedBlock(cls, toks[3..]).rest;
              && (t != [] && t[0] != "END" ==> ParsedStatement(cls, toks) == Fatal(EndMissing))
              && (|t| >= 2 && t[0] == "END" && t[1] != "WHILE" ==> ParsedStatement(cls, toks) == Fatal(WhileMissing))
  {
  }

  /**
   * An IF is IF_ELSE exactly when ELSE follows the then-block and IF exactly when
   * END does; any other token there aborts, and so does a missing closing IF.
   */
  lemma IfKinds(cls: Classifier, toks: seq<string>)
    requires |toks| >= 3 && toks[0] == "IF" && cls.isCondition(toks[1]) && toks[2] == "THEN"
    requires ParsedBlock(cls, toks[3..]).Parsed? && ParsedBlock(cls, toks[3..]).rest != []
    ensures var t := ParsedBlock(cls, toks[3..]).rest;
            var r := ParsedStatement(cls, toks);
            && (t[0] != "ELSE" && t[0] != "END" ==> r == Fatal(ElseOrEndMissing))
            && (r.Parsed? ==> (r.value.IfElse? <==> t[0] == "ELSE") && (r.value.If? <==> t[0] == "END"))
            && (t[0] == "END" ==> (r.Parsed? <==> |t| >= 2 && t[1] == "IF"))
  {
    var b := ParsedBlock(cls, toks[3..]);
    assert ParsedStatement(cls, toks) == ParsedIf(cls, toks);
    assert ParsedIf(cls, toks) == ParsedIfTail(cls, ConditionOf(toks[1]), b.value, b.rest);
  }

  /** The node kind follows the front token: IF gives IF or IF_ELSE, WHILE gives WHILE, else CALL. */
  lemma StatementKind(cls: Classifier, toks: seq<string>)
    requires ParsedStatement(cls, toks).Parsed?
    ensures var s := ParsedStatement(cls, toks).value;
            && toks != []
            && (toks[0] == "IF" <==> s.If? || s.IfElse?)
            && (toks[0] == "WHILE" <==> s.While?)
            && (s.Call? ==> s == Call(toks[0]) && cls.isIdentifier(toks[0]))
  {
    if toks[0] == "IF" {
      var b := ParsedBlock(cls, toks[3..]);
      assert ParsedStatement(cls, toks) == ParsedIfTail(cls, ConditionOf(toks[1]), b.value, b.rest);
    } else if toks[0] == "WHILE" {
      assert ParsedStatement(cls, toks) == ParsedWhile(cls, toks);
    }
  }

  /* ------------------------------------------------------------------------
   * The end-of-input marker keeps the queue from running dry
   * ------------------------------------------------------------------------ */

  /** The queue ends with the end-of-input marker. */
  predicate EndsWithMarker(t: seq<string>) {
    t != [] && t[|t| - 1] == EndOfInput
  }

  lemma EndsWithMarkerTail(t: seq<string>)
    requires EndsWithMarker(t) && t[0] != EndOfInput
    ensures EndsWithMarker(t[1..])
  {
  }

  /**
   * When the tokens end with the marker, as the parser requires, no statement
   * parse reads past the end of the queue, and a successful one leaves the
   * marker in place.
   */
  lemma {:induction false} StatementNotExhausted(cls: Classifier, toks: seq<string>)
    requires Premise(cls) && EndsWithMarker(toks)
    ensures var r := ParsedStatement(cls, toks);
            r != Exhausted && (r.Parsed? ==> EndsWithMarker(r.rest))
    decreases |toks|, 1
  {
    if StartsStatement(cls, toks[0]) {
      EndsWithMarkerTail(toks);
      if toks[0] == "IF" {
        IfNotExhausted(cls, toks);
      } else if toks[0] == "WHILE" {
        WhileNotExhausted(cls, toks);
      }
    }
  }

  lemma {:induction false} IfNotExhausted(cls: Classifier, toks: seq<string>)
    requires Premise(cls) && EndsWithMarker(toks) && toks[0] == "IF"
    ensures var r := ParsedIf(cls, toks);
            r != Exhausted && (r.Parsed? ==> EndsWithMarker(r.rest))
    decreases |toks|, 0
  {
    EndsWithMarkerTail(toks);
    if cls.isCondition(toks[1]) {
      EndsWithMarkerTail(toks[1..]);
      assert toks[1..][1..] == toks[2..];
      if toks[2] == "THEN" {
        EndsWithMarkerTail(toks[2..]);
        assert toks[2..][1..] == toks[3..];
        BlockNotExhausted(cls, toks[3..]);
        var b := ParsedBlock(cls, toks[3..]);
        if b.Parsed? {
          IfTailNotExhausted(cls, ConditionOf(toks[1]), b.value, b.rest);
        }
      }
    }
  }

  lemma {:induction false} IfTailNotExhausted(cls: Classifier, c: Condition, thenPart: Statement, t: seq<string>)
    requires Premise(cls) && EndsWithMarker(t)
    ensures var r := ParsedIfTail(cls, c, thenPart, t);
            r != Exhausted && (r.Parsed? ==> EndsWithMarker(r.rest))
    decreases |t|, 4
  {
    if t[0] == "ELSE" {
      EndsWithMarkerTail(t);
      BlockNotExhausted(cls, t[1..]);
      var e := ParsedBlock(cls, t[1..]);
      if e.Parsed? {
        ClosingNotExhausted(IfElse(c, thenPart, e.value), e.rest, "IF", IfMissing);
      }
    } else if t[0] == "END" {
      ClosingNotExhausted(If(c, thenPart), t, "IF", IfMissing);
    }
  }

  lemma ClosingNotExhausted(s: Statement, t: seq<string>, kw: string, msg: string)
    requires EndsWithMarker(t) && kw != EndOfInput
    ensures var r := Closing(s, t, kw, msg);
            r != Exhausted && (r.Parsed? ==> EndsWithMarker(r.rest))
  {
    if t[0] == "END" {
      EndsWithMarkerTail(t);
      if t[1] == kw {
        EndsWithMarkerTail(t[1..]);
        assert t[1..][1..] == t[2..];
      }
    }
  }

  lemma {:induction false} WhileNotExhausted(cls: Classifier, toks: seq<string>)
    requires Premise(cls) && EndsWithMarker(toks) && toks[0] == "WHILE"
    ensures var r := ParsedWhile(cls, toks);
            r != Exhausted && (r.Parsed? ==> EndsWithMarker(r.rest))
    decreases |toks|, 0
  {
    EndsWithMarkerTail(toks);
    if cls.isCondition(toks[1]) {
      EndsWithMarkerTail(toks[1..]);
      assert toks[1..][1..] == toks[2..];
      if toks[2] == "DO" {
        EndsWithMarkerTail(toks[2..]);
        assert toks[2..][1..] == toks[3..];
        BlockNotExhausted(cls, toks[3..]);
        var b := ParsedBlock(cls, toks[3..]);
        if b.Parsed? {
          ClosingNotExhausted(While(ConditionOf(toks[1]), b.value), b.rest, "WHILE", WhileMissing);
        }
      }
    }
  }

  lemma {:induction false} BlockNotExhausted(cls: Classifier, toks: seq<string>)
    requires Premise(cls) && EndsWithMarker(toks)
    ensures var r := ParsedBlock(cls, toks);
            r != Exhausted && (r.Parsed? ==> EndsWithMarker(r.rest))
    decreases |toks|, 3
  {
    BlockFromNotExhausted(cls, toks, []);
  }

  lemma {:induction false} BlockFromNotExhausted(cls: Classifier, toks: seq<string>, done: seq<Statement>)
    requires Premise(cls) && EndsWithMarker(toks)
    ensures var r := ParsedBlockFrom(cls, toks, done);
            r != Exhausted && (r.Parsed? ==> EndsWithMarker(r.rest))
    decreases |toks|, 2
  {
    if StartsStatement(cls, toks[0]) {
      StatementNotExhausted(cls, toks);
      var s := ParsedStatement(cls, toks);
      if s.Parsed? {
        BlockFromNotExhausted(cls, s.rest, done + [s.value]);
      }
    }
  }
}
