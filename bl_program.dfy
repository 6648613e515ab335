/**
 * The BL program parser (Program1Parse1): parse
 *   PROGRAM name IS {INSTRUCTION name IS block END name} BEGIN block END name ### END OF INPUT ###
 * from a token queue into a program's name, main body and context.
 */
module ProgramParser {
  import opened Text
  import opened BLSyntax
  import opened StatementParser

  const InstructionPrimitive: string := "Error: instruction name is primitive instruction."
  const IsMissing: string := "Error: IS is missing"
  const InstructionNameMismatch: string := "Error: ending instructionName is incorrect"
  const ProgramMissing: string := "Error: PROGRAM is missing"
  const Duplicate: string := "Error: instruction already exists"
  const BeginMissing: string := "Error: BEGIN is missing"
  const ProgramEndMissing: string := "Error: keyword \"END\" not found."
  const ProgramNameMismatch: string := "Error: ending programName is incorrect"
  const MarkerMissing: string := "Error: missing end of input marker"

  /* ------------------------------------------------------------------------
   * What each routine computes
   * ------------------------------------------------------------------------ */

  /**
   * parseInstruction: INSTRUCTION name IS block END name; the result is the
   * declared name and the parsed block.
   */
  function ParsedInstruction(cls: Classifier, toks: seq<string>): (r: Parsed<(string, Statement)>)
    requires toks != [] && toks[0] == "INSTRUCTION"
    ensures r.Parsed? ==> |r.rest| < |toks|
  {
    if |toks| < 2 then Exhausted
    else if toks[1] in Primitives then Fatal(InstructionPrimitive)
    else if |toks| < 3 then Exhausted
    else if toks[2] != "IS" then Fatal(IsMissing)
    else
      var b := ParsedBlock(cls, toks[3..]);
      if !b.Parsed? then Propagate(b)
      else if b.rest == [] then Exhausted
      else if b.rest[0] != "END" then Fatal(EndMissing)
      else if |b.rest| < 2 then Exhausted
      else if b.rest[1] != toks[1] then Fatal(InstructionNameMismatch)
      else Parsed((toks[1], b.value), b.rest[2..])
  }

  /**
   * The instruction loop of parse: declarations are parsed while the front
   * token is INSTRUCTION, each added to the context after a check that its
   * name is not there yet.
   */
  function ParsedInstructions(cls: Classifier, toks: seq<string>, context: map<string, Statement>): (r: Parsed<map<string, Statement>>)
    ensures r.Parsed? ==> |r.rest| <= |toks| && context.Keys <= r.value.Keys
    decreases |toks|
  {
    if toks == [] then Exhausted
    else if toks[0] != "INSTRUCTION" then Parsed(context, toks)
    else
      var d := ParsedInstruction(cls, toks);
      if !d.Parsed? then Propagate(d)
      else if d.value.0 in context then Fatal(Duplicate)
      else ParsedInstructions(cls, d.rest, context[d.value.0 := d.value.1])
  }

  /** parse: PROGRAM name IS, the declarations, then the rest by ParsedProgramBody. */
  function ParsedProgram(cls: Classifier, toks: seq<string>): (r: Parsed<Program>)
    ensures r.Parsed? ==> |r.rest| < |toks|
  {
    if toks == [] then Exhausted
    else if toks[0] != "PROGRAM" then Fatal(ProgramMissing)
    else if |toks| < 3 then Exhausted
    else if toks[2] != "IS" then Fatal(IsMissing)
    else
      var d := ParsedInstructions(cls, toks[3..], map[]);
      if !d.Parsed? then Propagate(d)
      else ParsedProgramBody(cls, toks[1], d.value, d.rest)
  }

  /** parse after the declarations: BEGIN block END name ### END OF INPUT ###. */
  function ParsedProgramBody(cls: Classifier, name: string, context: map<string, Statement>, t: seq<string>): (r: Parsed<Program>)
    ensures r.Parsed? ==> |r.rest| < |t| && r.value.name == name && r.value.context == context
  {
    if t == [] then Exhausted
    else if t[0] != "BEGIN" then Fatal(BeginMissing)
    else
      var b := ParsedBlock(cls, t[1..]);
      if !b.Parsed? then Propagate(b)
      else
        var u := b.rest;
        if u == [] then Exhausted
        else if u[0] != "END" then Fatal(ProgramEndMissing)
        else if |u| < 2 then Exhausted
        else if u[1] != name then Fatal(ProgramNameMismatch)
        else if |u| < 3 then Exhausted
        else if u[2] != EndOfInput then Fatal(MarkerMissing)
        else Parsed(Program(name, b.value, context), u[3..])
  }

  /* ------------------------------------------------------------------------
   * The routines, step by step
   * ------------------------------------------------------------------------ */

  /** parseInstruction. */
  method ParseInstruction(cls: Classifier, tokens: seq<string>) returns (r: Parsed<(string, Statement)>)
    requires tokens != [] && tokens[0] == "INSTRUCTION"
    ensures r == ParsedInstruction(cls, tokens)
  {
    var q := tokens[1..];
    if q == [] { return Exhausted; }
    var instructionName := q[0];
    if instructionName in Primitives { return Fatal(InstructionPrimitive); }
    q := q[1..];
    if q == [] { return Exhausted; }
    if q[0] != "IS" { return Fatal(IsMissing); }
    assert q[1..] == tokens[3..];
    var body := ParseBlock(cls, q[1..]);
    if !body.Parsed? { return Propagate(body); }
    q := body.rest;
    if q == [] { return Exhausted; }
    if q[0] != "END" { return Fatal(EndMissing); }
    q := q[1..];
    if q == [] { return Exhausted; }
    if q[0] != instructionName { return Fatal(InstructionNameMismatch); }
    r := Parsed((instructionName, body.value), q[1..]);
  }

  /** A BL program object: its name, its main body and its context of user instructions. */
  class BLProgram {
    var name: string
    var body: Statement
    var context: map<string, Statement>

    /** The program with the given name, body and context. */
    constructor (name: string, body: Statement, context: map<string, Statement>)
      ensures this.name == name && this.body == body && this.context == context
    {
      this.name := name;
      this.body := body;
      this.context := context;
    }

    /** The value of this program object. */
    function Value(): Program
      reads this
    {
      Program(name, body, context)
    }

    /**
     * parse(tokens): on success this takes the parsed name, body and context;
     * on a fatal error the client terminates and this is left as it was.
     */
    method Parse(cls: Classifier, tokens: seq<string>) returns (r: Parsed<Program>)
      modifies this
      ensures r == ParsedProgram(cls, tokens)
      ensures r.Parsed? ==> Value() == r.value
      ensures !r.Parsed? ==> Value() == old(Value())
    {
      var ctx: map<string, Statement> := map[];
      var q := tokens;
      if q == [] { return Exhausted; }
      if q[0] != "PROGRAM" { return Fatal(ProgramMissing); }
      q := q[1..];
      if q == [] { return Exhausted; }
      var programName := q[0];
      q := q[1..];
      if q == [] { return Exhausted; }
      if q[0] != "IS" { return Fatal(IsMissing); }
      q := q[1..];
      assert q == tokens[3..];
      if q == [] { return Exhausted; }
      var currentFirstToken := q[0];
      while currentFirstToken == "INSTRUCTION"
        invariant q != [] && currentFirstToken == q[0]
        invariant ParsedInstructions(cls, q, ctx) == ParsedInstructions(cls, tokens[3..], map[])
        invariant unchanged(this)
        decreases |q|
      {
        var instr := ParseInstruction(cls, q);
        if !instr.Parsed? { return Propagate(instr); }
        var instructionName := instr.value.0;
        var keys := ctx.Keys;
        while keys != {}
          invariant keys <= ctx.Keys
          invariant instructionName !in ctx.Keys - keys
          invariant unchanged(this)
          decreases keys
        {
          var k :| k in keys;
          if k == instructionName { return Fatal(Duplicate); }
          keys := keys - {k};
        }
        ctx := ctx[instructionName := instr.value.1];
        q := instr.rest;
        if q == [] { return Exhausted; }
        currentFirstToken := q[0];
      }
      assert ParsedInstructions(cls, q, ctx) == Parsed(ctx, q);
      assert ParsedProgram(cls, tokens) == ParsedProgramBody(cls, programName, ctx, q);
      if q[0] != "BEGIN" { return Fatal(BeginMissing); }
      var programBody := ParseBlock(cls, q[1..]);
      if !programBody.Parsed? { return Propagate(programBody); }
      q := programBody.rest;
      if q == [] { return Exhausted; }
      if q[0] != "END" { return Fatal(ProgramEndMissing); }
      q := q[1..];
      if q == [] { return Exhausted; }
      if q[0] != programName { return Fatal(ProgramNameMismatch); }
      q := q[1..];
      if q == [] { return Exhausted; }
      if q[0] != EndOfInput { return Fatal(MarkerMissing); }
      name := programName;
      body := programBody.value;
      context := ctx;
      r := Parsed(Value(), q[1..]);
    }
  }

  /* ------------------------------------------------------------------------
   * Soundness: what a successful parse consumed is the text of its result
   * ------------------------------------------------------------------------ */

  lemma DerivesInstructionIntro(cls: Classifier, h: seq<string>, body: Statement, pb: seq<string>, m: seq<string>)
    requires |h| == 3 && h[0] == "INSTRUCTION" && h[1] !in Primitives && h[2] == "IS"
    requires body.Block? && DerivesSeq(cls, body.children, pb)
    requires |m| == 2 && m[0] == "END" && m[1] == h[1]
    ensures DerivesInstruction(cls, h[1], body, h + pb + m)
  {
    var p := h + pb + m;
    assert p[3..|p| - 2] == pb;
  }

  /** Soundness of parseInstruction: the consumed tokens declare the returned name and body. */
  lemma {:induction false} InstructionSound(cls: Classifier, toks: seq<string>)
    requires toks != [] && toks[0] == "INSTRUCTION" && ParsedInstruction(cls, toks).Parsed?
    ensures var r := ParsedInstruction(cls, toks);
            && toks == Consumed(toks, r.rest) + r.rest
            && DerivesInstruction(cls, r.value.0, r.value.1, Consumed(toks, r.rest))
  {
    var r := ParsedInstruction(cls, toks);
    var b := ParsedBlock(cls, toks[3..]);
    BlockSound(cls, toks[3..]);
    var pb := Consumed(toks[3..], b.rest);
    Reassemble(toks, pb, b.rest, b.rest[..2], r.rest);
    DerivesInstructionIntro(cls, toks[..3], b.value, pb, b.rest[..2]);
  }

  lemma DerivesDeclsCons(cls: Classifier, d: (string, Statement), decls: seq<(string, Statement)>, pd: seq<string>, pr: seq<string>)
    requires DerivesInstruction(cls, d.0, d.1, pd) && DerivesDecls(cls, decls, pr)
    ensures DerivesDecls(cls, [d] + decls, pd + pr)
  {
    assert ([d] + decls)[1..] == decls;
    assert (pd + pr)[..|pd|] == pd;
    assert (pd + pr)[|pd|..] == pr;
  }

  /**
   * Soundness of the instruction loop: the consumed tokens are the declarations
   * decls, whose names are pairwise distinct and new to context; the result is
   * context extended by decls; the loop stopped at a token other than INSTRUCTION.
   */
  lemma {:induction false} InstructionsSound(cls: Classifier, toks: seq<string>, context: map<string, Statement>)
    returns (decls: seq<(string, Statement)>)
    requires ParsedInstructions(cls, toks, context).Parsed?
    ensures var r := ParsedInstructions(cls, toks, context);
            && toks == Consumed(toks, r.rest) + r.rest
            && DerivesDecls(cls, decls, Consumed(toks, r.rest))
            && DistinctNames(decls)
            && (forall i :: 0 <= i < |decls| ==> decls[i].0 !in context)
            && r.value == AddDecls(context, decls)
            && r.rest != [] && r.rest[0] != "INSTRUCTION"
    decreases |toks|
  {
    var r := ParsedInstructions(cls, toks, context);
    if toks[0] != "INSTRUCTION" {
      decls := [];
    } else {
      var d := ParsedInstruction(cls, toks);
      InstructionSound(cls, toks);
      var tail := InstructionsSound(cls, d.rest, context[d.value.0 := d.value.1]);
      decls := [d.value] + tail;
      var pd := Consumed(toks, d.rest);
      var pr := Consumed(d.rest, r.rest);
      DerivesDeclsCons(cls, d.value, tail, pd, pr);
      ConsumedTrans(toks, d.rest, r.rest);
      assert decls[1..] == tail;
      forall i, j | 0 <= i < j < |decls|
        ensures decls[i].0 != decls[j].0
      {
        if i > 0 {
          assert decls[i] == tail[i - 1] && decls[j] == tail[j - 1];
        } else {
          assert decls[j] == tail[j - 1];
        }
      }
      forall i | 0 <= i < |decls|
        ensures decls[i].0 !in context
      {
        if i > 0 {
          assert decls[i] == tail[i - 1];
        }
      }
    }
  }

  lemma DerivesProgramIntro(cls: Classifier, h: seq<string>, decls: seq<(string, Statement)>, pd: seq<string>,
                            x: seq<string>, body: Statement, pb: seq<string>, m: seq<string>)
    requires |h| == 3 && h[0] == "PROGRAM" && h[2] == "IS"
    requires DerivesDecls(cls, decls, pd) && DistinctNames(decls)
    requires x == ["BEGIN"]
    requires body.Block? && DerivesSeq(cls, body.children, pb)
    requires |m| == 3 && m[0] == "END" && m[1] == h[1] && m[2] == EndOfInput
    ensures DerivesProgram(cls, Program(h[1], body, ContextOf(decls)), decls, h + pd + x + pb + m)
  {
    var p := h + pd + x + pb + m;
    var k := 3 + |pd|;
    assert p[3..k] == pd;
    assert p[k + 1..|p| - 3] == pb;
  }

  /** Cutting toks after PROGRAM name IS, the declarations, BEGIN, the block and the closing m. */
  lemma ReassembleProgram(toks: seq<string>, pd: seq<string>, t: seq<string>, pb: seq<string>, u: seq<string>, m: seq<string>, rest: seq<string>)
    requires |toks| >= 3 && toks[3..] == pd + t && t != [] && t[1..] == pb + u && u == m + rest
    ensures Consumed(toks, rest) == toks[..3] + pd + t[..1] + pb + m
    ensures toks == Consumed(toks, rest) + rest
  {
    assert t == t[..1] + t[1..];
    assert toks == toks[..3] + toks[3..];
    assert toks == toks[..3] + pd + t[..1] + pb + m + rest;
  }

  /**
   * Soundness of parse: a successful parse consumed, in order, PROGRAM, the name,
   * IS, the declarations decls, BEGIN, the main block, END, the same name and the
   * end-of-input marker; the program's context is the one decls build, and the
   * declared names are pairwise distinct.
   */
  lemma {:induction false} ProgramSound(cls: Classifier, toks: seq<string>) returns (decls: seq<(string, Statement)>)
    requires ParsedProgram(cls, toks).Parsed?
    ensures var r := ParsedProgram(cls, toks);
            && toks == Consumed(toks, r.rest) + r.rest
            && DerivesProgram(cls, r.value, decls, Consumed(toks, r.rest))
  {
    var r := ParsedProgram(cls, toks);
    var d := ParsedInstructions(cls, toks[3..], map[]);
    decls := InstructionsSound(cls, toks[3..], map[]);
    var pd := Consumed(toks[3..], d.rest);
    var t := d.rest;
    assert r == ParsedProgramBody(cls, toks[1], d.value, t);
    ProgramBodySound(cls, toks[1], d.value, t);
    var b := ParsedBlock(cls, t[1..]);
    var pb := Consumed(t[1..], b.rest);
    ReassembleProgram(toks, pd, t, pb, b.rest, b.rest[..3], r.rest);
    DerivesProgramIntro(cls, toks[..3], decls, pd, t[..1], b.value, pb, b.rest[..3]);
  }

  /** The part of parse after the declarations: BEGIN, a block, END name, the marker. */
  lemma {:induction false} ProgramBodySound(cls: Classifier, name: string, context: map<string, Statement>, t: seq<string>)
    requires ParsedProgramBody(cls, name, context, t).Parsed?
    ensures var r := ParsedProgramBody(cls, name, context, t);
            var b := ParsedBlock(cls, t[1..]);
            && t[..1] == ["BEGIN"] && b.Parsed? && b.value.Block?
            && t[1..] == Consumed(t[1..], b.rest) + b.rest
            && DerivesSeq(cls, b.value.children, Consumed(t[1..], b.rest))
            && |b.rest| >= 3 && b.rest[0] == "END" && b.rest[1] == name && b.rest[2] == EndOfInput
            && b.rest == b.rest[..3] + r.rest
            && r.value == Program(name, b.value, context)
  {
    var b := ParsedBlock(cls, t[1..]);
    BlockSound(cls, t[1..]);
    assert b.rest == b.rest[..3] + b.rest[3..];
  }

  /* ------------------------------------------------------------------------
   * Completeness: the text of any program parses back to it
   * ------------------------------------------------------------------------ */

  lemma {:induction false} InstructionComplete(cls: Classifier, name: string, body: Statement, p: seq<string>, rest: seq<string>)
    requires Premise(cls) && DerivesInstruction(cls, name, body, p)
    ensures ParsedInstruction(cls, p + rest) == Parsed((name, body), rest)
  {
    var t := p[|p| - 2..] + rest;
    CutHeader(p, rest);
    BlockComplete(cls, body.children, p[3..|p| - 2], t);
    assert t[2..] == rest;
  }

  /**
   * Completeness of the instruction loop: declarations with distinct names, new
   * to context, followed by a token other than INSTRUCTION, extend context by
   * exactly those declarations.
   */
  lemma {:induction false} InstructionsComplete(cls: Classifier, decls: seq<(string, Statement)>, p: seq<string>,
                                                 rest: seq<string>, context: map<string, Statement>)
    requires Premise(cls) && DerivesDecls(cls, decls, p) && DistinctNames(decls)
    requires forall i :: 0 <= i < |decls| ==> decls[i].0 !in context
    requires rest != [] && rest[0] != "INSTRUCTION"
    ensures ParsedInstructions(cls, p + rest, context) == Parsed(AddDecls(context, decls), rest)
    decreases decls
  {
    if decls == [] {
      assert p + rest == rest;
    } else {
      var w := 5 + Width(decls[0].1);
      var p1 := p[..w];
      var p2 := p[w..];
      SplitFront(p, w, rest);
      InstructionComplete(cls, decls[0].0, decls[0].1, p1, p2 + rest);
      var tail := decls[1..];
      assert forall i :: 0 <= i < |tail| ==> tail[i] == decls[i + 1];
      InstructionsComplete(cls, tail, p2, rest, context[decls[0].0 := decls[0].1]);
    }
  }

  /** A program text followed by rest, cut around BEGIN at index k. */
  lemma BeginSplit(p: seq<string>, rest: seq<string>, k: nat)
    requires 3 <= k < |p| - 3
    ensures (p + rest)[3..] == p[3..k] + (p[k..] + rest)
    ensures (p[k..] + rest)[1..] == p[k + 1..|p| - 3] + (p[|p| - 3..] + rest)
    ensures (p + rest)[..3] == p[..3]
    ensures (p[k..] + rest)[0] == p[k]
  {
    assert p == p[..3] + p[3..k] + p[k..];
    assert p[k..] == [p[k]] + p[k + 1..|p| - 3] + p[|p| - 3..];
  }

  /**
   * Completeness of parse: the text of any program, followed by any tokens at
   * all, parses back to that program and leaves those tokens: nothing checks
   * that the queue is empty after the end-of-input marker.
   */
  lemma {:induction false} ProgramComplete(cls: Classifier, prog: Program, decls: seq<(string, Statement)>, p: seq<string>, rest: seq<string>)
    requires Premise(cls) && DerivesProgram(cls, prog, decls, p)
    ensures ParsedProgram(cls, p + rest) == Parsed(prog, rest)
  {
    var toks := p + rest;
    var k := 3 + DeclsWidth(decls);
    var t := p[k..] + rest;
    var u := p[|p| - 3..] + rest;
    BeginSplit(p, rest, k);
    InstructionsComplete(cls, decls, p[3..k], t, map[]);
    assert ParsedInstructions(cls, toks[3..], map[]) == Parsed(ContextOf(decls), t);
    BlockComplete(cls, prog.body.children, p[k + 1..|p| - 3], u);
    assert ParsedBlock(cls, t[1..]) == Parsed(prog.body, u);
    assert u[3..] == rest;
    assert ParsedProgramBody(cls, p[1], ContextOf(decls), t) == Parsed(prog, rest);
  }

  /* ------------------------------------------------------------------------
   * Rejections
   * ------------------------------------------------------------------------ */

  /** An instruction named move, turnright, turnleft, infect or skip aborts the parse. */
  lemma PrimitiveNameRejected(cls: Classifier, toks: seq<string>, context: map<string, Statement>)
    requires |toks| >= 2 && toks[0] == "INSTRUCTION" && toks[1] in Primitives
    ensures ParsedInstruction(cls, toks) == Fatal(InstructionPrimitive)
    ensures ParsedInstructions(cls, toks, context) == Fatal(InstructionPrimitive)
  {
  }

  /** An instruction whose closing name differs from its opening name aborts. */
  lemma InstructionNameMismatchRejected(cls: Classifier, toks: seq<string>)
    requires |toks| >= 3 && toks[0] == "INSTRUCTION" && toks[1] !in Primitives && toks[2] == "IS"
    requires ParsedBlock(cls, toks[3..]).Parsed?
    requires var u := ParsedBlock(cls, toks[3..]).rest; |u| >= 2 && u[0] == "END" && u[1] != toks[1]
    ensures ParsedInstruction(cls, toks) == Fatal(InstructionNameMismatch)
  {
  }

  /** Declaring a name already in the context aborts. */
  lemma DuplicateRejected(cls: Classifier, toks: seq<string>, context: map<string, Statement>)
    requires toks != [] && toks[0] == "INSTRUCTION" && ParsedInstruction(cls, toks).Parsed?
    requires ParsedInstruction(cls, toks).value.0 in context
    ensures ParsedInstructions(cls, toks, context) == Fatal(Duplicate)
  {
  }

  /** A program whose closing name differs from its opening name aborts. */
  lemma ProgramNameMismatchRejected(cls: Classifier, name: string, context: map<string, Statement>, t: seq<string>)
    requires t != [] && t[0] == "BEGIN" && ParsedBlock(cls, t[1..]).Parsed?
    requires var u := ParsedBlock(cls, t[1..]).rest; |u| >= 2 && u[0] == "END" && u[1] != name
    ensures ParsedProgramBody(cls, name, context, t) == Fatal(ProgramNameMismatch)
  {
  }

  /** A program whose closing name is not followed by the marker aborts. */
  lemma MarkerMissingRejected(cls: Classifier, name: string, context: map<string, Statement>, t: seq<string>)
    requires t != [] && t[0] == "BEGIN" && ParsedBlock(cls, t[1..]).Parsed?
    requires var u := ParsedBlock(cls, t[1..]).rest; |u| >= 3 && u[0] == "END" && u[1] == name && u[2] != EndOfInput
    ensures ParsedProgramBody(cls, name, context, t) == Fatal(MarkerMissing)
  {
  }

  /**
   * The program name is dequeued unchecked: when it is the end-of-input marker
   * itself, the parse reads past the end of the queue.
   */
  lemma ProgramNameUnchecked(cls: Classifier)
    ensures ParsedProgram(cls, ["PROGRAM", EndOfInput]) == Exhausted
  {
  }
}
