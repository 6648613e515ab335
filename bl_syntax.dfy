/**
 * The abstract syntax of BL (statements, programs), the token vocabulary the
 * parsers compare against, and the concrete grammar as a relation between a
 * token string and the tree it denotes.
 */
module BLSyntax {
  import opened Text

  /** A BL condition, identified by the name of its enumeration constant (NEXT_IS_EMPTY, ...). */
  datatype Condition = Condition(name: string)

  /** The five kinds of statement node; a strict tree. */
  datatype Statement =
    | Block(children: seq<Statement>)
    | If(cond: Condition, body: Statement)
    | IfElse(cond: Condition, thenBody: Statement, elseBody: Statement)
    | While(cond: Condition, body: Statement)
    | Call(name: string)

  /** A program: its name, its main body and the user instructions it declares. */
  datatype Program = Program(name: string, body: Statement, context: map<string, Statement>)

  /**
   * The two token classifiers of the tokenizer, which is not part of this model:
   * isIdentifier and isCondition.
   */
  datatype Classifier = Classifier(isIdentifier: string -> bool, isCondition: string -> bool)

  /** The end-of-input marker that ends every token stream. */
  const EndOfInput: string := "### END OF INPUT ###"

  /** The primitive instructions, which a program may not redeclare. */
  const Primitives: set<string> := {"move", "turnright", "turnleft", "infect", "skip"}

  /**
   * What the parser loops rely on about the tokenizer: no keyword and not the
   * end-of-input marker is classified as an identifier, and the marker is no
   * condition.
   */
  predicate Premise(cls: Classifier) {
    && !cls.isIdentifier("PROGRAM") && !cls.isIdentifier("IS")
    && !cls.isIdentifier("BEGIN") && !cls.isIdentifier("END")
    && !cls.isIdentifier("INSTRUCTION") && !cls.isIdentifier("IF")
    && !cls.isIdentifier("THEN") && !cls.isIdentifier("ELSE")
    && !cls.isIdentifier("WHILE") && !cls.isIdentifier("DO")
    && !cls.isIdentifier(EndOfInput) && !cls.isCondition(EndOfInput)
  }

  /** A token that begins a statement: IF, WHILE or an identifier. */
  predicate StartsStatement(cls: Classifier, t: string) {
    t == "IF" || t == "WHILE" || cls.isIdentifier(t)
  }

  /**
   * The Condition a condition token names: '-' becomes '_' and letters are
   * upper-cased (Condition.valueOf of the transformed token).
   */
  function ConditionOf(c: string): (cond: Condition)
    ensures |cond.name| == |c|
    ensures forall i :: 0 <= i < |c| && c[i] == '-' ==> cond.name[i] == '_'
    ensures forall i :: 0 <= i < |c| && c[i] != '-' ==> cond.name[i] == Upper(c[i])
  {
    Condition(UpperString(ReplaceChar(c, '-', '_')))
  }

  /** The number of tokens in the concrete text of a statement. */
  function Width(s: Statement): nat {
    match s
    case Block(ss) => SeqWidth(ss)
    case If(_, b) => 5 + Width(b)
    case IfElse(_, t, e) => 6 + Width(t) + Width(e)
    case While(_, b) => 5 + Width(b)
    case Call(_) => 1
  }

  /** The number of tokens in the concrete text of a run of statements. */
  function SeqWidth(ss: seq<Statement>): nat {
    if ss == [] then 0 else Width(ss[0]) + SeqWidth(ss[1..])
  }

  /**
   * The token string p is the concrete text of the single statement s:
   *   identifier
   *   IF c THEN block END IF
   *   IF c THEN block ELSE block END IF   (then-block not empty)
   *   WHILE c DO block END WHILE
   */
  ghost predicate Derives(cls: Classifier, s: Statement, p: seq<string>) {
    |p| == Width(s) &&
    match s
    case Block(_) => false
    case Call(n) => p == [n] && n != "IF" && n != "WHILE" && cls.isIdentifier(n)
    case If(c, b) =>
      && p[0] == "IF" && cls.isCondition(p[1]) && c == ConditionOf(p[1]) && p[2] == "THEN"
      && b.Block? && DerivesSeq(cls, b.children, p[3..|p| - 2])
      && p[|p| - 2] == "END" && p[|p| - 1] == "IF"
    case IfElse(c, t, e) =>
      var k := 3 + Width(t);
      && p[0] == "IF" && cls.isCondition(p[1]) && c == ConditionOf(p[1]) && p[2] == "THEN"
      && t.Block? && t.children != [] && DerivesSeq(cls, t.children, p[3..k])
      && p[k] == "ELSE"
      && e.Block? && DerivesSeq(cls, e.children, p[k + 1..|p| - 2])
      && p[|p| - 2] == "END" && p[|p| - 1] == "IF"
    case While(c, b) =>
      && p[0] == "WHILE" && cls.isCondition(p[1]) && c == ConditionOf(p[1]) && p[2] == "DO"
      && b.Block? && DerivesSeq(cls, b.children, p[3..|p| - 2])
      && p[|p| - 2] == "END" && p[|p| - 1] == "WHILE"
  }

  /** The token string p is the concatenated text of the statements ss, in order. */
  ghost predicate DerivesSeq(cls: Classifier, ss: seq<Statement>, p: seq<string>) {
    |p| == SeqWidth(ss) &&
    (ss != [] ==>
       && Derives(cls, ss[0], p[..Width(ss[0])])
       && DerivesSeq(cls, ss[1..], p[Width(ss[0])..]))
  }

  /** The token string p is the text of the declaration of instruction name with the given body. */
  ghost predicate DerivesInstruction(cls: Classifier, name: string, body: Statement, p: seq<string>) {
    && |p| == 5 + Width(body)
    && p[0] == "INSTRUCTION" && p[1] == name && name !in Primitives && p[2] == "IS"
    && body.Block? && DerivesSeq(cls, body.children, p[3..|p| - 2])
    && p[|p| - 2] == "END" && p[|p| - 1] == name
  }

  /** The number of tokens of a run of instruction declarations. */
  function DeclsWidth(decls: seq<(string, Statement)>): nat {
    if decls == [] then 0 else 5 + Width(decls[0].1) + DeclsWidth(decls[1..])
  }

  /** The token string p is the text of the declarations decls, in order. */
  ghost predicate DerivesDecls(cls: Classifier, decls: seq<(string, Statement)>, p: seq<string>) {
    |p| == DeclsWidth(decls) &&
    (decls != [] ==>
       var w := 5 + Width(decls[0].1);
       && DerivesInstruction(cls, decls[0].0, decls[0].1, p[..w])
       && DerivesDecls(cls, decls[1..], p[w..]))
  }

  /** No two declarations share a name. */
  ghost predicate DistinctNames(decls: seq<(string, Statement)>) {
    forall i, j :: 0 <= i < j < |decls| ==> decls[i].0 != decls[j].0
  }

  /** The context m extended by the declarations decls, in order. */
  function AddDecls(m: map<string, Statement>, decls: seq<(string, Statement)>): (r: map<string, Statement>)
    ensures r.Keys == m.Keys + set d | d in decls :: d.0
    decreases decls
  {
    if decls == [] then m
    else AddDecls(m[decls[0].0 := decls[0].1], decls[1..])
  }

  /** The context that the declarations decls build, name to body. */
  function ContextOf(decls: seq<(string, Statement)>): map<string, Statement> {
    AddDecls(map[], decls)
  }

  /**
   * The token string p is the text of program prog whose instructions are declared
   * in the order decls:
   *   PROGRAM name IS decls BEGIN block END name ### END OF INPUT ###
   */
  ghost predicate DerivesProgram(cls: Classifier, prog: Program, decls: seq<(string, Statement)>, p: seq<string>) {
    var k := 3 + DeclsWidth(decls);
    && |p| == k + 1 + Width(prog.body) + 3
    && p[0] == "PROGRAM" && p[1] == prog.name && p[2] == "IS"
    && DerivesDecls(cls, decls, p[3..k]) && DistinctNames(decls) && prog.context == ContextOf(decls)
    && p[k] == "BEGIN"
    && prog.body.Block? && DerivesSeq(cls, prog.body.children, p[k + 1..|p| - 3])
    && p[|p| - 3] == "END" && p[|p| - 2] == prog.name && p[|p| - 1] == EndOfInput
  }
}
