/** Expression trees as a reader of a rule means them, the postfix code the
    engine ought to produce for them, and how the real converter and
    evaluator measure up: they agree with classical truth at least on the
    trees whose right operands are literals, which covers every flat chain
    `a op b op c ...` the converter builds, and not on every tree (see
    ShortCircuitLeak). */
module Formulas {
  import opened Results
  import opened Tokens
  import opened Compiler
  import opened Evaluator

  datatype Connective = Both | Either

  datatype Expr =
    | Atom(name: string)
    | Neg(arg: Expr)
    | Bin(op: Connective, left: Expr, right: Expr)

  function OpToken(c: Connective): (t: Token)
    ensures IsBinary(t)
  {
    match c
    case Both => AndOp
    case Either => OrOp
  }

  /** Classical truth of a tree over a fact set. */
  function Truth(e: Expr, facts: set<string>): (v: bool) {
    match e
    case Atom(n) => n in facts
    case Neg(a) => !Truth(a, facts)
    case Bin(Both, l, r) => Truth(l, facts) && Truth(r, facts)
    case Bin(Either, l, r) => Truth(l, facts) || Truth(r, facts)
  }

  /** Postfix code for a tree: operands first, operator last. */
  function Emit(e: Expr): (code: seq<Token>) {
    match e
    case Atom(n) => [Sym(n)]
    case Neg(a) => Emit(a) + [NotOp]
    case Bin(c, l, r) => Emit(l) + Emit(r) + [OpToken(c)]
  }

  /** A symbol under any number of negations. */
  predicate Literal(e: Expr) {
    match e
    case Atom(_) => true
    case Neg(a) => Literal(a)
    case Bin(_, _, _) => false
  }

  /** Every binary node's right operand is a literal. */
  predicate RightLiteral(e: Expr) {
    match e
    case Atom(_) => true
    case Neg(a) => RightLiteral(a)
    case Bin(_, l, r) => RightLiteral(l) && Literal(r)
  }

  lemma {:induction false} EvalOne(st: seq<bool>, t: Token, facts: set<string>)
    ensures Eval(st, [t], facts) == Exec(st, t, facts)
  {
    assert [t][1..] == [];
  }

  lemma {:induction false} EvalCons(st: seq<bool>, t: Token, rest: seq<Token>, facts: set<string>)
    ensures Eval(st, [t] + rest, facts) ==
      if Exec(st, t, facts).Err? then Exec(st, t, facts) else Eval(Exec(st, t, facts).value, rest, facts)
  {
    assert ([t] + rest)[0] == t;
    assert ([t] + rest)[1..] == rest;
  }

  /** A literal's code pushes exactly its truth value. */
  lemma {:induction false} LiteralEval(st: seq<bool>, e: Expr, facts: set<string>)
    requires Literal(e)
    ensures Eval(st, Emit(e), facts) == Ok(st + [Truth(e, facts)])
  {
    match e
    case Atom(n) =>
      EvalOne(st, Sym(n), facts);
    case Neg(a) =>
      LiteralEval(st, a, facts);
      EvalAppend(st, Emit(a), [NotOp], facts);
      EvalOne(st + [Truth(a, facts)], NotOp, facts);
      assert Below(st + [Truth(a, facts)]) == st;
  }

  /** The evaluator's result on a right-literal tree: the stack grows by at
      least one (a false `&` or true `|` leaves its left operand behind), the
      operands below are untouched, and the top is the tree's truth. */
  ghost predicate Leaves(st: seq<bool>, r: Result<seq<bool>>, v: bool) {
    r.Ok? && |r.value| > |st| && r.value[..|st|] == st && Top(r.value) == v
  }

  lemma {:induction false} RightLiteralEval(st: seq<bool>, e: Expr, facts: set<string>)
    requires RightLiteral(e)
    ensures Leaves(st, Eval(st, Emit(e), facts), Truth(e, facts))
  {
    match e
    case Atom(_) =>
      LiteralEval(st, e, facts);
    case Neg(a) =>
      RightLiteralEval(st, a, facts);
      LeavesNot(st, a, facts);
    case Bin(c, l, r) =>
      RightLiteralEval(st, l, facts);
      LeavesBin(st, c, l, r, facts);
  }

  lemma {:induction false} LeavesNot(st: seq<bool>, a: Expr, facts: set<string>)
    requires Leaves(st, Eval(st, Emit(a), facts), Truth(a, facts))
    ensures Leaves(st, Eval(st, Emit(Neg(a)), facts), Truth(Neg(a), facts))
  {
    var v := Eval(st, Emit(a), facts).value;
    EvalAppend(st, Emit(a), [NotOp], facts);
    EvalOne(v, NotOp, facts);
    assert Below(v)[..|st|] == st;
  }

  lemma {:induction false} LeavesBin(st: seq<bool>, c: Connective, l: Expr, r: Expr, facts: set<string>)
    requires Leaves(st, Eval(st, Emit(l), facts), Truth(l, facts)) && Literal(r)
    ensures Leaves(st, Eval(st, Emit(Bin(c, l, r)), facts), Truth(Bin(c, l, r), facts))
  {
    var v := Eval(st, Emit(l), facts).value;
    var w := v + [Truth(r, facts)];
    BinCode(st, c, l, r, facts);
    assert Below(w) == v;
    assert w[..|st|] == st;
  }

  /** A binary node whose left operand evaluates and whose right operand is
      a literal ends in its operator acting on the right operand's value. */
  lemma {:induction false} BinCode(st: seq<bool>, c: Connective, l: Expr, r: Expr, facts: set<string>)
    requires Eval(st, Emit(l), facts).Ok? && Literal(r)
    ensures Eval(st, Emit(Bin(c, l, r)), facts)
         == Exec(Eval(st, Emit(l), facts).value + [Truth(r, facts)], OpToken(c), facts)
  {
    var v := Eval(st, Emit(l), facts).value;
    assert Emit(Bin(c, l, r)) == Emit(l) + (Emit(r) + [OpToken(c)]);
    EvalAppend(st, Emit(l), Emit(r) + [OpToken(c)], facts);
    EvalAppend(v, Emit(r), [OpToken(c)], facts);
    LiteralEval(v, r, facts);
    EvalOne(v + [Truth(r, facts)], OpToken(c), facts);
  }

  /** `deduct` computes classical truth on every right-literal tree. */
  lemma {:induction false} DeductAgrees(e: Expr, facts: set<string>)
    requires RightLiteral(e)
    ensures Deduct(Emit(e), facts) == Ok(Truth(e, facts))
  {
    RightLiteralEval([], e, facts);
  }

  /** ... and not beyond them: in `a | (b & c)`, with only `b` a fact, the
      false `c` stays on the stack under `&`, so `|` pops it and returns the
      true `b` that `&` never consumed. */
  lemma {:induction false} ShortCircuitLeak(a: string, b: string, c: string, facts: set<string>)
    requires a !in facts && b in facts && c !in facts
    ensures var e := Bin(Either, Atom(a), Bin(Both, Atom(b), Atom(c)));
      && !RightLiteral(e)
      && !Truth(e, facts)
      && Deduct(Emit(e), facts) == Ok(true)
  {
    var bc := Bin(Both, Atom(b), Atom(c));
    var e := Bin(Either, Atom(a), bc);
    assert !Truth(bc, facts);
    assert Emit(bc) == [Sym(b), Sym(c), AndOp];
    assert Emit(e) == [Sym(a), Sym(b), Sym(c), AndOp, OrOp];
    LeakTrace(a, b, c, facts);
  }

  lemma {:induction false} LeakTrace(a: string, b: string, c: string, facts: set<string>)
    requires a !in facts && b in facts && c !in facts
    ensures Deduct([Sym(a), Sym(b), Sym(c), AndOp, OrOp], facts) == Ok(true)
  {
    assert Below([false, true, false]) == [false, true];
    assert [] + [false] == [false];
    assert [false] + [true] == [false, true];
    assert [false, true] + [false] == [false, true, false];
    EvalCons([false, true, false], OrOp, [], facts);
    EvalCons([false, true, false], AndOp, [OrOp], facts);
    assert [AndOp, OrOp] == [AndOp] + [OrOp];
    EvalCons([false, true], Sym(c), [AndOp, OrOp], facts);
    assert [Sym(c), AndOp, OrOp] == [Sym(c)] + [AndOp, OrOp];
    EvalCons([false], Sym(b), [Sym(c), AndOp, OrOp], facts);
    assert [Sym(b), Sym(c), AndOp, OrOp] == [Sym(b)] + [Sym(c), AndOp, OrOp];
    EvalCons([], Sym(a), [Sym(b), Sym(c), AndOp, OrOp], facts);
    assert [Sym(a), Sym(b), Sym(c), AndOp, OrOp] == [Sym(a)] + [Sym(b), Sym(c), AndOp, OrOp];
  }

  // ---------------------------------------------------------------------
  // From infix to postfix

  /** A tree written out as the engine reads it: operands that are not single
      symbols are bracketed, so the text never relies on precedence. */
  function Infix(e: Expr): (text: seq<Token>)
    decreases e, 0
  {
    match e
    case Atom(n) => [Sym(n)]
    case Neg(a) => [NotOp] + Operand(a)
    case Bin(c, l, r) => Operand(l) + [OpToken(c)] + Operand(r)
  }

  function Operand(e: Expr): (text: seq<Token>)
    decreases e, 1
  {
    if e.Atom? then [Sym(e.name)] else [Open] + Infix(e) + [Close]
  }

  /** No operator on the stack can be popped by an incoming one. */
  predicate Unblocked(ops: seq<Token>) {
    |ops| == 0 || ops[|ops| - 1] == Open
  }

  /** Where the converter stands after reading a tree's text: everything but
      the root operator is out, the root operator waits on the stack. */
  function Pending(s: Shunt, e: Expr): (q: Shunt) {
    match e
    case Atom(n) => Shunt(s.ops, s.out + [Sym(n)])
    case Neg(a) => Shunt(s.ops + [NotOp], s.out + Emit(a))
    case Bin(c, l, r) => Shunt(s.ops + [OpToken(c)], s.out + Emit(l) + Emit(r))
  }

  lemma {:induction false} RunCons(s: Shunt, t: Token, rest: seq<Token>)
    requires WellStacked(s.ops)
    ensures Run(s, [t] + rest) ==
      if Step(s, t).Err? then Step(s, t) else Run(Step(s, t).value, rest)
  {
    assert ([t] + rest)[0] == t;
    assert ([t] + rest)[1..] == rest;
  }

  /** A step that succeeds hands the rest of the text to the next state. */
  lemma {:induction false} RunStep(s: Shunt, t: Token, rest: seq<Token>, next: Shunt)
    requires WellStacked(s.ops) && Step(s, t) == Ok(next)
    ensures Run(s, [t] + rest) == Run(next, rest)
  {
    RunCons(s, t, rest);
  }

  lemma {:induction false} ReverseOne(t: Token)
    ensures Reverse([t]) == [t]
  {
    assert [t][..0] == [];
  }

  /** An incoming operator pushes itself on what its pop loop leaves. */
  lemma {:induction false} StepOperator(s: Shunt, t: Token)
    requires WellStacked(s.ops) && IsOperator(t)
    ensures var p := PopWhile(s.ops, s.out, Precedence(t));
      Step(s, t) == Ok(Shunt(p.ops + [t], p.out))
  {
  }

  lemma {:induction false} PopNone(ops: seq<Token>, out: seq<Token>, p: nat)
    requires WellStacked(ops) && Popped(ops, p) == 0
    ensures PopWhile(ops, out, p) == Shunt(ops, out)
  {
    assert ops[..|ops|] == ops;
    assert ops[|ops|..] == [];
  }

  lemma {:induction false} PopLone(o: Token, out: seq<Token>, p: nat)
    requires Stackable(o) && p <= Precedence(o)
    ensures PopWhile([o], out, p) == Shunt([], out + [o])
  {
    assert [o][..0] == [];
    assert Popped([o], p) == 1;
    assert [o][0..] == [o];
    ReverseOne(o);
  }

  /** A symbol goes straight to the output. */
  lemma {:induction false} PushSymbol(s: Shunt, n: string, rest: seq<Token>)
    requires WellStacked(s.ops)
    ensures Run(s, [Sym(n)] + rest) == Run(Shunt(s.ops, s.out + [Sym(n)]), rest)
  {
    RunStep(s, Sym(n), rest, Shunt(s.ops, s.out + [Sym(n)]));
  }

  /** An operator arriving on an unblocked stack is simply pushed. */
  lemma {:induction false} PushUnblocked(s: Shunt, t: Token, rest: seq<Token>)
    requires WellStacked(s.ops) && Unblocked(s.ops) && IsOperator(t)
    ensures Run(s, [t] + rest) == Run(Shunt(s.ops + [t], s.out), rest)
  {
    PushAbove(s, t, rest);
  }

  /** So is one that outranks the operator on top. */
  lemma {:induction false} PushAbove(s: Shunt, t: Token, rest: seq<Token>)
    requires WellStacked(s.ops) && IsOperator(t)
    requires |s.ops| == 0 || Precedence(s.ops[|s.ops| - 1]) < Precedence(t)
    ensures Run(s, [t] + rest) == Run(Shunt(s.ops + [t], s.out), rest)
  {
    assert Popped(s.ops, Precedence(t)) == 0;
    PopNone(s.ops, s.out, Precedence(t));
    StepOperator(s, t);
    RunStep(s, t, rest, Shunt(s.ops + [t], s.out));
  }

  /** An operator arriving on a lone operator that ranks at least as high
      pops it to the output and takes its place. */
  lemma {:induction false} PopOne(o: Token, out: seq<Token>, t: Token, rest: seq<Token>)
    requires Stackable(o) && IsOperator(t) && Precedence(t) <= Precedence(o)
    ensures Run(Shunt([o], out), [t] + rest) == Run(Shunt([t], out + [o]), rest)
  {
    PopLone(o, out, Precedence(t));
    StepOperator(Shunt([o], out), t);
    assert [] + [t] == [t];
    RunStep(Shunt([o], out), t, rest, Shunt([t], out + [o]));
  }

  /** The closing bracket of a group whose root operator is waiting. */
  lemma {:induction false} CloseOne(ops: seq<Token>, out: seq<Token>, t: Token)
    requires t != Open
    ensures CloseGroup(ops + [Open, t], out) == Ok(Shunt(ops, out + [t]))
  {
    assert (ops + [Open, t])[..|ops| + 1] == ops + [Open];
    assert (ops + [Open])[..|ops|] == ops;
  }

  lemma {:induction false} OperandRun(s: Shunt, e: Expr)
    requires WellStacked(s.ops)
    ensures Run(s, Operand(e)) == Ok(Shunt(s.ops, s.out + Emit(e)))
    decreases e, 1
  {
    if e.Atom? {
      RunCons(s, Sym(e.name), []);
    } else {
      InfixRun(Shunt(s.ops + [Open], s.out), e);
      GroupRun(s, e);
    }
  }

  /** A bracketed operand, given how its inside converts after the `(`. */
  lemma {:induction false} GroupRun(s: Shunt, e: Expr)
    requires WellStacked(s.ops) && !e.Atom?
    requires var s0 := Shunt(s.ops + [Open], s.out);
      Run(s0, Infix(e)) == Ok(Pending(s0, e))
    ensures Run(s, Operand(e)) == Ok(Shunt(s.ops, s.out + Emit(e)))
  {
    var s0 := Shunt(s.ops + [Open], s.out);
    assert Operand(e) == [Open] + (Infix(e) + [Close]);
    RunStep(s, Open, Infix(e) + [Close], s0);
    RunAppend(s0, Infix(e), [Close]);
    GroupCloses(s, e);
    RunStep(Pending(s0, e), Close, [], Shunt(s.ops, s.out + Emit(e)));
  }

  /** The `)` after a compound tree's text emits its waiting root operator
      and removes the `(`. */
  lemma {:induction false} GroupCloses(s: Shunt, e: Expr)
    requires !e.Atom?
    ensures var p := Pending(Shunt(s.ops + [Open], s.out), e);
      CloseGroup(p.ops, p.out) == Ok(Shunt(s.ops, s.out + Emit(e)))
  {
    match e
    case Neg(a) =>
      CloseWaiting(s.ops, s.out, Emit(a), NotOp);
    case Bin(c, l, r) =>
      assert s.out + Emit(l) + Emit(r) == s.out + (Emit(l) + Emit(r));
      CloseWaiting(s.ops, s.out, Emit(l) + Emit(r), OpToken(c));
  }

  lemma {:induction false} CloseWaiting(ops: seq<Token>, out: seq<Token>, code: seq<Token>, t: Token)
    requires t != Open
    ensures CloseGroup(ops + [Open] + [t], out + code) == Ok(Shunt(ops, out + (code + [t])))
  {
    assert ops + [Open] + [t] == ops + [Open, t];
    CloseOne(ops, out + code, t);
    assert (out + code) + [t] == out + (code + [t]);
  }

  lemma {:induction false} InfixRun(s: Shunt, e: Expr)
    requires WellStacked(s.ops) && Unblocked(s.ops)
    ensures Run(s, Infix(e)) == Ok(Pending(s, e))
    decreases e, 0
  {
    match e
    case Atom(n) =>
      RunCons(s, Sym(n), []);
    case Neg(a) =>
      PushUnblocked(s, NotOp, Operand(a));
      OperandRun(Shunt(s.ops + [NotOp], s.out), a);
    case Bin(c, l, r) =>
      var t := OpToken(c);
      assert Infix(e) == Operand(l) + ([t] + Operand(r));
      RunAppend(s, Operand(l), [t] + Operand(r));
      OperandRun(s, l);
      var s1 := Shunt(s.ops, s.out + Emit(l));
      PushUnblocked(s1, t, Operand(r));
      OperandRun(Shunt(s.ops + [t], s1.out), r);
  }

  /** The converter turns a tree's bracketed text into the tree's postfix code. */
  lemma {:induction false} InfixToPostfix(e: Expr)
    ensures ToPostfix(Infix(e)) == Ok(Emit(e))
  {
    InfixRun(Start, e);
    DrainPending([], e);
    assert [] + Emit(e) == Emit(e);
  }

  /** Draining after a tree's text on an otherwise empty stack emits the
      waiting root operator last. */
  lemma {:induction false} DrainPending(out: seq<Token>, e: Expr)
    ensures Drain(Pending(Shunt([], out), e)) == out + Emit(e)
  {
    match e
    case Atom(n) =>
      assert Reverse([]) == [];
    case Neg(a) =>
      DrainWaiting(out, Emit(a), NotOp);
    case Bin(c, l, r) =>
      assert out + Emit(l) + Emit(r) == out + (Emit(l) + Emit(r));
      DrainWaiting(out, Emit(l) + Emit(r), OpToken(c));
  }

  lemma {:induction false} DrainWaiting(out: seq<Token>, code: seq<Token>, t: Token)
    ensures Drain(Shunt([] + [t], out + code)) == out + (code + [t])
  {
    assert [] + [t] == [t];
    ReverseOne(t);
  }

  // ---------------------------------------------------------------------
  // Flat chains: `&` and `|` share one precedence level

  /** One `op symbol` step of a chain `s0 op1 s1 op2 s2 ...`. */
  datatype Link = Link(op: Connective, name: string)

  function ChainText(links: seq<Link>): (text: seq<Token>) {
    if |links| == 0 then []
    else [OpToken(links[0].op)] + ([Sym(links[0].name)] + ChainText(links[1..]))
  }

  /** The tree a chain denotes under equal precedence: grouped from the left,
      whatever the operators. */
  function LeftTree(acc: Expr, links: seq<Link>): (t: Expr)
    decreases |links|
  {
    if |links| == 0 then acc
    else LeftTree(Bin(links[0].op, acc, Atom(links[0].name)), links[1..])
  }

  /** The postfix code of the rest of a chain: each symbol, then its operator. */
  function ChainCode(links: seq<Link>): (code: seq<Token>) {
    if |links| == 0 then []
    else [Sym(links[0].name)] + ([OpToken(links[0].op)] + ChainCode(links[1..]))
  }

  lemma {:induction false} LeftTreeCode(acc: Expr, links: seq<Link>)
    ensures Emit(LeftTree(acc, links)) == Emit(acc) + ChainCode(links)
    ensures RightLiteral(acc) ==> RightLiteral(LeftTree(acc, links))
    decreases |links|
  {
    if |links| > 0 {
      var next := Bin(links[0].op, acc, Atom(links[0].name));
      LeftTreeCode(next, links[1..]);
    }
  }

  /** With one operator waiting, the next `op symbol` pair pops it (equal
      precedence), emits the symbol and leaves `op` waiting. */
  lemma {:induction false} ChainStep(o: Token, out: seq<Token>, t: Token, n: string, rest: seq<Token>)
    requires IsBinary(o) && IsBinary(t)
    ensures Run(Shunt([o], out), [t] + ([Sym(n)] + rest)) == Run(Shunt([t], out + [o] + [Sym(n)]), rest)
  {
    PopOne(o, out, t, [Sym(n)] + rest);
    PushSymbol(Shunt([t], out + [o]), n, rest);
  }

  lemma {:induction false} ChainRun(o: Token, out: seq<Token>, links: seq<Link>)
    requires IsBinary(o)
    ensures Run(Shunt([o], out), ChainText(links)).Ok?
    ensures Drain(Run(Shunt([o], out), ChainText(links)).value) == out + [o] + ChainCode(links)
    decreases |links|
  {
    if |links| == 0 {
      ReverseOne(o);
    } else {
      var t, n := OpToken(links[0].op), links[0].name;
      ChainRun(t, out + [o] + [Sym(n)], links[1..]);
      assert links == [links[0]] + links[1..];
      ChainRunStep(o, out, links[0], links[1..]);
    }
  }

  /** The chain texts and codes of a chain that starts with link `l`. */
  lemma {:induction false} ChainUnfold(l: Link, rest: seq<Link>)
    ensures ChainText([l] + rest) == [OpToken(l.op)] + ([Sym(l.name)] + ChainText(rest))
    ensures ChainCode([l] + rest) == [Sym(l.name)] + ([OpToken(l.op)] + ChainCode(rest))
  {
    assert ([l] + rest)[0] == l;
    assert ([l] + rest)[1..] == rest;
  }

  /** Solver aid: the regrouping of an output that gains a symbol and an
      operator, stated once so that larger proofs need not rederive it by
      extensionality. */
  lemma {:induction false} Regroup(a: seq<Token>, x: Token, y: Token, c: seq<Token>)
    ensures a + [x] + [y] + c == a + ([x] + ([y] + c))
  {
  }

  lemma {:induction false} ChainRunStep(o: Token, out: seq<Token>, l: Link, rest: seq<Link>)
    requires IsBinary(o)
    requires var r := Run(Shunt([OpToken(l.op)], out + [o] + [Sym(l.name)]), ChainText(rest));
      r.Ok? && Drain(r.value) == out + [o] + [Sym(l.name)] + [OpToken(l.op)] + ChainCode(rest)
    ensures Run(Shunt([o], out), ChainText([l] + rest)).Ok?
    ensures Drain(Run(Shunt([o], out), ChainText([l] + rest)).value) == out + [o] + ChainCode([l] + rest)
  {
    ChainUnfold(l, rest);
    ChainStep(o, out, OpToken(l.op), l.name, ChainText(rest));
    Regroup(out + [o], Sym(l.name), OpToken(l.op), ChainCode(rest));
  }

  /** The first symbol goes straight out; conversion carries on from there. */
  lemma {:induction false} ChainOpens(first: string, tail: seq<Token>)
    ensures var r := Run(Shunt([], [Sym(first)]), tail);
      ToPostfix([Sym(first)] + tail) == if r.Err? then Err(r.fault) else Ok(Drain(r.value))
  {
    PushSymbol(Start, first, tail);
    assert [] + [Sym(first)] == [Sym(first)];
  }

  /** The first `op symbol` pair of a chain finds the stack empty. */
  lemma {:induction false} ChainFirstStep(out: seq<Token>, t: Token, n: string, rest: seq<Token>)
    requires IsBinary(t)
    ensures Run(Shunt([], out), [t] + ([Sym(n)] + rest)) == Run(Shunt([t], out + [Sym(n)]), rest)
  {
    PushUnblocked(Shunt([], out), t, [Sym(n)] + rest);
    assert [] + [t] == [t];
    PushSymbol(Shunt([t], out), n, rest);
  }

  /** A whole chain from an empty stack. */
  lemma {:induction false} ChainFrom(out: seq<Token>, links: seq<Link>)
    ensures Run(Shunt([], out), ChainText(links)).Ok?
    ensures Drain(Run(Shunt([], out), ChainText(links)).value) == out + ChainCode(links)
  {
    if |links| > 0 {
      assert links == [links[0]] + links[1..];
      ChainFromLinks(out, links[0], links[1..]);
    } else {
      assert Reverse([]) == [];
    }
  }

  lemma {:induction false} ChainFromLinks(out: seq<Token>, l: Link, rest: seq<Link>)
    ensures Run(Shunt([], out), ChainText([l] + rest)).Ok?
    ensures Drain(Run(Shunt([], out), ChainText([l] + rest)).value) == out + ChainCode([l] + rest)
  {
    var t, n := OpToken(l.op), l.name;
    ChainUnfold(l, rest);
    ChainFirstStep(out, t, n, ChainText(rest));
    ChainRun(t, out + [Sym(n)], rest);
    Regroup(out, Sym(n), t, ChainCode(rest));
  }

  /** `s0 op1 s1 ... opk sk` converts to the left-grouped tree's code, so
      `a | b & c` means `(a | b) & c`. */
  lemma {:induction false} ChainToPostfix(first: string, links: seq<Link>)
    ensures ToPostfix([Sym(first)] + ChainText(links)) == Ok(Emit(LeftTree(Atom(first), links)))
  {
    ChainOpens(first, ChainText(links));
    ChainFrom([Sym(first)], links);
    LeftTreeCode(Atom(first), links);
  }

  /** Hence `deduct` of any converted chain is the left-grouped truth value. */
  lemma {:induction false} ChainDeduct(first: string, links: seq<Link>, facts: set<string>)
    ensures ToPostfix([Sym(first)] + ChainText(links)).Ok?
    ensures Deduct(ToPostfix([Sym(first)] + ChainText(links)).value, facts)
         == Ok(Truth(LeftTree(Atom(first), links), facts))
  {
    ChainToPostfix(first, links);
    LeftTreeCode(Atom(first), links);
    DeductAgrees(LeftTree(Atom(first), links), facts);
  }

  /** `! ! s`: the second `!` pops the first (the loop pops on `<=`), so the
      code is `! s !`, whose first `!` finds an empty operand stack. */
  lemma {:induction false} DoubleNegation(n: string, facts: set<string>)
    ensures ToPostfix([NotOp, NotOp, Sym(n)]) == Ok([NotOp, Sym(n), NotOp])
    ensures Deduct([NotOp, Sym(n), NotOp], facts) == Err(StackUnderflow)
  {
    DoubleNegationCode(n);
    LeadingNotUnderflows([Sym(n), NotOp], facts);
  }

  lemma {:induction false} DoubleNegationCode(n: string)
    ensures ToPostfix([NotOp, NotOp, Sym(n)]) == Ok([NotOp, Sym(n), NotOp])
  {
    var s := Shunt([NotOp], [NotOp, Sym(n)]);
    DoubleNegationTail(n);
    NotNotCode([Sym(n)]);
    assert [NotOp, NotOp] + [Sym(n)] == [NotOp, NotOp, Sym(n)];
    ReverseOne(NotOp);
    assert Drain(s) == [NotOp, Sym(n), NotOp];
  }

  lemma {:induction false} DoubleNegationTail(n: string)
    ensures Run(Shunt([NotOp], [NotOp]), [Sym(n)]) == Ok(Shunt([NotOp], [NotOp, Sym(n)]))
  {
    PushSymbol(Shunt([NotOp], [NotOp]), n, []);
    assert [NotOp] + [Sym(n)] == [NotOp, Sym(n)];
  }

  /** Text that opens with `! !` converts as the rest does from a state with
      one `!` already out and the other waiting. */
  lemma {:induction false} NotNotCode(rest: seq<Token>)
    ensures var r := Run(Shunt([NotOp], [NotOp]), rest);
      ToPostfix([NotOp, NotOp] + rest) == if r.Err? then Err(r.fault) else Ok(Drain(r.value))
  {
    assert [NotOp, NotOp] + rest == [NotOp] + ([NotOp] + rest);
    NotNot([], rest);
    assert [] + [NotOp] == [NotOp];
  }

  /** A second `!` pops the first one: they share a precedence and the loop
      pops on a tie. */
  lemma {:induction false} NotNot(out: seq<Token>, rest: seq<Token>)
    ensures Run(Shunt([], out), [NotOp] + ([NotOp] + rest)) == Run(Shunt([NotOp], out + [NotOp]), rest)
  {
    PushUnblocked(Shunt([], out), NotOp, [NotOp] + rest);
    assert [] + [NotOp] == [NotOp];
    PopOne(NotOp, out, NotOp, rest);
  }

  /** Whatever follows, text that opens with `! !` either fails to convert
      or converts to code that opens with `!`, and such code always
      underflows. */
  lemma {:induction false} LeadingDoubleNegation(rest: seq<Token>, facts: set<string>)
    ensures var r := ToPostfix([NotOp, NotOp] + rest);
      r.Ok? ==> |r.value| > 0 && r.value[0] == NotOp && Deduct(r.value, facts) == Err(StackUnderflow)
  {
    var r := ToPostfix([NotOp, NotOp] + rest);
    if r.Ok? {
      NotNotLeads(rest);
      LeadingNotUnderflows(r.value[1..], facts);
    }
  }

  /** The code of text that opens with `! !` opens with the first `!`. */
  lemma {:induction false} NotNotLeads(rest: seq<Token>)
    ensures var r := ToPostfix([NotOp, NotOp] + rest);
      r.Ok? ==> |r.value| > 0 && r.value == [NotOp] + r.value[1..]
  {
    var s := Shunt([NotOp], [NotOp]);
    NotNotCode(rest);
    if Run(s, rest).Ok? {
      RunExtends(s, rest);
      DrainLeads(Run(s, rest).value);
    }
  }

  /** Draining keeps the output's first token first. */
  lemma {:induction false} DrainLeads(s: Shunt)
    requires |s.out| > 0 && s.out[..1] == [NotOp]
    ensures |Drain(s)| > 0 && Drain(s) == [NotOp] + Drain(s)[1..]
  {
    assert s.out[0] == NotOp;
  }

  /** Code that starts with `!` always underflows. */
  lemma {:induction false} LeadingNotUnderflows(rest: seq<Token>, facts: set<string>)
    ensures Deduct([NotOp] + rest, facts) == Err(StackUnderflow)
  {
    EvalCons([], NotOp, rest, facts);
  }

}
