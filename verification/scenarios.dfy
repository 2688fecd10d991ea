/** Worked sessions of the engine, end to end from the words of a command's
    arguments to the resulting state. Symbol names are left open: any word
    without spaces that is not one of the five operator words will do. */
module Scenarios {
  import opened Results
  import opened Tokens
  import opened Compiler
  import opened Evaluator
  import opened Formulas
  import opened KnowledgeBase

  /** A word the engine reads as a symbol. */
  predicate IsName(w: string) {
    |w| > 0 && ' ' !in w && !Reserved(w)
  }

  // ---------------------------------------------------------------------
  // `a & b | ! c`

  /** Written with spaces, `! c` is a negation: the text compiles to
      `a b & c ! |` and evaluates to `(a & b) | !c` for every fact set; in
      particular it is true when only `a` is a fact. */
  lemma {:induction false} SpacedNegation(a: string, b: string, c: string, facts: set<string>)
    requires IsName(a) && IsName(b) && IsName(c)
    ensures ToPostfix(Lex(Join([a, "&", b, "|", "!", c])))
         == Ok([Sym(a), Sym(b), AndOp, Sym(c), NotOp, OrOp])
    ensures Deduct([Sym(a), Sym(b), AndOp, Sym(c), NotOp, OrOp], facts)
         == Ok((a in facts && b in facts) || c !in facts)
  {
    SpacedNegationLex(a, b, c);
    SpacedNegationCode(a, b, c);
    SpacedNegationValue(a, b, c, facts);
  }

  lemma {:induction false} SpacedNegationLex(a: string, b: string, c: string)
    requires IsName(a) && IsName(b) && IsName(c)
    ensures Lex(Join([a, "&", b, "|", "!", c])) == [Sym(a)] + ([AndOp] + ([Sym(b)] + [OrOp, NotOp, Sym(c)]))
  {
    LexJoin([a, "&", b, "|", "!", c]);
    assert Lex(Join([a, "&", b, "|", "!", c])) == [Sym(a), AndOp, Sym(b), OrOp, NotOp, Sym(c)];
  }

  lemma {:induction false} SpacedNegationValue(a: string, b: string, c: string, facts: set<string>)
    ensures Deduct([Sym(a), Sym(b), AndOp, Sym(c), NotOp, OrOp], facts)
         == Ok((a in facts && b in facts) || c !in facts)
  {
    var ab := Bin(Both, Atom(a), Atom(b));
    var e := Bin(Either, ab, Neg(Atom(c)));
    assert Emit(ab) == [Sym(a), Sym(b), AndOp];
    assert Emit(Neg(Atom(c))) == [Sym(c), NotOp];
    assert Emit(e) == [Sym(a), Sym(b), AndOp, Sym(c), NotOp, OrOp];
    assert RightLiteral(ab) && Literal(Neg(Atom(c)));
    assert Truth(ab, facts) == (a in facts && b in facts);
    assert Truth(Neg(Atom(c)), facts) == (c !in facts);
    assert Truth(e, facts) == (Truth(ab, facts) || Truth(Neg(Atom(c)), facts));
    DeductAgrees(e, facts);
  }

  lemma {:induction false} SpacedNegationCode(a: string, b: string, c: string)
    ensures ToPostfix([Sym(a)] + ([AndOp] + ([Sym(b)] + [OrOp, NotOp, Sym(c)])))
         == Ok([Sym(a), Sym(b), AndOp, Sym(c), NotOp, OrOp])
  {
    var out := [Sym(a)] + [Sym(b)] + [AndOp] + [Sym(c)];
    ChainOpens(a, [AndOp] + ([Sym(b)] + [OrOp, NotOp, Sym(c)]));
    SpacedNegationRun([Sym(a)], b, c);
    SpacedNegationDrain(out);
    SpacedNegationFlat(a, b, c);
  }

  lemma {:induction false} SpacedNegationFlat(a: string, b: string, c: string)
    ensures [Sym(a)] + [Sym(b)] + [AndOp] + [Sym(c)] + ([NotOp] + [OrOp])
         == [Sym(a), Sym(b), AndOp, Sym(c), NotOp, OrOp]
  {
  }

  lemma {:induction false} SpacedNegationRun(out: seq<Token>, b: string, c: string)
    ensures Run(Shunt([], out), [AndOp] + ([Sym(b)] + [OrOp, NotOp, Sym(c)]))
         == Ok(Shunt([OrOp] + [NotOp], out + [Sym(b)] + [AndOp] + [Sym(c)]))
  {
    ChainFirstStep(out, AndOp, b, [OrOp, NotOp, Sym(c)]);
    Nest3(OrOp, NotOp, Sym(c));
    SpacedNegationTail(out + [Sym(b)], c);
  }

  /** Solver aid: states the flattening of three singletons once, so that the
      scenario proofs need not rederive it by extensionality. */
  lemma {:induction false} Nest3(x: Token, y: Token, z: Token)
    ensures [x, y, z] == [x] + ([y] + [z])
  {
  }

  lemma {:induction false} SpacedNegationDrain(out: seq<Token>)
    ensures Drain(Shunt([OrOp] + [NotOp], out)) == out + ([NotOp] + [OrOp])
  {
    ReverseSnoc([OrOp], NotOp);
    ReverseOne(OrOp);
  }

  /** After `a & b`: `|` pops `&`, `!` outranks `|` and is pushed. */
  lemma {:induction false} SpacedNegationTail(out: seq<Token>, c: string)
    ensures Run(Shunt([AndOp], out), [OrOp] + ([NotOp] + [Sym(c)]))
         == Ok(Shunt([OrOp] + [NotOp], out + [AndOp] + [Sym(c)]))
  {
    PopOne(AndOp, out, OrOp, [NotOp] + [Sym(c)]);
    PushAbove(Shunt([OrOp], out + [AndOp]), NotOp, [Sym(c)]);
    PushSymbol(Shunt([OrOp] + [NotOp], out + [AndOp]), c, []);
  }

  /** Written as `!c`, the negation sign is part of the word: `!c` is an
      ordinary symbol, the text is a flat chain, and it evaluates to
      `(a & b) | "!c"`, which is false when only `a` is a fact. */
  lemma {:induction false} GluedNegation(a: string, b: string, c: string, facts: set<string>)
    requires IsName(a) && IsName(b) && IsName(c)
    ensures Lex(Join([a, "&", b, "|", "!" + c])) == [Sym(a), AndOp, Sym(b), OrOp, Sym("!" + c)]
    ensures ToPostfix(Lex(Join([a, "&", b, "|", "!" + c]))).Ok?
    ensures Deduct(ToPostfix(Lex(Join([a, "&", b, "|", "!" + c]))).value, facts)
         == Ok((a in facts && b in facts) || ("!" + c) in facts)
  {
    var glued := "!" + c;
    GluedNegationLex(a, b, c);
    var links := [Link(Both, b), Link(Either, glued)];
    TwoLinks(a, Both, b, Either, glued);
    ChainDeduct(a, links, facts);
    var ab := Bin(Both, Atom(a), Atom(b));
    assert Truth(ab, facts) == (a in facts && b in facts);
    assert Truth(Bin(Either, ab, Atom(glued)), facts) == ((a in facts && b in facts) || glued in facts);
  }

  lemma {:induction false} GluedNegationLex(a: string, b: string, c: string)
    requires IsName(a) && IsName(b) && IsName(c)
    ensures Lex(Join([a, "&", b, "|", "!" + c])) == [Sym(a), AndOp, Sym(b), OrOp, Sym("!" + c)]
  {
    var glued := "!" + c;
    assert !Reserved(glued) by {
      assert |glued| > 1;
    }
    assert ' ' !in glued by {
      assert glued == ['!'] + c;
    }
    LexJoin([a, "&", b, "|", glued]);
  }

  /** A chain of two links as text, and the tree it denotes. */
  lemma {:induction false} TwoLinks(a: string, c1: Connective, b: string, c2: Connective, g: string)
    ensures var links := [Link(c1, b), Link(c2, g)];
      && [Sym(a)] + ChainText(links) == [Sym(a), OpToken(c1), Sym(b), OpToken(c2), Sym(g)]
      && LeftTree(Atom(a), links) == Bin(c2, Bin(c1, Atom(a), Atom(b)), Atom(g))
  {
    var links := [Link(c1, b), Link(c2, g)];
    assert links[1..] == [Link(c2, g)] && links[1..][1..] == [];
    assert ChainText(links[1..]) == [OpToken(c2), Sym(g)];
    assert ChainText(links) == [OpToken(c1), Sym(b), OpToken(c2), Sym(g)];
    var ab := Bin(c1, Atom(a), Atom(b));
    assert LeftTree(ab, links[1..]) == Bin(c2, ab, Atom(g));
  }

  // ---------------------------------------------------------------------
  // `a | b & c` and `a & b | c`

  /** With one precedence for both connectives, whichever comes first binds
      first: `a | b & c` means `(a | b) & c`. */
  lemma {:induction false} OrThenAnd(a: string, b: string, c: string)
    ensures ToPostfix([Sym(a), OrOp, Sym(b), AndOp, Sym(c)]) == Ok([Sym(a), Sym(b), OrOp, Sym(c), AndOp])
  {
    TwoLinks(a, Either, b, Both, c);
    ChainToPostfix(a, [Link(Either, b), Link(Both, c)]);
    var ab := Bin(Either, Atom(a), Atom(b));
    assert Emit(ab) == [Sym(a), Sym(b), OrOp];
    assert Emit(Bin(Both, ab, Atom(c))) == Emit(ab) + [Sym(c)] + [AndOp];
    assert Emit(ab) + [Sym(c)] + [AndOp] == [Sym(a), Sym(b), OrOp, Sym(c), AndOp];
  }

  /** ... and `a & b | c` means `(a & b) | c`. */
  lemma {:induction false} AndThenOr(a: string, b: string, c: string)
    ensures ToPostfix([Sym(a), AndOp, Sym(b), OrOp, Sym(c)]) == Ok([Sym(a), Sym(b), AndOp, Sym(c), OrOp])
  {
    TwoLinks(a, Both, b, Either, c);
    ChainToPostfix(a, [Link(Both, b), Link(Either, c)]);
    var ab := Bin(Both, Atom(a), Atom(b));
    assert Emit(ab) == [Sym(a), Sym(b), AndOp];
    assert Emit(Bin(Either, ab, Atom(c))) == Emit(ab) + [Sym(c)] + [OrOp];
    assert Emit(ab) + [Sym(c)] + [OrOp] == [Sym(a), Sym(b), AndOp, Sym(c), OrOp];
  }

  // ---------------------------------------------------------------------
  // Teach p = true; Teach p & q -> r; Teach q = true; Learn

  lemma {:induction false} ConjunctionCode(p: string, q: string)
    requires IsName(p) && IsName(q)
    ensures ToPostfix(Lex(Join([p, "&", q]))) == Ok([Sym(p), Sym(q), AndOp])
  {
    LexJoin([p, "&", q]);
    var links := [Link(Both, q)];
    assert ChainText(links) == [AndOp, Sym(q)];
    assert Lex(Join([p, "&", q])) == [Sym(p)] + ChainText(links);
    ChainToPostfix(p, links);
    assert Emit(LeftTree(Atom(p), links)) == [Sym(p), Sym(q), AndOp];
  }

  /** The session of a rule entered between two assignments. */
  function Session(p: string, q: string, r: string): (k: Result<Kb>) {
    var k1 := Assign(Empty, p, "true");
    var k2 := Imply(k1, Join([p, "&", q]), r);
    if k2.Err? then k2 else Ok(Assign(k2.value, q, "true"))
  }

  /** Forward chaining fires the rule once both premises are facts; the
      second pass finds nothing new. */
  lemma {:induction false} TeachThenLearn(p: string, q: string, r: string)
    requires IsName(p) && IsName(q) && r != p && r != q
    ensures Session(p, q, r).Ok?
    ensures Learn(Session(p, q, r).value) == Ok(Session(p, q, r).value.(facts := {p, q, r}))
  {
    assert Lower("true") == "true";
    var k1 := Assign(Empty, p, "true");
    ConjunctionCode(p, q);
    var rule := Rule(Join([p, "&", q]), [Sym(p), Sym(q), AndOp], r);
    assert Imply(k1, Join([p, "&", q]), r) == Ok(k1.(rules := [rule]));
    var k2 := Assign(k1.(rules := [rule]), q, "true");
    assert k2.facts == {p, q};
    LearnOneRule(k2, rule, p, q, r);
  }

  lemma {:induction false} LearnOneRule(k: Kb, rule: Rule, p: string, q: string, r: string)
    requires k.rules == [rule] && k.facts == {p, q} && r != p && r != q
    requires rule.code == [Sym(p), Sym(q), AndOp] && rule.rhs == r
    ensures Learn(k) == Ok(k.(facts := {p, q, r}))
  {
    var e := Bin(Both, Atom(p), Atom(q));
    assert Emit(e) == [Sym(p), Sym(q), AndOp];
    DeductAgrees(e, {p, q});
    assert [rule][1..] == [];
    assert {p, q} + {r} == {p, q, r};
    assert Pass([rule], {p, q}) == Ok({p, q, r});
    assert Pass([rule], {p, q, r}) == Ok({p, q, r});
  }

  // ---------------------------------------------------------------------
  // Two rules with one conclusion

  /** With rules `a -> z` and `b -> z` and only `b` a fact, the first rule
      evaluates to false, the second fires and `z` is learnt. */
  lemma {:induction false} EitherRuleSuffices(a: string, b: string, z: string)
    requires a != b && z != a && z != b
    ensures var k := Kb(map[], {b}, [Rule(a, [Sym(a)], z), Rule(b, [Sym(b)], z)]);
      Learn(k) == Ok(k.(facts := {b, z}))
  {
    var ra, rb := Rule(a, [Sym(a)], z), Rule(b, [Sym(b)], z);
    LiteralEval([], Atom(a), {b});
    LiteralEval([], Atom(b), {b});
    assert Deduct(ra.code, {b}) == Ok(false);
    assert Deduct(rb.code, {b}) == Ok(true);
    assert [ra, rb][1..] == [rb];
    assert [rb][1..] == [];
    assert {b} + {z} == {b, z};
    assert Pass([rb], {b}) == Ok({b, z});
    assert Pass([ra, rb], {b}) == Ok({b, z});
    assert Pass([rb], {b, z}) == Ok({b, z});
    assert Pass([ra, rb], {b, z}) == Ok({b, z});
  }

  /** `Teach x = false` on a fresh engine leaves `x` false; a later `FALSE`
      retracts an earlier `True`. */
  lemma {:induction false} TeachFalse(x: string)
    ensures x !in Assign(Empty, x, "false").facts
    ensures Deduct([Sym(x)], Assign(Empty, x, "false").facts) == Ok(false)
    ensures x !in Assign(Assign(Empty, x, "True"), x, "FALSE").facts
  {
    LiteralEval([], Atom(x), Assign(Empty, x, "false").facts);
    assert Lower("false") == "false";
    assert Lower("True") == "true";
    assert Lower("FALSE") == "false";
  }
}
