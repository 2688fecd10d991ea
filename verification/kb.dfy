/** The engine's state and the commands that change it: variable definitions
    (`define`), fact assignment (`assign`), rule entry (`imply`) and forward
    chaining to a fixpoint (`learn`). The three module-level globals of the
    engine become one immutable value that every command maps to a new one. */
module KnowledgeBase {
  import opened Results
  import opened Tokens
  import opened Compiler
  import opened Evaluator

  /** A rule as entered: its left-hand text, the postfix code compiled from
      that text, and the fact it concludes. */
  datatype Rule = Rule(lhs: string, code: seq<Token>, rhs: string)

  datatype Kb = Kb(variables: map<string, string>, facts: set<string>, rules: seq<Rule>)

  const Empty := Kb(map[], {}, [])

  /** `define`: bind (or rebind) a variable to its quoted text. */
  function Define(kb: Kb, name: string, value: string): (r: Kb)
    ensures r.variables.Keys == kb.variables.Keys + {name}
    ensures name in r.variables && r.variables[name] == value
    ensures forall k :: k in kb.variables && k != name ==> r.variables[k] == kb.variables[k]
    ensures r.facts == kb.facts && r.rules == kb.rules
  {
    kb.(variables := kb.variables[name := value])
  }

  /** `assign`: a value spelling `true` in any case makes the name a fact,
      one spelling `false` retracts it (if it was one), anything else is
      ignored. */
  function Assign(kb: Kb, name: string, value: string): (r: Kb)
    ensures name in r.facts <==>
      SpellsIgnoringCase(value, "true") || (name in kb.facts && !SpellsIgnoringCase(value, "false"))
    ensures forall m :: m != name ==> (m in r.facts <==> m in kb.facts)
    ensures r.variables == kb.variables && r.rules == kb.rules
  {
    if SpellsIgnoringCase(value, "true") then kb.(facts := kb.facts + {name})
    else if SpellsIgnoringCase(value, "false") then kb.(facts := kb.facts - {name})
    else kb
  }

  /** A later definition of the same name replaces the earlier one. */
  lemma {:induction false} DefineLastWins(kb: Kb, name: string, v1: string, v2: string)
    ensures Define(Define(kb, name, v1), name, v2) == Define(kb, name, v2)
  {
    assert Define(Define(kb, name, v1), name, v2).variables == Define(kb, name, v2).variables;
  }

  /** A later `true` or `false` assignment of the same name decides alone;
      any other value leaves the state as it was. */
  lemma {:induction false} AssignLastWins(kb: Kb, name: string, v1: string, v2: string)
    ensures SpellsIgnoringCase(v2, "true") || SpellsIgnoringCase(v2, "false") ==>
      Assign(Assign(kb, name, v1), name, v2) == Assign(kb, name, v2)
    ensures !SpellsIgnoringCase(v1, "true") && !SpellsIgnoringCase(v1, "false") ==>
      Assign(kb, name, v1) == kb
  {
    if SpellsIgnoringCase(v2, "true") || SpellsIgnoringCase(v2, "false") {
      assert Assign(Assign(kb, name, v1), name, v2).facts == Assign(kb, name, v2).facts;
    }
  }

  /** Variables and facts are independent: defining and assigning commute. */
  lemma {:induction false} DefineAssignCommute(kb: Kb, n: string, v: string, m: string, w: string)
    ensures Assign(Define(kb, n, v), m, w) == Define(Assign(kb, m, w), n, v)
  {
  }

  /** `imply`: compile the left-hand text and append the rule. An unmatched
      `)` makes the compiler fail and the rule is not recorded. */
  function Imply(kb: Kb, lhs: string, rhs: string): (r: Result<Kb>)
    ensures r.Ok? <==> ClosesMatched(Lex(lhs))
    ensures r.Err? ==> r.fault == UnmatchedClose
    ensures r.Ok? ==>
      && r.value.variables == kb.variables && r.value.facts == kb.facts
      && |r.value.rules| == |kb.rules| + 1
      && r.value.rules[..|kb.rules|] == kb.rules
      && r.value.rules[|kb.rules|].lhs == lhs && r.value.rules[|kb.rules|].rhs == rhs
      && r.value.rules[|kb.rules|].code == ToPostfix(Lex(lhs)).value
      && Symbols(r.value.rules[|kb.rules|].code) == Symbols(Lex(lhs))
  {
    var code := ToPostfix(Lex(lhs));
    if code.Err? then Err(code.fault)
    else
      var rules := kb.rules + [Rule(lhs, code.value, rhs)];
      assert rules[..|kb.rules|] == kb.rules;
      Ok(kb.(rules := rules))
  }

  // ---------------------------------------------------------------------
  // learn

  /** Every fact some rule can conclude. */
  function Consequents(rules: seq<Rule>): (c: set<string>) {
    set i | 0 <= i < |rules| :: rules[i].rhs
  }

  /** One pass of `learn`'s `for` loop, in rule order. A rule whose conclusion
      is already a fact is skipped; otherwise a true deduction adds the
      conclusion at once, so later rules of the same pass see it. An
      underflow in any evaluated rule aborts the command. */
  function Pass(rules: seq<Rule>, facts: set<string>): (r: Result<set<string>>)
    ensures r.Err? ==> r.fault == StackUnderflow
    ensures r.Ok? ==> facts <= r.value <= facts + Consequents(rules)
    decreases |rules|
  {
    if |rules| == 0 then Ok(facts)
    else
      var rule, rest := rules[0], rules[1..];
      assert Consequents(rest) <= Consequents(rules) by {
        forall x | x in Consequents(rest) ensures x in Consequents(rules) {
          var i :| 0 <= i < |rest| && rest[i].rhs == x;
          assert rules[i + 1].rhs == x;
        }
      }
      if rule.rhs in facts then Pass(rest, facts)
      else
        var v := Deduct(rule.code, facts);
        if v.Err? then Err(v.fault)
        else if v.value then
          assert rules[0].rhs == rule.rhs;
          Pass(rest, facts + {rule.rhs})
        else Pass(rest, facts)
  }

  /** Nothing left to learn: every rule whose conclusion is not yet a fact
      evaluates, without underflow, to false. */
  ghost predicate Fixpoint(rules: seq<Rule>, facts: set<string>) {
    forall i :: 0 <= i < |rules| && rules[i].rhs !in facts ==> Deduct(rules[i].code, facts) == Ok(false)
  }

  /** Adding a fact that is not there yet strictly shrinks what is left to learn. */
  lemma {:induction false} Shrinks(c: set<string>, a: set<string>, b: set<string>)
    requires a < b <= a + c
    ensures |c - b| < |c - a|
  {
    assert !(b <= a);
    var x :| x in b && x !in a;
    var d := (c - a) - {x};
    assert c - b <= d;
    SubsetCard(c - b, d);
  }

  lemma {:induction false} SubsetCard(s: set<string>, t: set<string>)
    requires s <= t
    ensures |s| <= |t|
  {
    assert t == s + (t - s);
  }

  /** `learn`: repeat passes until one adds nothing. */
  function Learn(kb: Kb): (r: Result<Kb>)
    ensures r.Err? ==> r.fault == StackUnderflow
    ensures r.Ok? ==>
      && r.value.variables == kb.variables && r.value.rules == kb.rules
      && kb.facts <= r.value.facts <= kb.facts + Consequents(kb.rules)
    decreases |Consequents(kb.rules) - kb.facts|
  {
    var p := Pass(kb.rules, kb.facts);
    if p.Err? then Err(p.fault)
    else if p.value == kb.facts then Ok(kb)
    else
      Shrinks(Consequents(kb.rules), kb.facts, p.value);
      Learn(kb.(facts := p.value))
  }

  /** A pass changes nothing exactly at a fixpoint. */
  lemma {:induction false} PassFixed(rules: seq<Rule>, facts: set<string>)
    ensures Pass(rules, facts) == Ok(facts) <==> Fixpoint(rules, facts)
    decreases |rules|
  {
    if |rules| > 0 {
      var rule, rest := rules[0], rules[1..];
      PassFixed(rest, facts);
      if Fixpoint(rules, facts) {
        assert Fixpoint(rest, facts) by {
          forall i | 0 <= i < |rest| && rest[i].rhs !in facts
            ensures Deduct(rest[i].code, facts) == Ok(false)
          {
            assert rules[i + 1] == rest[i];
          }
        }
      }
      if Pass(rules, facts) == Ok(facts) {
        if rule.rhs !in facts {
          assert Deduct(rule.code, facts) == Ok(false);
        }
        forall i | 0 <= i < |rules| && rules[i].rhs !in facts
          ensures Deduct(rules[i].code, facts) == Ok(false)
        {
          if i > 0 {
            assert rest[i - 1] == rules[i];
          }
        }
      }
    }
  }

  /** What `learn` reaches is a fixpoint of the rules. */
  lemma {:induction false} LearnReachesFixpoint(kb: Kb)
    requires Learn(kb).Ok?
    ensures Fixpoint(kb.rules, Learn(kb).value.facts)
    decreases |Consequents(kb.rules) - kb.facts|
  {
    var p := Pass(kb.rules, kb.facts);
    if p.value == kb.facts {
      PassFixed(kb.rules, kb.facts);
    } else {
      Shrinks(Consequents(kb.rules), kb.facts, p.value);
      LearnReachesFixpoint(kb.(facts := p.value));
    }
  }

  /** Learning again right after learning changes nothing. */
  lemma {:induction false} LearnIdempotent(kb: Kb)
    requires Learn(kb).Ok?
    ensures Learn(Learn(kb).value) == Learn(kb)
  {
    var k := Learn(kb).value;
    LearnReachesFixpoint(kb);
    PassFixed(k.rules, k.facts);
  }

  /** A knowledge base already at a fixpoint is left exactly as it is. */
  lemma {:induction false} LearnAtFixpoint(kb: Kb)
    requires Fixpoint(kb.rules, kb.facts)
    ensures Learn(kb) == Ok(kb)
  {
    PassFixed(kb.rules, kb.facts);
  }

  /** `learn` written as the engine writes it: an outer `while True` with a
      `fixed` flag around a `for` over the rules that adds to the live fact
      set. */
  method LearnLoop(kb: Kb) returns (r: Result<Kb>)
    ensures r == Learn(kb)
  {
    var facts := kb.facts;
    while true
      invariant kb.facts <= facts <= kb.facts + Consequents(kb.rules)
      invariant Learn(kb.(facts := facts)) == Learn(kb)
      decreases |Consequents(kb.rules) - facts|
    {
      var fixed := true;
      var f := facts;
      var i := 0;
      while i < |kb.rules|
        invariant 0 <= i <= |kb.rules|
        invariant Pass(kb.rules, facts) == Pass(kb.rules[i..], f)
        invariant facts <= f <= facts + Consequents(kb.rules)
        invariant fixed <==> f == facts
      {
        var rule := kb.rules[i];
        PassAt(kb.rules, i, f);
        if rule.rhs !in f {
          var v := Deduct(rule.code, f);
          if v.Err? {
            return Err(v.fault);
          }
          if v.value {
            f := f + {rule.rhs};
            fixed := false;
          }
        }
        i := i + 1;
      }
      assert kb.rules[i..] == [];
      LearnStep(kb.(facts := facts), f);
      if fixed {
        return Ok(kb.(facts := facts));
      }
      facts := f;
    }
  }

  /** The pass from rule `i` on, one rule taken. */
  lemma {:induction false} PassAt(rules: seq<Rule>, i: nat, facts: set<string>)
    requires i < |rules|
    ensures rules[i].rhs in Consequents(rules)
    ensures Pass(rules[i..], facts) ==
      if rules[i].rhs in facts then Pass(rules[i + 1..], facts)
      else if Deduct(rules[i].code, facts).Err? then Err(StackUnderflow)
      else if Deduct(rules[i].code, facts).value then Pass(rules[i + 1..], facts + {rules[i].rhs})
      else Pass(rules[i + 1..], facts)
  {
    assert rules[i..][0] == rules[i];
    assert rules[i..][1..] == rules[i + 1..];
  }

  /** `learn` after one pass that ends at `f`: done when nothing was added,
      otherwise `learn` again from `f`, with strictly less left to learn. */
  lemma {:induction false} LearnStep(kb: Kb, f: set<string>)
    requires Pass(kb.rules, kb.facts) == Ok(f)
    ensures Learn(kb) == if f == kb.facts then Ok(kb) else Learn(kb.(facts := f))
    ensures f != kb.facts ==> |Consequents(kb.rules) - f| < |Consequents(kb.rules) - kb.facts|
  {
    if f != kb.facts {
      Shrinks(Consequents(kb.rules), kb.facts, f);
    }
  }
}
