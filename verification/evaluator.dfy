/** `deduct`: the stack machine that evaluates a postfix token list against
    the current fact set, with Python's short-circuiting `and`/`or` between
    two pops. */
module Evaluator {
  import opened Results
  import opened Tokens

  function Top(st: seq<bool>): (v: bool)
    requires |st| > 0
  {
    st[|st| - 1]
  }

  function Below(st: seq<bool>): (rest: seq<bool>)
    requires |st| > 0
  {
    st[..|st| - 1]
  }

  /** One token of the loop. `&` pops once and pushes the popped value back
      when it is false, so a false top leaves the stack exactly as it was; a
      true top is popped and the operand beneath it, popped and pushed again,
      becomes the result. `|` is the mirror image. Every other token that is
      not an operator pushes whether its word is a fact. */
  function Exec(st: seq<bool>, t: Token, facts: set<string>): (r: Result<seq<bool>>)
    ensures r.Err? ==> r.fault == StackUnderflow
    ensures !IsOperator(t) ==> r == Ok(st + [Spelling(t) in facts])
    ensures t.NotOp? ==> (r.Ok? <==> |st| > 0)
    ensures t.NotOp? && r.Ok? ==> r.value == Below(st) + [!Top(st)]
    ensures t.AndOp? ==> (r.Ok? <==> |st| > 0 && (!Top(st) || |st| > 1))
    ensures t.AndOp? && r.Ok? ==> r.value == if Top(st) then Below(st) else st
    ensures t.OrOp? ==> (r.Ok? <==> |st| > 0 && (Top(st) || |st| > 1))
    ensures t.OrOp? && r.Ok? ==> r.value == if Top(st) then st else Below(st)
  {
    match t
    case AndOp =>
      if |st| == 0 then Err(StackUnderflow)
      else
        var a, rest := Top(st), Below(st);
        if !a then Ok(rest + [a])
        else if |rest| == 0 then Err(StackUnderflow)
        else Ok(Below(rest) + [Top(rest)])
    case OrOp =>
      if |st| == 0 then Err(StackUnderflow)
      else
        var a, rest := Top(st), Below(st);
        if a then Ok(rest + [a])
        else if |rest| == 0 then Err(StackUnderflow)
        else Ok(Below(rest) + [Top(rest)])
    case NotOp =>
      if |st| == 0 then Err(StackUnderflow) else Ok(Below(st) + [!Top(st)])
    case _ =>
      Ok(st + [Spelling(t) in facts])
  }

  /** The token loop, left to right; the first underflow ends it. Each token
      pushes at most one operand. */
  function Eval(st: seq<bool>, ts: seq<Token>, facts: set<string>): (r: Result<seq<bool>>)
    ensures r.Err? ==> r.fault == StackUnderflow
    ensures r.Ok? ==> |r.value| <= |st| + |ts|
    decreases |ts|
  {
    if |ts| == 0 then Ok(st)
    else
      var r := Exec(st, ts[0], facts);
      if r.Err? then r else Eval(r.value, ts[1..], facts)
  }

  /** `deduct`: run the loop from an empty stack and read the top. */
  function Deduct(ts: seq<Token>, facts: set<string>): (v: Result<bool>)
    ensures v.Err? ==> v.fault == StackUnderflow
  {
    var r := Eval([], ts, facts);
    if r.Err? then Err(r.fault)
    else if |r.value| == 0 then Err(StackUnderflow)
    else Ok(Top(r.value))
  }

  // ---------------------------------------------------------------------

  lemma {:induction false} EvalAppend(st: seq<bool>, a: seq<Token>, b: seq<Token>, facts: set<string>)
    ensures Eval(st, a + b, facts) ==
      if Eval(st, a, facts).Err? then Eval(st, a, facts) else Eval(Eval(st, a, facts).value, b, facts)
    decreases |a|
  {
    if |a| == 0 {
      assert a + b == b;
    } else {
      assert (a + b)[0] == a[0];
      assert (a + b)[1..] == a[1..] + b;
      var r := Exec(st, a[0], facts);
      if r.Ok? {
        EvalAppend(r.value, a[1..], b, facts);
      }
    }
  }

  /** Operands buried under the stack a token works on are never touched. */
  lemma {:induction false} ExecFrame(p: seq<bool>, st: seq<bool>, t: Token, facts: set<string>)
    requires Exec(st, t, facts).Ok?
    ensures Exec(p + st, t, facts) == Ok(p + Exec(st, t, facts).value)
  {
    if IsOperator(t) {
      assert Top(p + st) == Top(st);
      assert Below(p + st) == p + Below(st);
      if t.NotOp? {
        assert (p + Below(st)) + [!Top(st)] == p + (Below(st) + [!Top(st)]);
      }
    } else {
      assert (p + st) + [Spelling(t) in facts] == p + (st + [Spelling(t) in facts]);
    }
  }

  /** An evaluation that succeeds on a stack succeeds in the same way on any
      deeper stack, leaving the extra operands untouched. */
  lemma {:induction false} EvalFrame(p: seq<bool>, st: seq<bool>, ts: seq<Token>, facts: set<string>)
    requires Eval(st, ts, facts).Ok?
    ensures Eval(p + st, ts, facts) == Ok(p + Eval(st, ts, facts).value)
    decreases |ts|
  {
    if |ts| > 0 {
      var r := Exec(st, ts[0], facts).value;
      ExecFrame(p, st, ts[0], facts);
      EvalFrame(p, r, ts[1..], facts);
    }
  }

  /** A trailing `!` negates the result, and underflows exactly when the rest
      does or leaves nothing on the stack. */
  lemma {:induction false} DeductNegation(ts: seq<Token>, facts: set<string>)
    ensures Deduct(ts + [NotOp], facts).Ok? <==> Deduct(ts, facts).Ok?
    ensures Deduct(ts, facts).Ok? ==> Deduct(ts + [NotOp], facts).value == !Deduct(ts, facts).value
  {
    EvalAppend([], ts, [NotOp], facts);
    assert [NotOp][1..] == [];
  }

  /** The result never depends on facts that no token spells. */
  lemma {:induction false} EvalLocal(st: seq<bool>, ts: seq<Token>, facts: set<string>, more: set<string>)
    requires forall i :: 0 <= i < |ts| ==> Spelling(ts[i]) !in more
    ensures Eval(st, ts, facts + more) == Eval(st, ts, facts)
    decreases |ts|
  {
    if |ts| > 0 {
      var r := Exec(st, ts[0], facts);
      assert Exec(st, ts[0], facts + more) == r;
      if r.Ok? {
        EvalLocal(r.value, ts[1..], facts, more);
      }
    }
  }
}
