/** `to_postfix`: the operator-precedence (shunting-yard) converter from a
    space-split infix token list to postfix order. */
module Compiler {
  import opened Results
  import opened Tokens

  /** The two lists the converter keeps: the operator stack (top at the end)
      and the postfix output built so far. */
  datatype Shunt = Shunt(ops: seq<Token>, out: seq<Token>)

  const Start := Shunt([], [])

  ghost predicate WellStacked(ops: seq<Token>) {
    forall i :: 0 <= i < |ops| ==> Stackable(ops[i])
  }

  function Reverse(s: seq<Token>): (r: seq<Token>)
    ensures |r| == |s|
  {
    if |s| == 0 then [] else [s[|s| - 1]] + Reverse(s[..|s| - 1])
  }

  lemma {:induction false} ReverseSnoc(s: seq<Token>, t: Token)
    ensures Reverse(s + [t]) == [t] + Reverse(s)
  {
    assert (s + [t])[..|s|] == s;
  }

  /** How many operators the pop loop for an incoming operator of precedence
      `p` removes: it keeps popping while `p <= Precedence(top)`. */
  function Popped(ops: seq<Token>, p: nat): (n: nat)
    requires WellStacked(ops)
    ensures n <= |ops|
    decreases |ops|
  {
    if |ops| > 0 && p <= Precedence(ops[|ops| - 1]) then 1 + Popped(ops[..|ops| - 1], p) else 0
  }

  /** Every operator the loop pops ranks at least `p`, and the top it stops
      at (if any) ranks strictly below `p`. */
  lemma {:induction false} PoppedRanks(ops: seq<Token>, p: nat)
    requires WellStacked(ops)
    ensures forall i :: |ops| - Popped(ops, p) <= i < |ops| ==> p <= Precedence(ops[i])
    ensures Popped(ops, p) == |ops| || Precedence(ops[|ops| - Popped(ops, p) - 1]) < p
    decreases |ops|
  {
    if |ops| > 0 && p <= Precedence(ops[|ops| - 1]) {
      PoppedRanks(ops[..|ops| - 1], p);
    }
  }

  /** The pop loop itself: the popped operators leave the stack as a suffix
      and reach the output top-first. */
  function PopWhile(ops: seq<Token>, out: seq<Token>, p: nat): (r: Shunt)
    requires WellStacked(ops)
  {
    var k := |ops| - Popped(ops, p);
    Shunt(ops[..k], out + Reverse(ops[k..]))
  }

  /** The `)` loop: emit operators until the nearest `(`, then drop it. An
      empty stack before any `(` is the IndexError of `operators[-1]`. */
  function CloseGroup(ops: seq<Token>, out: seq<Token>): (r: Result<Shunt>)
    ensures r.Err? ==> r.fault == UnmatchedClose
    ensures r.Ok? ==>
      var k := |r.value.ops|;
      && k < |ops| && ops[k] == Open && r.value.ops == ops[..k]
      && r.value.out == out + Reverse(ops[k + 1..])
    decreases |ops|
  {
    if |ops| == 0 then Err(UnmatchedClose)
    else if ops[|ops| - 1] == Open then Ok(Shunt(ops[..|ops| - 1], out))
    else
      var init, top := ops[..|ops| - 1], ops[|ops| - 1];
      var r := CloseGroup(init, out + [top]);
      if r.Ok? then
        CloseBelow(ops, out, |r.value.ops|);
        r
      else
        r
  }

  /** An operator above the `(` found at `k` goes out before the ones above it. */
  lemma {:induction false} CloseBelow(ops: seq<Token>, out: seq<Token>, k: nat)
    requires k + 1 < |ops|
    ensures var init, top := ops[..|ops| - 1], ops[|ops| - 1];
      && init[..k] == ops[..k] && init[k] == ops[k]
      && (out + [top]) + Reverse(init[k + 1..]) == out + Reverse(ops[k + 1..])
  {
    var init, top := ops[..|ops| - 1], ops[|ops| - 1];
    assert ops[k + 1..] == init[k + 1..] + [top];
    ReverseSnoc(init[k + 1..], top);
  }

  /** The `)` loop fails exactly when no `(` is on the stack, and otherwise
      stops at the NEAREST `(`. */
  lemma {:induction false} CloseGroupFinds(ops: seq<Token>, out: seq<Token>)
    ensures CloseGroup(ops, out).Ok? <==> Open in ops
    ensures CloseGroup(ops, out).Ok? ==> Open !in ops[|CloseGroup(ops, out).value.ops| + 1..]
    decreases |ops|
  {
    if |ops| > 0 && ops[|ops| - 1] != Open {
      var init, top := ops[..|ops| - 1], ops[|ops| - 1];
      CloseGroupFinds(init, out + [top]);
      assert ops == init + [top];
    }
  }

  /** One pass of the token loop. */
  function Step(s: Shunt, t: Token): (r: Result<Shunt>)
    requires WellStacked(s.ops)
    ensures r.Ok? ==> WellStacked(r.value.ops)
  {
    match t
    case Open => Ok(Shunt(s.ops + [Open], s.out))
    case Close => CloseGroup(s.ops, s.out)
    case Sym(_) => Ok(Shunt(s.ops, s.out + [t]))
    case _ =>
      var p := PopWhile(s.ops, s.out, Precedence(t));
      Ok(Shunt(p.ops + [t], p.out))
  }

  /** The token loop, left to right; the first failure ends it. */
  function Run(s: Shunt, ts: seq<Token>): (r: Result<Shunt>)
    requires WellStacked(s.ops)
    ensures r.Ok? ==> WellStacked(r.value.ops)
    decreases |ts|
  {
    if |ts| == 0 then Ok(s)
    else
      var r := Step(s, ts[0]);
      if r.Err? then r else Run(r.value, ts[1..])
  }

  /** The final drain: what is left on the stack reaches the output top-first. */
  function Drain(s: Shunt): (code: seq<Token>) {
    s.out + Reverse(s.ops)
  }

  /** `to_postfix`: the token loop from an empty stack, then the drain. It
      fails exactly when some `)` has no earlier unmatched `(` (an unmatched
      `(` is no error and is drained to the output), and the symbols leave
      in the order they came in. */
  function ToPostfix(ts: seq<Token>): (r: Result<seq<Token>>)
    ensures r.Ok? <==> ClosesMatched(ts)
    ensures r.Err? ==> r.fault == UnmatchedClose
    ensures r.Ok? ==> Symbols(r.value) == Symbols(ts)
  {
    var q := Run(Start, ts);
    RunGroups(Start, ts);
    RunFault(Start, ts);
    if q.Err? then Err(q.fault)
    else
      RunKeepsSymbolOrder(Start, ts);
      NoSymbolsOnStack(q.value.ops);
      SymbolsAppend(q.value.out, Reverse(q.value.ops));
      Ok(Drain(q.value))
  }

  // ---------------------------------------------------------------------
  // The output only grows

  /** No step takes back or changes what is already in the output. */
  lemma {:induction false} StepExtends(s: Shunt, t: Token)
    requires WellStacked(s.ops) && Step(s, t).Ok?
    ensures |s.out| <= |Step(s, t).value.out|
    ensures Step(s, t).value.out[..|s.out|] == s.out
  {
  }

  lemma {:induction false} RunExtends(s: Shunt, ts: seq<Token>)
    requires WellStacked(s.ops) && Run(s, ts).Ok?
    ensures |s.out| <= |Run(s, ts).value.out|
    ensures Run(s, ts).value.out[..|s.out|] == s.out
    decreases |ts|
  {
    if |ts| > 0 {
      var s' := Step(s, ts[0]).value;
      StepExtends(s, ts[0]);
      RunExtends(s', ts[1..]);
      assert Run(s, ts) == Run(s', ts[1..]);
    }
  }

  // ---------------------------------------------------------------------
  // Running over a concatenation

  lemma {:induction false} RunAppend(s: Shunt, a: seq<Token>, b: seq<Token>)
    requires WellStacked(s.ops)
    ensures Run(s, a + b) == if Run(s, a).Err? then Run(s, a) else Run(Run(s, a).value, b)
    decreases |a|
  {
    if |a| == 0 {
      assert a + b == b;
    } else {
      assert (a + b)[0] == a[0];
      assert (a + b)[1..] == a[1..] + b;
      var r := Step(s, a[0]);
      if r.Ok? {
        RunAppend(r.value, a[1..], b);
      }
    }
  }

  // ---------------------------------------------------------------------
  // Symbols keep their relative order

  /** The symbol tokens of a list, in order. */
  function Symbols(ts: seq<Token>): (syms: seq<Token>) {
    if |ts| == 0 then []
    else (if IsSymbol(ts[0]) then [ts[0]] else []) + Symbols(ts[1..])
  }

  lemma {:induction false} SymbolsAppend(a: seq<Token>, b: seq<Token>)
    ensures Symbols(a + b) == Symbols(a) + Symbols(b)
    decreases |a|
  {
    if |a| == 0 {
      assert a + b == b;
    } else {
      assert (a + b)[0] == a[0];
      assert (a + b)[1..] == a[1..] + b;
      SymbolsAppend(a[1..], b);
    }
  }

  lemma {:induction false} NoSymbolsOnStack(ops: seq<Token>)
    requires WellStacked(ops)
    ensures Symbols(ops) == []
    ensures Symbols(Reverse(ops)) == []
    decreases |ops|
  {
    if |ops| > 0 {
      var init := ops[..|ops| - 1];
      NoSymbolsOnStack(ops[1..]);
      NoSymbolsOnStack(init);
      SymbolsAppend([ops[|ops| - 1]], Reverse(init));
    }
  }

  /** Moving stacked operators to the output adds no symbol. */
  lemma {:induction false} SymbolsEmit(out: seq<Token>, moved: seq<Token>)
    requires WellStacked(moved)
    ensures Symbols(out + Reverse(moved)) == Symbols(out)
  {
    NoSymbolsOnStack(moved);
    SymbolsAppend(out, Reverse(moved));
    assert Symbols(out) + [] == Symbols(out);
  }

  lemma {:induction false} StepKeepsSymbolOrder(s: Shunt, t: Token)
    requires WellStacked(s.ops)
    requires Step(s, t).Ok?
    ensures Symbols(Step(s, t).value.out) == Symbols(s.out) + Symbols([t])
  {
    assert [t][1..] == [];
    match t
    case Open =>
    case Close =>
      CloseKeepsSymbolOrder(s);
    case Sym(_) =>
      SymbolsAppend(s.out, [t]);
    case _ =>
      PopKeepsSymbolOrder(s, Precedence(t));
  }

  lemma {:induction false} CloseKeepsSymbolOrder(s: Shunt)
    requires WellStacked(s.ops) && CloseGroup(s.ops, s.out).Ok?
    ensures Symbols(CloseGroup(s.ops, s.out).value.out) == Symbols(s.out)
  {
    var r := CloseGroup(s.ops, s.out).value;
    assert WellStacked(s.ops[|r.ops| + 1..]);
    SymbolsEmit(s.out, s.ops[|r.ops| + 1..]);
  }

  lemma {:induction false} PopKeepsSymbolOrder(s: Shunt, p: nat)
    requires WellStacked(s.ops)
    ensures Symbols(PopWhile(s.ops, s.out, p).out) == Symbols(s.out)
  {
    var k := |s.ops| - Popped(s.ops, p);
    SymbolsEmit(s.out, s.ops[k..]);
  }

  lemma {:induction false} RunKeepsSymbolOrder(s: Shunt, ts: seq<Token>)
    requires WellStacked(s.ops)
    requires Run(s, ts).Ok?
    ensures Symbols(Run(s, ts).value.out) == Symbols(s.out) + Symbols(ts)
    decreases |ts|
  {
    if |ts| > 0 {
      var s' := Step(s, ts[0]).value;
      RunKeepsSymbolOrder(s', ts[1..]);
      StepKeepsSymbolOrder(s, ts[0]);
      SymbolsCons(ts);
      Assoc(Symbols(s.out), Symbols([ts[0]]), Symbols(ts[1..]));
    }
  }

  lemma {:induction false} SymbolsCons(ts: seq<Token>)
    requires |ts| > 0
    ensures Symbols(ts) == Symbols([ts[0]]) + Symbols(ts[1..])
  {
    assert [ts[0]][1..] == [];
  }

  /** Solver aid: states associativity of concatenation once, so that larger
      proofs need not rederive it by extensionality. */
  lemma {:induction false} Assoc(a: seq<Token>, b: seq<Token>, c: seq<Token>)
    ensures a + b + c == a + (b + c)
  {
  }

  // ---------------------------------------------------------------------
  // Counting tokens

  function Count(x: Token, s: seq<Token>): (n: nat) {
    if |s| == 0 then 0 else (if s[0] == x then 1 else 0) + Count(x, s[1..])
  }

  lemma {:induction false} CountAppend(x: Token, a: seq<Token>, b: seq<Token>)
    ensures Count(x, a + b) == Count(x, a) + Count(x, b)
    decreases |a|
  {
    if |a| == 0 {
      assert a + b == b;
    } else {
      assert (a + b)[1..] == a[1..] + b;
      CountAppend(x, a[1..], b);
    }
  }

  lemma {:induction false} CountCons(x: Token, ts: seq<Token>)
    requires |ts| > 0
    ensures Count(x, ts) == Count(x, [ts[0]]) + Count(x, ts[1..])
  {
    assert [ts[0]][1..] == [];
  }

  lemma {:induction false} CountAbsent(x: Token, s: seq<Token>)
    requires x !in s
    ensures Count(x, s) == 0
    decreases |s|
  {
    if |s| > 0 {
      CountAbsent(x, s[1..]);
    }
  }

  lemma {:induction false} CountReverse(x: Token, s: seq<Token>)
    ensures Count(x, Reverse(s)) == Count(x, s)
    decreases |s|
  {
    if |s| > 0 {
      var init, last := s[..|s| - 1], s[|s| - 1];
      CountReverse(x, init);
      CountAppend(x, init, [last]);
      assert s == init + [last];
      assert ([last] + Reverse(init))[1..] == Reverse(init);
    }
  }

  lemma {:induction false} CountMultiset(x: Token, s: seq<Token>)
    ensures multiset(s)[x] == Count(x, s)
    decreases |s|
  {
    if |s| > 0 {
      CountMultiset(x, s[1..]);
      assert s == [s[0]] + s[1..];
    }
  }

  /** Counting across a cut of the stack. */
  lemma {:induction false} CountSplit(x: Token, s: seq<Token>, k: nat)
    requires k <= |s|
    ensures Count(x, s) == Count(x, s[..k]) + Count(x, s[k..])
  {
    assert s == s[..k] + s[k..];
    CountAppend(x, s[..k], s[k..]);
  }

  /** Counting around the element at `k`. */
  lemma {:induction false} CountAround(x: Token, s: seq<Token>, k: nat)
    requires k < |s|
    ensures Count(x, s) == Count(x, s[..k]) + (if s[k] == x then 1 else 0) + Count(x, s[k + 1..])
  {
    CountSplit(x, s, k);
    assert s[k..] == [s[k]] + s[k + 1..];
    CountAppend(x, [s[k]], s[k + 1..]);
  }

  /** Operators moved to the output in reverse keep their count. */
  lemma {:induction false} CountEmit(x: Token, out: seq<Token>, moved: seq<Token>)
    ensures Count(x, out + Reverse(moved)) == Count(x, out) + Count(x, moved)
  {
    CountAppend(x, out, Reverse(moved));
    CountReverse(x, moved);
  }

  /** How often `x` is held by the converter, in the output or on the stack. */
  function Held(x: Token, s: Shunt): (n: nat) {
    Count(x, s.out) + Count(x, s.ops)
  }

  /** Stack and output after the pop loop of an operator: nothing is lost,
      and no parenthesis reaches the output, because `(` ranks below every
      operator and `)` is never stacked. */
  lemma {:induction false} PopWhileCounts(ops: seq<Token>, out: seq<Token>, t: Token, x: Token)
    requires WellStacked(ops) && IsOperator(t)
    ensures var p := PopWhile(ops, out, Precedence(t));
      && Held(x, p) == Count(x, out) + Count(x, ops)
      && Count(Open, p.out) == Count(Open, out)
      && Count(Close, p.out) == Count(Close, out)
  {
    var p := PopWhile(ops, out, Precedence(t));
    var k := |p.ops|;
    var moved := ops[k..];
    PoppedRanks(ops, Precedence(t));
    assert Open !in moved;
    assert Close !in moved;
    CountAbsent(Open, moved);
    CountAbsent(Close, moved);
    CountSplit(x, ops, k);
    CountEmit(x, out, moved);
    CountEmit(Open, out, moved);
    CountEmit(Close, out, moved);
  }

  /** An operator never pops a `(`: the count of `(` on the stack stays. */
  lemma {:induction false} PopWhileKeepsGroups(ops: seq<Token>, out: seq<Token>, t: Token)
    requires WellStacked(ops) && IsOperator(t)
    ensures Count(Open, PopWhile(ops, out, Precedence(t)).ops) == Count(Open, ops)
  {
    var k := |PopWhile(ops, out, Precedence(t)).ops|;
    PoppedRanks(ops, Precedence(t));
    assert Open !in ops[k..];
    CountAbsent(Open, ops[k..]);
    CountSplit(Open, ops, k);
  }

  /** The `)` loop drops exactly one `(` and moves the operators above it to
      the output. */
  lemma {:induction false} CloseGroupCounts(ops: seq<Token>, out: seq<Token>, x: Token)
    requires WellStacked(ops) && CloseGroup(ops, out).Ok?
    ensures var r := CloseGroup(ops, out).value;
      && Held(x, r) + (if x == Open then 1 else 0) == Count(x, out) + Count(x, ops)
      && Count(Open, r.ops) + 1 == Count(Open, ops)
      && Count(Open, r.out) == Count(Open, out)
      && Count(Close, r.out) == Count(Close, out)
  {
    var r := CloseGroup(ops, out).value;
    var k := |r.ops|;
    var above := ops[k + 1..];
    CloseClears(ops, out);
    CountAround(x, ops, k);
    CountAround(Open, ops, k);
    CountEmit(x, out, above);
    CountEmit(Open, out, above);
    CountEmit(Close, out, above);
  }

  /** No parenthesis sits above the `(` that a `)` finds. */
  lemma {:induction false} CloseClears(ops: seq<Token>, out: seq<Token>)
    requires WellStacked(ops) && CloseGroup(ops, out).Ok?
    ensures var above := ops[|CloseGroup(ops, out).value.ops| + 1..];
      Count(Open, above) == 0 && Count(Close, above) == 0
  {
    var above := ops[|CloseGroup(ops, out).value.ops| + 1..];
    CloseGroupFinds(ops, out);
    assert Close !in above;
    CountAbsent(Open, above);
    CountAbsent(Close, above);
  }

  // ---------------------------------------------------------------------
  // When the converter fails: a `)` with no earlier unmatched `(`

  /** Opened minus closed groups in a token list. */
  function Balance(ts: seq<Token>): (b: int) {
    Count(Open, ts) as int - Count(Close, ts) as int
  }

  /** Starting with `n` groups open, no prefix of `ts` closes more groups than
      are open. */
  ghost predicate Matched(n: int, ts: seq<Token>) {
    forall i :: 0 <= i <= |ts| ==> n + Balance(ts[..i]) >= 0
  }

  /** Every `)` has an earlier unmatched `(`. */
  ghost predicate ClosesMatched(ts: seq<Token>) {
    Matched(0, ts)
  }

  function Delta(t: Token): (d: int) {
    if t == Open then 1 else if t == Close then -1 else 0
  }

  lemma {:induction false} MatchedCons(n: int, ts: seq<Token>)
    requires |ts| > 0
    ensures Matched(n, ts) <==> n >= 0 && Matched(n + Delta(ts[0]), ts[1..])
  {
    forall i | 0 <= i <= |ts[1..]|
      ensures Balance(ts[..i + 1]) == Delta(ts[0]) + Balance(ts[1..][..i])
    {
      assert ts[..i + 1][1..] == ts[1..][..i];
    }
    if n >= 0 && Matched(n + Delta(ts[0]), ts[1..]) {
      forall i | 0 <= i <= |ts| ensures n + Balance(ts[..i]) >= 0 {
        if i > 0 {
          assert n + Delta(ts[0]) + Balance(ts[1..][..i - 1]) >= 0;
        }
      }
    }
    if Matched(n, ts) {
      assert n + Balance(ts[..0]) >= 0;
      forall i | 0 <= i <= |ts[1..]| ensures n + Delta(ts[0]) + Balance(ts[1..][..i]) >= 0 {
        assert n + Balance(ts[..i + 1]) >= 0;
      }
    }
  }

  /** One step fails exactly on a `)` with no `(` on the stack, and moves the
      count of `(` on the stack by the token's own balance. */
  lemma {:induction false} StepGroups(s: Shunt, t: Token)
    requires WellStacked(s.ops)
    ensures Step(s, t).Err? <==> t == Close && Count(Open, s.ops) == 0
    ensures Step(s, t).Ok? ==> Count(Open, Step(s, t).value.ops) == Count(Open, s.ops) + Delta(t)
  {
    match t
    case Open =>
      CountAppend(Open, s.ops, [Open]);
    case Close =>
      CloseGroupFinds(s.ops, s.out);
      if Open !in s.ops {
        CountAbsent(Open, s.ops);
      } else {
        CloseGroupCounts(s.ops, s.out, Open);
      }
    case Sym(_) =>
    case _ =>
      PopWhileKeepsGroups(s.ops, s.out, t);
      CountAppend(Open, PopWhile(s.ops, s.out, Precedence(t)).ops, [t]);
  }

  lemma {:induction false} RunGroups(s: Shunt, ts: seq<Token>)
    requires WellStacked(s.ops)
    ensures Run(s, ts).Ok? <==> Matched(Count(Open, s.ops), ts)
    ensures Run(s, ts).Ok? ==>
      Count(Open, Run(s, ts).value.ops) == Count(Open, s.ops) + Balance(ts)
    decreases |ts|
  {
    if |ts| == 0 {
      assert ts[..0] == [];
    } else {
      StepGroups(s, ts[0]);
      MatchedCons(Count(Open, s.ops), ts);
      var r := Step(s, ts[0]);
      if r.Ok? {
        RunGroups(r.value, ts[1..]);
        BalanceCons(ts);
      } else {
        assert ts[1..][..0] == [];
      }
    }
  }

  lemma {:induction false} BalanceCons(ts: seq<Token>)
    requires |ts| > 0
    ensures Balance(ts) == Delta(ts[0]) + Balance(ts[1..])
  {
  }

  lemma {:induction false} RunFault(s: Shunt, ts: seq<Token>)
    requires WellStacked(s.ops)
    ensures Run(s, ts).Err? ==> Run(s, ts).fault == UnmatchedClose
    decreases |ts|
  {
    if |ts| > 0 {
      var r := Step(s, ts[0]);
      if r.Ok? {
        RunFault(r.value, ts[1..]);
      }
    }
  }

  // ---------------------------------------------------------------------
  // Balanced input: the output is a permutation of the non-parenthesis input

  predicate NoParens(ts: seq<Token>) {
    Count(Open, ts) == 0 && Count(Close, ts) == 0
  }

  /** Every step hands each non-parenthesis token it reads to the stack or the
      output, loses nothing it holds, and never emits a parenthesis. */
  lemma {:induction false} StepCounts(s: Shunt, t: Token, x: Token)
    requires WellStacked(s.ops) && Step(s, t).Ok? && !IsParen(x)
    ensures Held(x, Step(s, t).value) == Held(x, s) + Count(x, [t])
    ensures NoParens(s.out) ==> NoParens(Step(s, t).value.out)
  {
    match t
    case Open =>
      OpenCounts(s, x);
    case Close =>
      CloseCounts(s, x);
    case Sym(_) =>
      SymbolCounts(s, t, x);
    case _ =>
      OperatorCounts(s, t, x);
  }

  lemma {:induction false} OpenCounts(s: Shunt, x: Token)
    requires !IsParen(x)
    ensures Held(x, Shunt(s.ops + [Open], s.out)) == Held(x, s) + Count(x, [Open])
  {
    CountAppend(x, s.ops, [Open]);
  }

  lemma {:induction false} CloseCounts(s: Shunt, x: Token)
    requires WellStacked(s.ops) && CloseGroup(s.ops, s.out).Ok? && !IsParen(x)
    ensures Held(x, CloseGroup(s.ops, s.out).value) == Held(x, s) + Count(x, [Close])
    ensures NoParens(s.out) ==> NoParens(CloseGroup(s.ops, s.out).value.out)
  {
    CloseGroupCounts(s.ops, s.out, x);
    assert Count(x, [Close]) == 0;
  }

  lemma {:induction false} SymbolCounts(s: Shunt, t: Token, x: Token)
    requires t.Sym? && !IsParen(x)
    ensures Held(x, Shunt(s.ops, s.out + [t])) == Held(x, s) + Count(x, [t])
    ensures NoParens(s.out) ==> NoParens(s.out + [t])
  {
    CountAppend(x, s.out, [t]);
    CountAppend(Open, s.out, [t]);
    CountAppend(Close, s.out, [t]);
  }

  lemma {:induction false} OperatorCounts(s: Shunt, t: Token, x: Token)
    requires WellStacked(s.ops) && IsOperator(t) && !IsParen(x)
    ensures var p := PopWhile(s.ops, s.out, Precedence(t));
      && Held(x, Shunt(p.ops + [t], p.out)) == Held(x, s) + Count(x, [t])
      && (NoParens(s.out) ==> NoParens(p.out))
  {
    PopWhileCounts(s.ops, s.out, t, x);
    CountAppend(x, PopWhile(s.ops, s.out, Precedence(t)).ops, [t]);
  }

  lemma {:induction false} RunCounts(s: Shunt, ts: seq<Token>, x: Token)
    requires WellStacked(s.ops) && Run(s, ts).Ok? && !IsParen(x)
    ensures Held(x, Run(s, ts).value) == Held(x, s) + Count(x, ts)
    ensures NoParens(s.out) ==> NoParens(Run(s, ts).value.out)
    decreases |ts|
  {
    if |ts| > 0 {
      var s' := Step(s, ts[0]).value;
      StepCounts(s, ts[0], x);
      RunCounts(s', ts[1..], x);
      CountCons(x, ts);
    }
  }

  /** The multiset of a list with its parentheses removed. */
  function Unbracketed(ts: seq<Token>): (m: multiset<Token>) {
    multiset(ts)[Open := 0][Close := 0]
  }

  /** For well-bracketed input the converter succeeds, every operator and
      symbol occurs in the output as often as in the input, and no
      parenthesis does: the operator stack has been drained of every `(`. */
  lemma {:induction false} BalancedCounts(ts: seq<Token>, x: Token)
    requires ClosesMatched(ts) && Balance(ts) == 0
    ensures ToPostfix(ts).Ok?
    ensures !IsParen(x) ==> Count(x, ToPostfix(ts).value) == Count(x, ts)
    ensures NoParens(ToPostfix(ts).value)
  {
    RunGroups(Start, ts);
    var s := Run(Start, ts).value;
    assert Close !in s.ops;
    CountAbsent(Close, s.ops);
    var y := if IsParen(x) then Sym("") else x;
    RunCounts(Start, ts, y);
    CountAppend(y, s.out, Reverse(s.ops));
    CountReverse(y, s.ops);
    CountAppend(Open, s.out, Reverse(s.ops));
    CountReverse(Open, s.ops);
    CountAppend(Close, s.out, Reverse(s.ops));
    CountReverse(Close, s.ops);
  }

  /** The same, as multisets. */
  lemma {:induction false} BalancedPermutes(ts: seq<Token>)
    requires ClosesMatched(ts) && Balance(ts) == 0
    ensures ToPostfix(ts).Ok?
    ensures multiset(ToPostfix(ts).value) == Unbracketed(ts)
  {
    BalancedCounts(ts, Open);
    var out := ToPostfix(ts).value;
    forall x ensures multiset(out)[x] == Unbracketed(ts)[x] {
      BalancedCounts(ts, x);
      CountMultiset(x, out);
      CountMultiset(x, ts);
    }
  }
}
