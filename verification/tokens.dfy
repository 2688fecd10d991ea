/** Tokens of the expression language, the precedence table, and the two
    string helpers the engine borrows from Python: `str.split(' ')` and
    `str.lower()`. */
module Tokens {

  /** A word of a rule's left-hand side after splitting at spaces, classified
      by the comparisons the engine makes (`token == '&'` and so on). Every
      word that is none of the five operator characters is a symbol. */
  datatype Token = NotOp | AndOp | OrOp | Open | Close | Sym(name: string)

  /** The five one-character words that are not symbols. */
  predicate Reserved(w: string) {
    w == "!" || w == "&" || w == "|" || w == "(" || w == ")"
  }

  function Classify(w: string): (t: Token)
    ensures t.Sym? <==> !Reserved(w)
  {
    if w == "!" then NotOp
    else if w == "&" then AndOp
    else if w == "|" then OrOp
    else if w == "(" then Open
    else if w == ")" then Close
    else Sym(w)
  }

  /** The word a token was read from. */
  function Spelling(t: Token): (w: string) {
    match t
    case NotOp => "!"
    case AndOp => "&"
    case OrOp => "|"
    case Open => "("
    case Close => ")"
    case Sym(w) => w
  }

  /** A symbol token never spells an operator word. */
  predicate WellFormed(t: Token) {
    t.Sym? ==> !Reserved(t.name)
  }

  /** Classification loses nothing: it and Spelling are mutually inverse on
      words and on well-formed tokens. */
  lemma {:induction false} ClassifySpelling(w: string, t: Token)
    ensures Spelling(Classify(w)) == w
    ensures WellFormed(Classify(w))
    ensures WellFormed(t) ==> Classify(Spelling(t)) == t
  {
  }

  /** The words a token list was read from. */
  function Words(ts: seq<Token>): (ws: seq<string>)
    ensures |ws| == |ts|
  {
    seq(|ts|, i requires 0 <= i < |ts| => Spelling(ts[i]))
  }

  /** The words of an expression, as the engine gets them from `split(' ')`,
      each classified. Lexing loses nothing: spelling the tokens out gives
      back the pieces, and joining them gives back the text. */
  function Lex(text: string): (ts: seq<Token>)
    ensures Words(ts) == Split(text)
    ensures Join(Words(ts)) == text
    ensures forall i :: 0 <= i < |ts| ==> WellFormed(ts[i])
  {
    var words := Split(text);
    var ts := seq(|words|, i requires 0 <= i < |words| => Classify(words[i]));
    assert Words(ts) == words by {
      forall i | 0 <= i < |words| ensures Words(ts)[i] == words[i] {
        ClassifySpelling(words[i], ts[i]);
      }
    }
    JoinSplit(text);
    ts
  }

  predicate IsOperator(t: Token) {
    t.NotOp? || t.AndOp? || t.OrOp?
  }

  predicate IsBinary(t: Token) {
    t.AndOp? || t.OrOp?
  }

  predicate IsParen(t: Token) {
    t.Open? || t.Close?
  }

  predicate IsSymbol(t: Token) {
    t.Sym?
  }

  /** The tokens that can ever sit on the compiler's operator stack: the
      keys of the precedence table. */
  predicate Stackable(t: Token) {
    IsOperator(t) || t.Open?
  }

  /** The precedence table: `&` and `|` share level 1, `!` is 2, and `(` is 0
      so that no operator ever pops it. */
  function Precedence(t: Token): (p: nat)
    requires Stackable(t)
    ensures t.Open? <==> p == 0
    ensures IsBinary(t) <==> p == 1
    ensures t.NotOp? <==> p == 2
  {
    match t
    case Open => 0
    case NotOp => 2
    case _ => 1
  }

  /** `s.split(' ')`: cut at every single space, keeping empty pieces, so that
      the empty string yields one empty piece. */
  function Split(s: string): (parts: seq<string>)
    ensures |parts| >= 1
    ensures forall i :: 0 <= i < |parts| ==> ' ' !in parts[i]
  {
    if |s| == 0 then [""]
    else
      var rest := Split(s[1..]);
      if s[0] == ' ' then [""] + rest
      else [[s[0]] + rest[0]] + rest[1..]
  }

  /** `' '.join(parts)`, the inverse of Split. */
  function Join(parts: seq<string>): (text: string)
    requires |parts| >= 1
  {
    if |parts| == 1 then parts[0] else parts[0] + " " + Join(parts[1..])
  }

  lemma {:induction false} JoinSplit(s: string)
    ensures Join(Split(s)) == s
  {
    if |s| > 0 {
      var rest := Split(s[1..]);
      JoinSplit(s[1..]);
      if s[0] == ' ' {
        assert Split(s) == [""] + rest;
        assert Split(s)[1..] == rest;
      } else {
        assert Split(s) == [[s[0]] + rest[0]] + rest[1..];
        if |rest| == 1 {
          assert Join(rest) == rest[0];
        } else {
          assert Split(s)[1..] == rest[1..];
          assert Join(rest) == rest[0] + " " + Join(rest[1..]);
        }
        assert s == [s[0]] + s[1..];
      }
    }
  }

  /** A space-free word splits to itself, and a space after it starts a new piece. */
  lemma {:induction false} SplitWord(w: string, t: string)
    requires ' ' !in w
    ensures Split(w) == [w]
    ensures Split(w + " " + t) == [w] + Split(t)
  {
    if |w| > 0 {
      SplitWord(w[1..], t);
      assert (w + " " + t)[1..] == w[1..] + " " + t;
      assert [w[0]] + w[1..] == w;
    } else {
      assert w + " " + t == " " + t;
      assert (" " + t)[1..] == t;
    }
  }

  lemma {:induction false} SplitJoin(parts: seq<string>)
    requires |parts| >= 1
    requires forall i :: 0 <= i < |parts| ==> ' ' !in parts[i]
    ensures Split(Join(parts)) == parts
  {
    if |parts| == 1 {
      SplitWord(parts[0], "");
    } else {
      SplitJoin(parts[1..]);
      SplitWord(parts[0], Join(parts[1..]));
      assert [parts[0]] + parts[1..] == parts;
    }
  }

  /** Text written as space-separated words lexes to those words' tokens. */
  lemma {:induction false} LexJoin(words: seq<string>)
    requires |words| >= 1
    requires forall i :: 0 <= i < |words| ==> ' ' !in words[i]
    ensures Lex(Join(words)) == seq(|words|, i requires 0 <= i < |words| => Classify(words[i]))
  {
    SplitJoin(words);
  }

  /** ASCII case folding; the only words the engine compares against are
      `true` and `false`. */
  function LowerChar(c: char): (l: char) {
    if 'A' <= c <= 'Z' then (c as int + 32) as char else c
  }

  function UpperChar(c: char): (u: char) {
    if 'a' <= c <= 'z' then (c as int - 32) as char else c
  }

  /** `s.lower()`: no upper-case letter survives, and every other character
      is kept. */
  function Lower(s: string): (r: string)
    ensures |r| == |s|
    ensures forall i :: 0 <= i < |r| ==> !('A' <= r[i] <= 'Z')
    ensures forall i :: 0 <= i < |r| ==> r[i] == s[i] || ('A' <= s[i] <= 'Z' && UpperChar(r[i]) == s[i])
  {
    seq(|s|, i requires 0 <= i < |s| => LowerChar(s[i]))
  }

  /** `value.lower() == word`, for a lower-case `word`. */
  predicate SpellsIgnoringCase(value: string, word: string) {
    Lower(value) == word
  }

  predicate LowerWord(w: string) {
    forall i :: 0 <= i < |w| ==> 'a' <= w[i] <= 'z'
  }

  /** Against a lower-case word, comparing after lowering accepts exactly
      that word with any of its letters written in upper case. */
  lemma {:induction false} SpellsIgnoringCaseIff(v: string, w: string)
    requires LowerWord(w)
    ensures SpellsIgnoringCase(v, w) <==>
      |v| == |w| && forall i :: 0 <= i < |v| ==> v[i] == w[i] || v[i] == UpperChar(w[i])
  {
    if |v| == |w| && forall i :: 0 <= i < |v| ==> v[i] == w[i] || v[i] == UpperChar(w[i]) {
      forall i | 0 <= i < |v| ensures Lower(v)[i] == w[i] {
        CaseOf(v[i], w[i]);
      }
    }
    if SpellsIgnoringCase(v, w) {
      forall i | 0 <= i < |v| ensures v[i] == w[i] || v[i] == UpperChar(w[i]) {
        assert LowerChar(v[i]) == w[i];
        CaseOf(v[i], w[i]);
      }
    }
  }

  /** One character against one lower-case letter. */
  lemma {:induction false} CaseOf(c: char, l: char)
    requires 'a' <= l <= 'z'
    ensures LowerChar(c) == l <==> c == l || c == UpperChar(l)
  {
  }
}
