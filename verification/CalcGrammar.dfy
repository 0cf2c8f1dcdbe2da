/** The command-line calculator: its tokens, its grammar, and what an expression means. */
module CalcGrammar {
  import opened Decimals

  // ---- tokens ----

  /** `Bad` is a character that starts no token; reading it ends the evaluation. */
  datatype Token = Num(value: real) | Sym(char) | Bad | End

  datatype Mode = ReadStart | ReadInt | ReadMantissa | ReadHex

  predicate IsSymbol(c: char) {
    c in "+-/*()%^="
  }

  /** Between tokens: blanks and the ends of command-line arguments. */
  predicate IsBlank(c: char) {
    c == ' ' || c == '\t' || c == '\0'
  }

  predicate IsHexLetter(c: char) {
    'a' <= c <= 'f' || 'A' <= c <= 'F'
  }

  function HexValue(c: char): nat
    requires IsDigit(c) || IsHexLetter(c)
  {
    if IsDigit(c) then DigitValue(c)
    else if 'a' <= c then 10 + (c - 'a') as nat
    else 10 + (c - 'A') as nat
  }

  /** The number that a token of digits, possibly with one point, stands for. */
  function NumberOf(token: string): real {
    if token == "" then 0.0
    else
      var last := token[|token| - 1];
      var init := token[..|token| - 1];
      if IsDigit(last) && '.' !in init then 10.0 * NumberOf(init) + DigitValue(last) as real
      else if IsDigit(last) then NumberOf(init) + Behind(init, DigitValue(last) as real)
      else NumberOf(init)
  }

  /** What a digit counts behind a token with a point. */
  function Behind(token: string, digit: real): real {
    if token == "" || token[|token| - 1] == '.' then digit / 10.0 else Behind(token[..|token| - 1], digit) / 10.0
  }

  /** The scanner from one of its states on: the next token and the text behind it. */
  function Scan(mode: Mode, token: string, number: nat, s: string): (r: (Token, string))
    ensures |r.1| <= |s| && (r.0.End? ==> r.1 == "")
    ensures mode == ReadStart && !r.0.End? && !r.0.Bad? ==> |r.1| < |s|
    decreases |s|
  {
    if s == "" then (End, "")
    else
      var c := s[0];
      match mode
      case ReadStart =>
        if IsDigit(c) then Scan(ReadInt, [c], 0, s[1..])
        else if IsSymbol(c) then (Sym(c), s[1..])
        else if IsBlank(c) then Scan(ReadStart, "", 0, s[1..])
        else if c == '.' then Scan(ReadMantissa, "0.", 0, s[1..])
        else (Bad, s)
      case ReadInt =>
        if IsDigit(c) then Scan(ReadInt, token + [c], 0, s[1..])
        else if c == 'x' && |token| == 1 then Scan(ReadHex, token, 0, s[1..])
        else if c == '.' then Scan(ReadMantissa, token + [c], 0, s[1..])
        else (Num(NumberOf(token)), s)
      case ReadMantissa =>
        if IsDigit(c) then Scan(ReadMantissa, token + [c], 0, s[1..])
        else (Num(NumberOf(token)), s)
      case ReadHex =>
        if IsDigit(c) || IsHexLetter(c) then Scan(ReadHex, token, 16 * number + HexValue(c), s[1..])
        else (Num(number as real), s)
  }

  /** All tokens of a text, up to the first bad character. */
  function Tokens(s: string): seq<Token>
    decreases |s|
  {
    var (t, rest) := Scan(ReadStart, "", 0, s);
    if t == End then [] else if t == Bad then [Bad] else [t] + Tokens(rest)
  }

  // ---- the grammar, by recursive descent ----

  datatype Parsed = Fail | Value(value: real, rest: seq<Token>)

  /** The two operations left to the mathematical library. */
  datatype Library = Library(pow: (real, real) -> real, fmod: (real, real) -> real)

  datatype Option = None | Some(value: real)

  datatype Op = Add | Sub | Mul | Div | Mod | Pow

  /** One operation; there is no result for a zero divisor. */
  function Combine(lib: Library, op: Op, v: real, w: real): Option {
    match op
    case Add => Some(v + w)
    case Sub => Some(v - w)
    case Mul => Some(v * w)
    case Div => if w == 0.0 then None else Some(v / w)
    case Mod => if w == 0.0 then None else Some(lib.fmod(v, w))
    case Pow => Some(lib.pow(v, w))
  }

  /** Looking at the next token fails. */
  predicate Sick(ts: seq<Token>) {
    ts != [] && ts[0] == Bad
  }

  predicate Next(ts: seq<Token>, c: char) {
    ts != [] && ts[0] == Sym(c)
  }

  function ParseExpr(lib: Library, ts: seq<Token>): (r: Parsed)
    ensures r.Value? ==> |r.rest| < |ts|
    decreases |ts|, 5
  {
    var t := ParseTerm(lib, ts);
    if t.Fail? then Fail else RestExpr(lib, t.value, t.rest)
  }

  function RestExpr(lib: Library, v: real, ts: seq<Token>): (r: Parsed)
    ensures r.Value? ==> |r.rest| <= |ts|
    decreases |ts|, 0
  {
    if Sick(ts) then Fail
    else if Next(ts, '+') || Next(ts, '-') then
      var t := ParseTerm(lib, ts[1..]);
      if t.Fail? then Fail
      else RestExpr(lib, Combine(lib, if Next(ts, '+') then Add else Sub, v, t.value).value, t.rest)
    else Value(v, ts)
  }

  function ParseTerm(lib: Library, ts: seq<Token>): (r: Parsed)
    ensures r.Value? ==> |r.rest| < |ts|
    decreases |ts|, 4
  {
    var t := ParseFactor(lib, ts);
    if t.Fail? then Fail else RestTerm(lib, t.value, t.rest)
  }

  predicate NextIsProduct(ts: seq<Token>) {
    Next(ts, '*') || Next(ts, '/') || Next(ts, '%')
  }

  function RestTerm(lib: Library, v: real, ts: seq<Token>): (r: Parsed)
    ensures r.Value? ==> |r.rest| <= |ts|
    decreases |ts|, 0
  {
    if Sick(ts) then Fail
    else if NextIsProduct(ts) then
      var t := ParseFactor(lib, ts[1..]);
      if t.Fail? then Fail
      else
        var u := Combine(lib, if Next(ts, '*') then Mul else if Next(ts, '/') then Div else Mod, v, t.value);
        if u.None? then Fail else RestTerm(lib, u.value, t.rest)
    else Value(v, ts)
  }

  function ParseFactor(lib: Library, ts: seq<Token>): (r: Parsed)
    ensures r.Value? ==> |r.rest| < |ts|
    decreases |ts|, 3
  {
    if Next(ts, '-') then
      var t := ParseFactor(lib, ts[1..]);
      if t.Fail? then Fail else Value(-t.value, t.rest)
    else ParseNumOp(lib, ts)
  }

  function ParseNumOp(lib: Library, ts: seq<Token>): (r: Parsed)
    ensures r.Value? ==> |r.rest| < |ts|
    decreases |ts|, 2
  {
    if ts != [] && ts[0].Num? then RestNumOp(lib, ts[0].value, ts[1..])
    else if Next(ts, '(') then
      var t := ParseExpr(lib, ts[1..]);
      if t.Fail? || !Next(t.rest, ')') then Fail else RestNumOp(lib, t.value, t.rest[1..])
    else Fail
  }

  function RestNumOp(lib: Library, v: real, ts: seq<Token>): (r: Parsed)
    ensures r.Value? ==> |r.rest| <= |ts|
    decreases |ts|, 0
  {
    if Sick(ts) then Fail
    else if Next(ts, '^') then
      var t := ParseNumOp(lib, ts[1..]);
      if t.Fail? then Fail else RestNumOp(lib, Combine(lib, Pow, v, t.value).value, t.rest)
    else Value(v, ts)
  }

  /** The value of tokens that are one expression and nothing else. */
  function ParseAll(lib: Library, ts: seq<Token>): Option {
    var t := ParseExpr(lib, ts);
    if t.Fail? || t.rest != [] then None else Some(t.value)
  }

  /** The value of a whole text. */
  function Evaluate(lib: Library, s: string): Option {
    ParseAll(lib, Tokens(s))
  }

  // ---- expressions and their meaning ----

  /** `Paren` stands for parentheses that the writer has put in. */
  datatype Expr = Lit(x: real) | Paren(e: Expr) | Neg(e: Expr) | Bin(op: Op, left: Expr, right: Expr)

  function Meaning(lib: Library, e: Expr): Option {
    match e
    case Lit(x) => Some(x)
    case Paren(f) => Meaning(lib, f)
    case Neg(f) => if Meaning(lib, f).None? then None else Some(-Meaning(lib, f).value)
    case Bin(op, l, r) =>
      if Meaning(lib, l).None? || Meaning(lib, r).None? then None
      else Combine(lib, op, Meaning(lib, l).value, Meaning(lib, r).value)
  }

  /** How tightly an expression binds: sums, products, negations, powers, and
      numbers and parentheses. */
  function Level(e: Expr): nat {
    match e
    case Lit(_) => 4
    case Paren(_) => 4
    case Neg(_) => 2
    case Bin(op, _, _) => LevelOf(op)
  }

  function LevelOf(op: Op): nat {
    match op
    case Add => 0
    case Sub => 0
    case Mul => 1
    case Div => 1
    case Mod => 1
    case Pow => 3
  }

  /** Sums and products group to the left, powers to the right. */
  function LeftLevel(op: Op): nat {
    if op == Pow then 4 else LevelOf(op)
  }

  function RightLevel(op: Op): nat {
    if op == Pow then 3 else LevelOf(op) + 1
  }

  function SymbolOf(op: Op): char {
    match op
    case Add => '+'
    case Sub => '-'
    case Mul => '*'
    case Div => '/'
    case Mod => '%'
    case Pow => '^'
  }

  /** An expression in a place that takes operators of at least level `k`: in parentheses
      when it binds less tightly. */
  function Printed(e: Expr, k: nat): seq<Token>
    decreases e, if k > Level(e) then 1 else 0
  {
    if k > Level(e) then [Sym('(')] + Printed(e, 0) + [Sym(')')]
    else
      match e
      case Lit(x) => [Num(x)]
      case Paren(f) => [Sym('(')] + Printed(f, 0) + [Sym(')')]
      case Neg(f) => [Sym('-')] + Printed(f, 2)
      case Bin(op, l, r) =>
        Printed(l, LeftLevel(op)) + [Sym(SymbolOf(op))] + Printed(r, RightLevel(op))
  }

  // ---- the parser computes the meaning ----

  /** What may follow an operand of level `k`: no operator that binds more tightly. */
  predicate Follows(ts: seq<Token>, k: nat) {
    && (k <= 3 ==> !Sick(ts) && !Next(ts, '^'))
    && (k == 0 ==> !NextIsProduct(ts))
  }

  /** The part of the parser that reads operands of level `k`. */
  function ParseAt(lib: Library, k: nat, ts: seq<Token>): Parsed {
    match k
    case 0 => ParseExpr(lib, ts)
    case 1 => ParseTerm(lib, ts)
    case 2 => ParseFactor(lib, ts)
    case _ => ParseNumOp(lib, ts)
  }

  /** What that part goes on to do after its first operand. */
  function Continue(lib: Library, k: nat, v: real, ts: seq<Token>): Parsed {
    match k
    case 0 => RestExpr(lib, v, ts)
    case 1 => RestTerm(lib, v, ts)
    case 4 => RestNumOp(lib, v, ts)
    case _ => Value(v, ts)
  }

  /** The outcome of parsing an operand of the given meaning before `rest`. */
  function Outcome(lib: Library, k: nat, m: Option, rest: seq<Token>): Parsed {
    if m.None? then Fail else Continue(lib, k, m.value, rest)
  }

  lemma FollowsOperator(op: Op, ts: seq<Token>)
    ensures Follows([Sym(SymbolOf(op))] + ts, LeftLevel(op))
  {
  }

  /** The first token of an operand of level three or four is no minus sign. */
  lemma {:induction false} StartsWithOperand(e: Expr, k: nat)
    requires k >= 3
    ensures Printed(e, k) != [] && Printed(e, k)[0] != Sym('-')
  {
    if k <= Level(e) && e.Bin? {
      StartsWithOperand(e.left, 4);
    }
  }

  /** Reading a parenthesised operand. */
  lemma InParentheses(lib: Library, m: Option, inner: seq<Token>, rest: seq<Token>)
    requires ParseExpr(lib, inner + ([Sym(')')] + rest)) == Outcome(lib, 0, m, [Sym(')')] + rest)
    ensures ParseNumOp(lib, [Sym('(')] + inner + [Sym(')')] + rest) == Outcome(lib, 4, m, rest)
  {
    var ts := [Sym('(')] + inner + [Sym(')')] + rest;
    assert ts == [Sym('(')] + (inner + ([Sym(')')] + rest));
    assert ts[1..] == inner + ([Sym(')')] + rest);
    assert ([Sym(')')] + rest)[1..] == rest;
  }

  /** Between levels: an operand that binds more tightly is read by the next part. */
  lemma NextLevel(lib: Library, k: nat, m: Option, ts: seq<Token>, rest: seq<Token>)
    requires k < 4 && Follows(rest, k) && ParseAt(lib, k + 1, ts) == Outcome(lib, k + 1, m, rest)
    requires k == 2 ==> !Next(ts, '-')
    ensures ParseAt(lib, k, ts) == Outcome(lib, k, m, rest)
  {
  }

  lemma NegationStep(lib: Library, m: Option, ts: seq<Token>, rest: seq<Token>)
    requires ParseFactor(lib, ts + rest) == Outcome(lib, 2, m, rest)
    ensures ParseFactor(lib, [Sym('-')] + ts + rest) == Outcome(lib, 2, if m.None? then None else Some(-m.value), rest)
  {
    assert ([Sym('-')] + ts + rest)[1..] == ts + rest;
  }

  lemma SumStep(lib: Library, op: Op, v: real, m: Option, ts: seq<Token>, rest: seq<Token>)
    requires (op == Add || op == Sub) && Follows(rest, 0)
    requires ParseTerm(lib, ts) == Outcome(lib, 1, m, rest)
    ensures RestExpr(lib, v, [Sym(SymbolOf(op))] + ts) == OutcomeOf(lib, op, v, m, rest)
  {
    assert ([Sym(SymbolOf(op))] + ts)[1..] == ts;
  }

  lemma ProductStep(lib: Library, op: Op, v: real, m: Option, ts: seq<Token>, rest: seq<Token>)
    requires op == Mul || op == Div || op == Mod
    requires ParseFactor(lib, ts) == Outcome(lib, 2, m, rest)
    ensures RestTerm(lib, v, [Sym(SymbolOf(op))] + ts) == OutcomeOf(lib, op, v, m, rest)
  {
    assert ([Sym(SymbolOf(op))] + ts)[1..] == ts;
  }

  lemma PowerStep(lib: Library, v: real, m: Option, ts: seq<Token>, rest: seq<Token>)
    requires Follows(rest, 3)
    requires ParseNumOp(lib, ts) == Outcome(lib, 3, m, rest)
    ensures RestNumOp(lib, v, [Sym('^')] + ts) == OutcomeOf(lib, Pow, v, m, rest)
  {
    assert ([Sym('^')] + ts)[1..] == ts;
  }

  /** The outcome of an operation on a value read and an operand of the given meaning. */
  function OutcomeOf(lib: Library, op: Op, v: real, m: Option, rest: seq<Token>): Parsed {
    Outcome(lib, LevelOf(op), if m.None? then None else Combine(lib, op, v, m.value), rest)
  }

  /** Reading a printed expression in a place of level `k` yields its meaning. */
  lemma {:induction false} ParsesPrinted(lib: Library, e: Expr, k: nat, rest: seq<Token>)
    requires k <= 4 && Follows(rest, k)
    ensures ParseAt(lib, k, Printed(e, k) + rest) == Outcome(lib, k, Meaning(lib, e), rest)
    decreases e, if k > Level(e) then 10 - k else Level(e) - k
  {
    var m := Meaning(lib, e);
    if k > Level(e) && k == 4 {
      ParsesPrinted(lib, e, 0, [Sym(')')] + rest);
      InParentheses(lib, m, Printed(e, 0), rest);
    } else if k != Level(e) {
      ParsesPrinted(lib, e, k + 1, rest);
      if k == 2 {
        StartsWithOperand(e, 3);
      }
      NextLevel(lib, k, m, Printed(e, k) + rest, rest);
    } else {
      match e
      case Lit(x) => LiteralStep(lib, x, rest);
      case Paren(f) =>
        ParsesPrinted(lib, f, 0, [Sym(')')] + rest);
        InParentheses(lib, m, Printed(f, 0), rest);
      case Neg(f) =>
        ParsesPrinted(lib, f, 2, rest);
        NegationStep(lib, Meaning(lib, f), Printed(f, 2), rest);
      case Bin(op, l, r) => ParsesBinary(lib, op, l, r, rest);
    }
  }

  lemma LiteralStep(lib: Library, x: real, rest: seq<Token>)
    ensures ParseNumOp(lib, [Num(x)] + rest) == RestNumOp(lib, x, rest)
  {
    assert ([Num(x)] + rest)[1..] == rest;
  }

  lemma {:induction false} ParsesBinary(lib: Library, op: Op, l: Expr, r: Expr, rest: seq<Token>)
    requires Follows(rest, LevelOf(op))
    ensures
      var e, k := Bin(op, l, r), LevelOf(op);
      ParseAt(lib, k, Printed(e, k) + rest) == Outcome(lib, k, Meaning(lib, e), rest)
    decreases Bin(op, l, r), 0, 0
  {
    var second := Printed(r, RightLevel(op)) + rest;
    PrintedBinary(op, l, r, rest);
    FollowsOperator(op, second);
    ParsesPrinted(lib, l, LeftLevel(op), [Sym(SymbolOf(op))] + second);
    ParsesPrinted(lib, r, RightLevel(op), rest);
    if Meaning(lib, l).Some? {
      OperandStep(lib, op, Meaning(lib, l).value, Meaning(lib, r), second, rest);
    }
  }

  lemma PrintedBinary(op: Op, l: Expr, r: Expr, rest: seq<Token>)
    ensures Printed(Bin(op, l, r), LevelOf(op)) + rest
         == Printed(l, LeftLevel(op)) + ([Sym(SymbolOf(op))] + (Printed(r, RightLevel(op)) + rest))
  {
  }

  lemma OperandStep(lib: Library, op: Op, v: real, m: Option, ts: seq<Token>, rest: seq<Token>)
    requires Follows(rest, LevelOf(op))
    requires ParseAt(lib, RightLevel(op), ts) == Outcome(lib, RightLevel(op), m, rest)
    ensures Continue(lib, LeftLevel(op), v, [Sym(SymbolOf(op))] + ts) == OutcomeOf(lib, op, v, m, rest)
  {
    if op == Add || op == Sub {
      SumStep(lib, op, v, m, ts, rest);
    } else if op == Pow {
      PowerStep(lib, v, m, ts, rest);
    } else {
      ProductStep(lib, op, v, m, ts, rest);
    }
  }

  // ---- the parser accepts nothing else ----

  /** What `e`, in a place of level `k` that needs no further parentheses, and `rest` spell. */
  ghost predicate Spells(lib: Library, e: Expr, k: nat, r: Parsed, ts: seq<Token>) {
    r.Value? && k <= Level(e) && ts == Printed(e, k) + r.rest && Meaning(lib, e) == Some(r.value)
  }

  lemma {:induction false} ReadsExpr(lib: Library, ts: seq<Token>) returns (e: Expr)
    requires ParseExpr(lib, ts).Value?
    ensures Spells(lib, e, 0, ParseExpr(lib, ts), ts)
    decreases |ts|, 5
  {
    var t := ParseTerm(lib, ts);
    e := ReadsTerm(lib, ts);
    e := ReadsRestExpr(lib, e, t.value, t.rest);
  }

  lemma {:induction false} ReadsRestExpr(lib: Library, acc: Expr, v: real, ts: seq<Token>) returns (e: Expr)
    requires RestExpr(lib, v, ts).Value? && Meaning(lib, acc) == Some(v)
    ensures Spells(lib, e, 0, RestExpr(lib, v, ts), Printed(acc, 0) + ts)
    decreases |ts|, 0
  {
    if Next(ts, '+') || Next(ts, '-') {
      var op := if Next(ts, '+') then Add else Sub;
      var t := ParseTerm(lib, ts[1..]);
      var r := ReadsTerm(lib, ts[1..]);
      assert Printed(acc, 0) + ts == Printed(Bin(op, acc, r), 0) + t.rest;
      e := ReadsRestExpr(lib, Bin(op, acc, r), Combine(lib, op, v, t.value).value, t.rest);
    } else {
      e := acc;
    }
  }

  lemma {:induction false} ReadsTerm(lib: Library, ts: seq<Token>) returns (e: Expr)
    requires ParseTerm(lib, ts).Value?
    ensures Spells(lib, e, 1, ParseTerm(lib, ts), ts)
    decreases |ts|, 4
  {
    var t := ParseFactor(lib, ts);
    e := ReadsFactor(lib, ts);
    e := ReadsRestTerm(lib, e, t.value, t.rest);
  }

  lemma {:induction false} ReadsRestTerm(lib: Library, acc: Expr, v: real, ts: seq<Token>) returns (e: Expr)
    requires RestTerm(lib, v, ts).Value? && Meaning(lib, acc) == Some(v) && 1 <= Level(acc)
    ensures Spells(lib, e, 1, RestTerm(lib, v, ts), Printed(acc, 1) + ts)
    decreases |ts|, 0
  {
    if NextIsProduct(ts) {
      var op := if Next(ts, '*') then Mul else if Next(ts, '/') then Div else Mod;
      var t := ParseFactor(lib, ts[1..]);
      var r := ReadsFactor(lib, ts[1..]);
      assert Printed(acc, 1) + ts == Printed(Bin(op, acc, r), 1) + t.rest;
      e := ReadsRestTerm(lib, Bin(op, acc, r), Combine(lib, op, v, t.value).value, t.rest);
    } else {
      e := acc;
    }
  }

  lemma {:induction false} ReadsFactor(lib: Library, ts: seq<Token>) returns (e: Expr)
    requires ParseFactor(lib, ts).Value?
    ensures Spells(lib, e, 2, ParseFactor(lib, ts), ts)
    decreases |ts|, 3
  {
    if Next(ts, '-') {
      var f := ReadsFactor(lib, ts[1..]);
      e := Neg(f);
      assert ts == [Sym('-')] + ts[1..];
    } else {
      e := ReadsNumOp(lib, ts);
    }
  }

  lemma {:induction false} ReadsNumOp(lib: Library, ts: seq<Token>) returns (e: Expr)
    requires ParseNumOp(lib, ts).Value?
    ensures Spells(lib, e, 3, ParseNumOp(lib, ts), ts)
    ensures !Next(ParseNumOp(lib, ts).rest, '^') && !Sick(ParseNumOp(lib, ts).rest)
    decreases |ts|, 2
  {
    if ts[0].Num? {
      assert ts == [ts[0]] + ts[1..];
      e := ReadsRestNumOp(lib, Lit(ts[0].value), ts[0].value, ts[1..]);
    } else {
      var t := ParseExpr(lib, ts[1..]);
      var inner := ReadsExpr(lib, ts[1..]);
      assert ts == Printed(Paren(inner), 4) + t.rest[1..];
      e := ReadsRestNumOp(lib, Paren(inner), t.value, t.rest[1..]);
    }
  }

  lemma {:induction false} ReadsRestNumOp(lib: Library, acc: Expr, v: real, ts: seq<Token>) returns (e: Expr)
    requires RestNumOp(lib, v, ts).Value? && Meaning(lib, acc) == Some(v) && Level(acc) == 4
    ensures Spells(lib, e, 3, RestNumOp(lib, v, ts), Printed(acc, 4) + ts)
    ensures !Next(RestNumOp(lib, v, ts).rest, '^') && !Sick(RestNumOp(lib, v, ts).rest)
    decreases |ts|, 0
  {
    if Next(ts, '^') {
      var r := ReadsNumOp(lib, ts[1..]);
      var t := ParseNumOp(lib, ts[1..]);
      e := Bin(Pow, acc, r);
      assert Printed(acc, 4) + ts == Printed(e, 3) + t.rest;
    } else {
      e := acc;
    }
  }

  /** Tokens have a value exactly when they are an expression, with any parentheses, that
      has this meaning. */
  lemma AcceptsExactlyExpressions(lib: Library, ts: seq<Token>, v: real)
    ensures ParseAll(lib, ts) == Some(v) <==> exists e :: Printed(e, 0) == ts && Meaning(lib, e) == Some(v)
  {
    if ParseAll(lib, ts) == Some(v) {
      var e := ReadsExpr(lib, ts);
      assert Printed(e, 0) + [] == Printed(e, 0);
    }
    if e :| Printed(e, 0) == ts && Meaning(lib, e) == Some(v) {
      ParsesPrinted(lib, e, 0, []);
      assert Printed(e, 0) + [] == ts;
    }
  }
}
