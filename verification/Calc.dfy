/** The calculator at work: a scanner over the command-line arguments that holds one token
    back, and the parser that computes values on the way. */
module Calc {
  import opened Decimals
  import opened CalcGrammar
  import opened CalcText

  /** The text of command-line arguments, each ended by a zero character. */
  function Flatten(args: seq<string>): string {
    if args == [] then "" else args[0] + "\0" + Flatten(args[1..])
  }

  /** The text from a position in the arguments on. */
  function RestOf(argv: seq<string>, arg: nat, argp: nat): string
    requires arg <= |argv| && (arg < |argv| ==> argp <= |argv[arg]|)
  {
    if arg == |argv| then "" else argv[arg][argp..] + "\0" + Flatten(argv[arg + 1..])
  }

  lemma RestAtEnd(argv: seq<string>, arg: nat)
    requires arg < |argv|
    ensures RestOf(argv, arg, |argv[arg]|) == "\0" + RestOf(argv, arg + 1, 0)
  {
    assert argv[arg][|argv[arg]|..] == "";
    if arg + 1 < |argv| {
      assert argv[arg + 1..][1..] == argv[arg + 2..] && argv[arg + 1][0..] == argv[arg + 1];
    }
  }

  lemma RestInside(argv: seq<string>, arg: nat, argp: nat)
    requires arg < |argv| && argp < |argv[arg]|
    ensures RestOf(argv, arg, argp) == [argv[arg][argp]] + RestOf(argv, arg, argp + 1)
  {
    var text := argv[arg];
    assert text[argp..] == [text[argp]] + text[argp + 1..];
    FirstApart(text[argp], text[argp + 1..], "\0", Flatten(argv[arg + 1..]));
  }

  lemma FirstApart(c: char, a: string, b: string, d: string)
    ensures [c] + a + b + d == [c] + (a + b + d)
  {
  }

  class Calculator {
    const lib: Library
    var argv: seq<string>
    var arg: nat
    var argp: nat
    var nextVal: Token
    var haveNextVal: bool

    // the tokens not yet consumed
    ghost var pending: seq<Token>

    ghost predicate Placed()
      reads `argv, `arg, `argp
    {
      && (forall k :: 0 <= k < |argv| ==> '\0' !in argv[k])
      && arg <= |argv| && if arg < |argv| then argp <= |argv[arg]| else argp == 0
    }

    /** The text not yet scanned. */
    ghost function Rest(): string
      requires Placed()
      reads `argv, `arg, `argp
    {
      RestOf(argv, arg, argp)
    }

    /** The token held back, unless it marks the end. */
    ghost function Held(): seq<Token>
      reads `nextVal, `haveNextVal
    {
      if haveNextVal && nextVal != End then [nextVal] else []
    }

    /** The fields are consistent: a token held back comes before those still in the text. It is
        said of any text equal to the rest, and so of no use before a proof speaks of its
        tokens, which the parser never does. */
    ghost predicate Valid()
      reads this
    {
      && Placed()
      && (haveNextVal ==> nextVal != Bad && (nextVal == End ==> Rest() == ""))
      && forall text :: text == Rest() ==> pending == Held() + Tokens(text)
    }

    constructor (lib: Library, argv: seq<string>)
      requires forall k :: 0 <= k < |argv| ==> '\0' !in argv[k]
      ensures Valid() && this.lib == lib && pending == Tokens(Flatten(argv))
    {
      this.lib := lib;
      this.argv := argv;
      arg, argp, haveNextVal, nextVal, pending := 0, 0, false, End, Tokens(Flatten(argv));
      new;
      if argv != [] {
        assert argv[0][0..] == argv[0];
      }
    }

    // ---- the scanner ----

    /** The character at the reading position. */
    function Current(): char
      requires Placed() && arg < |argv|
      reads `argv, `arg, `argp
    {
      if argp == |argv[arg]| then '\0' else argv[arg][argp]
    }

    method Step()
      requires Placed() && arg < |argv|
      modifies `arg, `argp
      ensures Placed() && old(Rest()) == [old(Current())] + Rest()
    {
      if argp == |argv[arg]| {
        RestAtEnd(argv, arg);
        argp := 0;
        arg := arg + 1;
      } else {
        RestInside(argv, arg, argp);
        argp := argp + 1;
      }
    }

    /** Reads one token from the text. */
    method Read() returns (val: Token)
      requires Placed()
      modifies `arg, `argp
      ensures Placed() && (val, Rest()) == Scan(ReadStart, "", 0, old(Rest()))
    {
      ghost var goal := Scan(ReadStart, "", 0, Rest());
      var mode, token, number: nat := ReadStart, "", 0;
      while true
        invariant Placed() && Scan(mode, token, number, Rest()) == goal
        invariant mode != ReadHex ==> number == 0
        decreases |Rest()|
      {
        if arg == |argv| {
          return End;
        }
        var c := Current();
        assert Rest() != "" && Rest()[0] == c by {
          assert argp == |argv[arg]| ==> argv[arg][argp..] == "";
        }
        ghost var s := Rest();
        match mode {
          case ReadStart =>
            if IsDigit(c) {
              mode, token := ReadInt, [c];
            } else if IsSymbol(c) {
              Step();
              assert s[1..] == Rest();
              return Sym(c);
            } else if c == '.' {
              mode, token := ReadMantissa, "0.";
            } else if !IsBlank(c) {
              return Bad;
            } else {
              token := "";
            }
          case ReadInt =>
            if IsDigit(c) {
              token := token + [c];
            } else if c == 'x' && |token| == 1 {
              mode := ReadHex;
            } else if c == '.' {
              mode, token := ReadMantissa, token + [c];
            } else {
              return Num(NumberOf(token));
            }
          case ReadMantissa =>
            if IsDigit(c) {
              token := token + [c];
            } else {
              return Num(NumberOf(token));
            }
          case ReadHex =>
            if IsDigit(c) || IsHexLetter(c) {
              number := 16 * number + HexValue(c);
            } else {
              return Num(number as real);
            }
        }
        Step();
        assert s[1..] == Rest();
      }
    }

    /** Looks at the next token; fails at a bad character. */
    method Peek() returns (ok: bool, val: Token)
      requires Valid()
      modifies this
      ensures ok <==> !Sick(old(pending))
      ensures ok ==> Valid() && haveNextVal && nextVal == val && pending == old(pending)
      ensures ok ==> (val == End <==> pending == []) && (pending != [] ==> val == pending[0])
    {
      assert Tokens("") == [];
      assert pending == Held() + Tokens(Rest());
      if !haveNextVal {
        val := Read();
        if val == Bad {
          return false, val;
        }
        nextVal, haveNextVal := val, true;
      }
      ok, val := true, nextVal;
    }

    /** Drops the token just looked at. */
    method Consume()
      requires Valid() && haveNextVal && nextVal != End && pending != []
      modifies `haveNextVal, `pending
      ensures Valid() && pending == old(pending)[1..]
    {
      assert pending == Held() + Tokens(Rest());
      haveNextVal := false;
      pending := pending[1..];
    }

    /** Consumes the next token if it is the given symbol. */
    method MatchChar(c: char) returns (ok: bool, matched: bool)
      requires Valid()
      modifies this
      ensures (ok <==> !Sick(old(pending))) && (ok ==> Valid())
      ensures ok ==> (matched <==> Next(old(pending), c))
      ensures ok ==> pending == if matched then old(pending)[1..] else old(pending)
    {
      var val;
      ok, val := Peek();
      matched := ok && val == Sym(c);
      if matched {
        Consume();
      }
    }

    method MatchNum() returns (ok: bool, matched: bool, val: real)
      requires Valid()
      modifies this
      ensures (ok <==> !Sick(old(pending))) && (ok ==> Valid())
      ensures ok ==> (matched <==> old(pending) != [] && old(pending)[0].Num?)
      ensures ok && matched ==> old(pending)[0].value == val
      ensures ok ==> pending == if matched then old(pending)[1..] else old(pending)
    {
      var token;
      ok, token := Peek();
      matched := ok && token.Num?;
      val := 0.0;
      if matched {
        val := token.value;
        Consume();
      }
    }

    method MatchEof() returns (ok: bool, matched: bool)
      requires Valid()
      modifies this
      ensures (ok <==> !Sick(old(pending))) && (ok ==> Valid())
      ensures ok ==> (matched <==> old(pending) == []) && pending == old(pending)
    {
      var val;
      ok, val := Peek();
      matched := ok && val == End;
    }

    // ---- the parser ----

    /** A parsing method has done what a function of the grammar says. */
    ghost predicate Agrees(r: Parsed, ok: bool, val: real)
      reads this
    {
      (ok <==> r.Value?) && (ok ==> Valid() && r == Value(val, pending))
    }

    method ParseExpr() returns (ok: bool, val: real)
      requires Valid()
      modifies this
      ensures Agrees(CalcGrammar.ParseExpr(lib, old(pending)), ok, val)
      decreases |pending|, 5
    {
      ok, val := ParseTerm();
      if ok {
        ok, val := ParseRestExpr(val);
      }
    }

    method ParseRestExpr(v: real) returns (ok: bool, val: real)
      requires Valid()
      modifies this
      ensures Agrees(RestExpr(lib, v, old(pending)), ok, val)
      decreases |pending|, 0
    {
      val := v;
      var matched;
      ok, matched := MatchChar('+');
      if !ok { return; }
      if matched {
        ok, val := ParseSum(Add, v);
        return;
      }
      ok, matched := MatchChar('-');
      if !ok { return; }
      if matched {
        ok, val := ParseSum(Sub, v);
      }
    }

    /** The term behind an addition or subtraction sign, and what follows. */
    method ParseSum(op: Op, v: real) returns (ok: bool, val: real)
      requires Valid() && (op == Add || op == Sub)
      modifies this
      ensures Agrees(AfterSum(op, v, old(pending)), ok, val)
      decreases |pending|, 5
    {
      ok, val := ParseTerm();
      if !ok { return; }
      ok, val := ParseRestExpr(Combine(lib, op, v, val).value);
    }

    ghost function AfterSum(op: Op, v: real, ts: seq<Token>): Parsed
      requires op == Add || op == Sub
    {
      var t := CalcGrammar.ParseTerm(lib, ts);
      if t.Fail? then Fail else RestExpr(lib, Combine(lib, op, v, t.value).value, t.rest)
    }

    method ParseTerm() returns (ok: bool, val: real)
      requires Valid()
      modifies this
      ensures Agrees(CalcGrammar.ParseTerm(lib, old(pending)), ok, val)
      decreases |pending|, 4
    {
      ok, val := ParseFactor();
      if ok {
        ok, val := ParseRestTerm(val);
      }
    }

    method ParseRestTerm(v: real) returns (ok: bool, val: real)
      requires Valid()
      modifies this
      ensures Agrees(RestTerm(lib, v, old(pending)), ok, val)
      decreases |pending|, 1
    {
      val := v;
      var matched;
      ok, matched := MatchChar('*');
      if !ok { return; }
      if matched {
        ok, val := ParseProduct(Mul, v);
        return;
      }
      ok, val := ParseQuotient(v);
    }

    /** The same when no multiplication sign comes next. */
    method ParseQuotient(v: real) returns (ok: bool, val: real)
      requires Valid() && !Sick(pending) && !Next(pending, '*')
      modifies this
      ensures Agrees(RestTerm(lib, v, old(pending)), ok, val)
      decreases |pending|, 0
    {
      val := v;
      var matched;
      ok, matched := MatchChar('/');
      if !ok { return; }
      if matched {
        ok, val := ParseProduct(Div, v);
        return;
      }
      ok, matched := MatchChar('%');
      if !ok { return; }
      if matched {
        ok, val := ParseProduct(Mod, v);
      }
    }

    /** The factor behind a multiplication, division or remainder sign, and what follows. */
    method ParseProduct(op: Op, v: real) returns (ok: bool, val: real)
      requires Valid() && (op == Mul || op == Div || op == Mod)
      modifies this
      ensures Agrees(AfterProduct(op, v, old(pending)), ok, val)
      decreases |pending|, 4
    {
      ok, val := ParseFactor();
      if !ok { return; }
      var product := Combine(lib, op, v, val);
      if product.None? { return false, v; }
      ok, val := ParseRestTerm(product.value);
    }

    ghost function AfterProduct(op: Op, v: real, ts: seq<Token>): Parsed {
      var t := CalcGrammar.ParseFactor(lib, ts);
      if t.Fail? || Combine(lib, op, v, t.value).None? then Fail
      else RestTerm(lib, Combine(lib, op, v, t.value).value, t.rest)
    }

    method ParseFactor() returns (ok: bool, val: real)
      requires Valid()
      modifies this
      ensures Agrees(CalcGrammar.ParseFactor(lib, old(pending)), ok, val)
      decreases |pending|, 3
    {
      var matched;
      ok, matched := MatchChar('-');
      val := 0.0;
      if !ok { return; }
      if matched {
        ok, val := ParseFactor();
        val := -val;
      } else {
        ok, val := ParseNumOp();
      }
    }

    method ParseNumOp() returns (ok: bool, val: real)
      requires Valid()
      modifies this
      ensures Agrees(CalcGrammar.ParseNumOp(lib, old(pending)), ok, val)
      decreases |pending|, 2
    {
      var matched;
      ok, matched, val := MatchNum();
      if !ok { return; }
      if matched {
        ok, val := ParseRestNumOp(val);
        return;
      }
      ok, matched := MatchChar('(');
      if !ok || !matched { return false, val; }
      ok, val := ParseInner();
    }

    /** The expression behind an opening parenthesis, and what follows the closing one. */
    method ParseInner() returns (ok: bool, val: real)
      requires Valid()
      modifies this
      ensures Agrees(AfterParenthesis(old(pending)), ok, val)
      decreases |pending|, 6
    {
      ok, val := ParseExpr();
      if !ok { return; }
      var matched;
      ok, matched := MatchChar(')');
      if !ok || !matched { return false, val; }
      ok, val := ParseRestNumOp(val);
    }

    ghost function AfterParenthesis(ts: seq<Token>): Parsed {
      var t := CalcGrammar.ParseExpr(lib, ts);
      if t.Fail? || !Next(t.rest, ')') then Fail else RestNumOp(lib, t.value, t.rest[1..])
    }

    method ParseRestNumOp(v: real) returns (ok: bool, val: real)
      requires Valid()
      modifies this
      ensures Agrees(RestNumOp(lib, v, old(pending)), ok, val)
      decreases |pending|, 0
    {
      val := v;
      var matched, val2;
      ok, matched := MatchChar('^');
      if ok && matched {
        ok, val2 := ParseNumOp();
        if !ok { return; }
        ok, val := ParseRestNumOp(lib.pow(v, val2));
      }
    }

    /** The value of the whole command line. */
    method Parse() returns (r: Option)
      requires Valid()
      modifies this
      ensures r == ParseAll(lib, old(pending))
    {
      var ok, val := ParseExpr();
      if !ok {
        return None;
      }
      var matched;
      ok, matched := MatchEof();
      r := if ok && matched then Some(val) else None;
    }
  }

  /** An expression given as one argument is evaluated to its meaning. */
  method Calculate(lib: Library, e: Expr, spell: real -> Numeral) returns (r: Option)
    requires Spelled(e, spell)
    ensures r == Meaning(lib, e)
  {
    var text := Text(e, 0, spell);
    TextHasNoZero(e, 0, spell);
    var calculator := new Calculator(lib, [text]);
    FlattenOne(text);
    EvaluatesToMeaning(lib, e, spell);
    r := calculator.Parse();
  }

  lemma FlattenOne(text: string)
    ensures Flatten([text]) == text + "\0"
  {
    assert [text][1..] == [] && Flatten([]) == "";
  }

  lemma NumeralHasNoZero(n: Numeral)
    requires WellFormed(n)
    ensures '\0' !in Spelling(n)
  {
    assert !IsDigit('\0') && !IsHexLetter('\0');
  }

  lemma {:induction false} TextHasNoZero(e: Expr, k: nat, spell: real -> Numeral)
    requires Spelled(e, spell)
    ensures '\0' !in Text(e, k, spell)
    decreases e, if k > Level(e) then 1 else 0
  {
    if k > Level(e) {
      TextHasNoZero(e, 0, spell);
    } else {
      match e
      case Lit(x) => NumeralHasNoZero(spell(x));
      case Paren(f) => TextHasNoZero(f, 0, spell);
      case Neg(f) => TextHasNoZero(f, 2, spell);
      case Bin(op, l, r) =>
        TextHasNoZero(l, LeftLevel(op), spell);
        TextHasNoZero(r, RightLevel(op), spell);
    }
  }
}
