/** Expressions as text: the numerals the scanner knows, and that evaluating the text of an
    expression yields its meaning. */
module CalcText {
  import opened Decimals
  import opened CalcGrammar

  // ---- numerals ----

  /** Digits; digits around a point, of which there may be none on either side; and
      hexadecimal digits behind any digit and an `x`. */
  datatype Numeral =
    | Whole(digits: string)
    | Pointed(whole: string, fraction: string)
    | Hexadecimal(lead: char, hex: string)

  predicate AllDigits(s: string) {
    forall k :: 0 <= k < |s| ==> IsDigit(s[k])
  }

  predicate AllHex(s: string) {
    forall k :: 0 <= k < |s| ==> IsDigit(s[k]) || IsHexLetter(s[k])
  }

  predicate WellFormed(n: Numeral) {
    match n
    case Whole(d) => d != "" && AllDigits(d)
    case Pointed(w, f) => AllDigits(w) && AllDigits(f)
    case Hexadecimal(l, h) => IsDigit(l) && AllHex(h)
  }

  function Spelling(n: Numeral): string {
    match n
    case Whole(d) => d
    case Pointed(w, f) => w + "." + f
    case Hexadecimal(l, h) => [l] + "x" + h
  }

  function Power(base: nat, n: nat): (r: nat)
    requires base > 0
    ensures r > 0
  {
    if n == 0 then 1 else base * Power(base, n - 1)
  }

  /** Each hexadecimal digit counts for its place. */
  function HexWorth(h: string): nat
    requires AllHex(h)
  {
    if h == "" then 0 else HexValue(h[0]) * Power(16, |h| - 1) + HexWorth(h[1..])
  }

  /** Each digit behind a point counts a tenth of what it counts before. */
  function FractionWorth(f: string): real
    requires AllDigits(f)
  {
    if f == "" then 0.0 else (DigitValue(f[0]) as real + FractionWorth(f[1..])) / 10.0
  }

  /** What a numeral stands for. */
  function Worth(n: Numeral): real
    requires WellFormed(n)
  {
    match n
    case Whole(d) => ReadDigits(0, d) as real
    case Pointed(w, f) => ReadDigits(0, w) as real + FractionWorth(f)
    case Hexadecimal(_, h) => HexWorth(h) as real
  }

  lemma Regroup<T>(a: seq<T>, b: seq<T>, c: seq<T>)
    ensures a + b + c == a + (b + c)
  {
  }

  lemma {:induction false} ReadDigitsLast(read: nat, s: string, c: char)
    requires AllDigits(s) && IsDigit(c)
    ensures ReadDigits(read, s + [c]) == 10 * ReadDigits(read, s) + DigitValue(c)
    decreases |s|
  {
    if s == "" {
      assert s + [c] == [c] && [c][1..] == "";
    } else {
      assert (s + [c])[0] == s[0] && (s + [c])[1..] == s[1..] + [c];
      ReadDigitsLast(10 * read + DigitValue(s[0]), s[1..], c);
    }
  }

  lemma {:induction false} NumberOfWhole(d: string)
    requires AllDigits(d)
    ensures NumberOf(d) == ReadDigits(0, d) as real
    decreases |d|
  {
    if d != "" {
      var init, last := d[..|d| - 1], d[|d| - 1];
      NumberOfWhole(init);
      ReadDigitsLast(0, init, last);
      assert init + [last] == d;
    }
  }

  /** A digit in the n-th place behind the point. */
  function Tenths(digit: real, n: nat): real {
    if n == 0 then digit else Tenths(digit, n - 1) / 10.0
  }

  lemma {:induction false} BehindPoint(w: string, f: string, digit: real)
    requires AllDigits(f)
    ensures Behind(w + "." + f, digit) == Tenths(digit, |f| + 1)
    decreases |f|
  {
    var token := w + "." + f;
    if f == "" {
      assert token[|token| - 1] == '.';
      assert Tenths(digit, 1) == Tenths(digit, 0) / 10.0;
    } else {
      assert token[..|token| - 1] == w + "." + f[..|f| - 1];
      assert token[|token| - 1] == f[|f| - 1];
      BehindPoint(w, f[..|f| - 1], digit);
    }
  }

  /** One more digit behind the others. */
  lemma {:induction false} FractionNext(f: string, last: char)
    requires AllDigits(f) && IsDigit(last)
    ensures FractionWorth(f + [last]) == FractionWorth(f) + Tenths(DigitValue(last) as real, |f| + 1)
    decreases |f|
  {
    if f == "" {
      assert f + [last] == [last] && [last][1..] == "";
      assert Tenths(DigitValue(last) as real, 1) == Tenths(DigitValue(last) as real, 0) / 10.0;
    } else {
      assert (f + [last])[0] == f[0] && (f + [last])[1..] == f[1..] + [last];
      FractionNext(f[1..], last);
    }
  }

  /** Taking the last digit off a number with a point. */
  lemma NumberOfLast(token: string, last: char)
    requires '.' in token && IsDigit(last)
    ensures NumberOf(token + [last]) == NumberOf(token) + Behind(token, DigitValue(last) as real)
  {
    assert (token + [last])[..|token|] == token;
  }

  lemma HasPoint(w: string, f: string)
    ensures '.' in w + "." + f
  {
    assert (w + "." + f)[|w|] == '.';
  }

  lemma NumberOfPoint(w: string)
    requires AllDigits(w)
    ensures NumberOf(w + ".") == ReadDigits(0, w) as real
  {
    assert (w + ".")[..|w|] == w;
    NumberOfWhole(w);
  }

  lemma {:induction false} NumberOfPointed(w: string, f: string)
    requires AllDigits(w) && AllDigits(f)
    ensures NumberOf(w + "." + f) == ReadDigits(0, w) as real + FractionWorth(f)
    decreases |f|
  {
    if f == "" {
      assert w + "." + f == w + ".";
      NumberOfPoint(w);
    } else {
      var init, last := f[..|f| - 1], f[|f| - 1];
      assert init + [last] == f;
      Regroup(w + ".", init, [last]);
      NumberOfPointed(w, init);
      HasPoint(w, init);
      BehindPoint(w, init, DigitValue(last) as real);
      NumberOfLast(w + "." + init, last);
      FractionNext(init, last);
    }
  }

  /** Every natural number has its decimal numeral. */
  lemma DecimalNumeral(n: nat)
    ensures WellFormed(Whole(Digits(n))) && Worth(Whole(Digits(n))) == n as real
  {
    ReadDigitsOf(n, "");
    assert Digits(n) + "" == Digits(n);
  }

  // ---- the scanner reads numerals ----

  /** The end of a number: nothing that could belong to it follows. */
  predicate EndsNumber(s: string) {
    s != "" && !IsDigit(s[0]) && !IsHexLetter(s[0]) && s[0] != '.' && s[0] != 'x'
  }

  lemma {:induction false} ScanDigits(token: string, digits: string, s: string)
    requires AllDigits(digits) && EndsNumber(s)
    ensures Scan(ReadInt, token, 0, digits + s) == (Num(NumberOf(token + digits)), s)
    decreases |digits|
  {
    if digits == "" {
      assert digits + s == s && token + digits == token;
    } else {
      assert (digits + s)[1..] == digits[1..] + s;
      ScanDigits(token + [digits[0]], digits[1..], s);
      assert token + [digits[0]] + digits[1..] == token + digits;
    }
  }

  lemma {:induction false} ScanMantissa(token: string, digits: string, s: string)
    requires AllDigits(digits) && EndsNumber(s)
    ensures Scan(ReadMantissa, token, 0, digits + s) == (Num(NumberOf(token + digits)), s)
    decreases |digits|
  {
    if digits == "" {
      assert digits + s == s && token + digits == token;
    } else {
      assert (digits + s)[1..] == digits[1..] + s;
      ScanMantissa(token + [digits[0]], digits[1..], s);
      assert token + [digits[0]] + digits[1..] == token + digits;
    }
  }

  lemma {:induction false} ScanToPoint(token: string, digits: string, rest: string)
    requires AllDigits(digits)
    ensures Scan(ReadInt, token, 0, digits + ("." + rest)) == Scan(ReadMantissa, token + digits + ".", 0, rest)
    decreases |digits|
  {
    if digits == "" {
      assert digits + ("." + rest) == "." + rest && ("." + rest)[1..] == rest && token + digits == token;
    } else {
      assert (digits + ("." + rest))[1..] == digits[1..] + ("." + rest);
      ScanToPoint(token + [digits[0]], digits[1..], rest);
      assert token + [digits[0]] + digits[1..] == token + digits;
    }
  }

  lemma HexNext(number: nat, digit: nat, p: nat, rest: nat)
    ensures (16 * number + digit) * p + rest == number * (16 * p) + (digit * p + rest)
  {
  }

  lemma {:induction false} ScanHex(token: string, number: nat, h: string, s: string)
    requires AllHex(h) && EndsNumber(s)
    ensures Scan(ReadHex, token, number, h + s) == (Num((number * Power(16, |h|) + HexWorth(h)) as real), s)
    decreases |h|
  {
    if h == "" {
      assert h + s == s;
      assert number * Power(16, 0) == number;
    } else {
      var next := 16 * number + HexValue(h[0]);
      assert (h + s)[1..] == h[1..] + s;
      assert Scan(ReadHex, token, number, h + s) == Scan(ReadHex, token, next, h[1..] + s);
      ScanHex(token, next, h[1..], s);
      HexNext(number, HexValue(h[0]), Power(16, |h| - 1), HexWorth(h[1..]));
    }
  }

  lemma DigitFirst(c: char, rest: string)
    requires IsDigit(c)
    ensures Scan(ReadStart, "", 0, [c] + rest) == Scan(ReadInt, [c], 0, rest)
  {
    assert ([c] + rest)[1..] == rest;
  }

  lemma PointFirst(rest: string)
    ensures Scan(ReadStart, "", 0, "." + rest) == Scan(ReadMantissa, "0.", 0, rest)
  {
    assert ("." + rest)[1..] == rest;
  }

  lemma XNext(c: char, rest: string)
    ensures Scan(ReadInt, [c], 0, "x" + rest) == Scan(ReadHex, [c], 0, rest)
  {
    assert ("x" + rest)[1..] == rest;
  }

  /** A missing number before the point counts as zero. */
  lemma ZeroPoint(f: string)
    requires AllDigits(f)
    ensures NumberOf("0." + f) == Worth(Pointed("", f))
  {
    NumberOfPointed("0", f);
    assert "0" + "." + f == "0." + f;
    assert ReadDigits(0, "0") == ReadDigits(0, "") by {
      assert "0"[1..] == "";
    }
  }

  lemma ScanWhole(d: string, s: string)
    requires d != "" && AllDigits(d) && EndsNumber(s)
    ensures Scan(ReadStart, "", 0, d + s) == (Num(ReadDigits(0, d) as real), s)
  {
    assert d == [d[0]] + d[1..];
    Regroup([d[0]], d[1..], s);
    DigitFirst(d[0], d[1..] + s);
    ScanDigits([d[0]], d[1..], s);
    NumberOfWhole(d);
  }

  lemma ScanPointed(w: string, f: string, s: string)
    requires AllDigits(w) && AllDigits(f) && EndsNumber(s)
    ensures Scan(ReadStart, "", 0, w + ("." + (f + s))) == (Num(Worth(Pointed(w, f))), s)
  {
    if w == "" {
      assert w + ("." + (f + s)) == "." + (f + s);
      PointFirst(f + s);
      ScanMantissa("0.", f, s);
      ZeroPoint(f);
    } else {
      assert w == [w[0]] + w[1..];
      Regroup([w[0]], w[1..], "." + (f + s));
      DigitFirst(w[0], w[1..] + ("." + (f + s)));
      ScanToPoint([w[0]], w[1..], f + s);
      ScanMantissa(w + ".", f, s);
      NumberOfPointed(w, f);
    }
  }

  lemma ScanHexadecimal(l: char, h: string, s: string)
    requires IsDigit(l) && AllHex(h) && EndsNumber(s)
    ensures Scan(ReadStart, "", 0, [l] + ("x" + (h + s))) == (Num(HexWorth(h) as real), s)
  {
    DigitFirst(l, "x" + (h + s));
    XNext(l, h + s);
    ScanHex([l], 0, h, s);
  }

  /** The scanner takes a numeral off a text and finds what it is worth. */
  lemma ScanNumeral(n: Numeral, s: string)
    requires WellFormed(n) && EndsNumber(s)
    ensures Scan(ReadStart, "", 0, Spelling(n) + s) == (Num(Worth(n)), s)
  {
    match n
    case Whole(d) => ScanWhole(d, s);
    case Pointed(w, f) =>
      ScanPointed(w, f, s);
      assert w + "." + f + s == w + ("." + (f + s));
    case Hexadecimal(l, h) =>
      ScanHexadecimal(l, h, s);
      assert [l] + "x" + h + s == [l] + ("x" + (h + s));
  }

  /** Blanks and the ends of arguments come between tokens. */
  lemma BlanksBetween(c: char, s: string)
    requires c == ' ' || c == '\t' || c == '\0'
    ensures Tokens([c] + s) == Tokens(s)
  {
    assert ([c] + s)[1..] == s;
  }

  /** A character that starts no token ends the evaluation. */
  lemma StrangeCharacter(c: char, s: string)
    requires !IsDigit(c) && c !in "+-/*()%^=. \t\0"
    ensures Tokens([c] + s) == [Bad]
  {
  }

  // ---- expressions ----

  /** Every literal of the expression is spelled by a numeral of its value. */
  predicate Spelled(e: Expr, spell: real -> Numeral) {
    match e
    case Lit(x) => WellFormed(spell(x)) && Worth(spell(x)) == x
    case Paren(f) => Spelled(f, spell)
    case Neg(f) => Spelled(f, spell)
    case Bin(_, l, r) => Spelled(l, spell) && Spelled(r, spell)
  }

  /** The text of an expression in a place of level `k`. */
  function Text(e: Expr, k: nat, spell: real -> Numeral): string
    decreases e, if k > Level(e) then 1 else 0
  {
    if k > Level(e) then "(" + Text(e, 0, spell) + ")"
    else
      match e
      case Lit(x) => Spelling(spell(x))
      case Paren(f) => "(" + Text(f, 0, spell) + ")"
      case Neg(f) => "-" + Text(f, 2, spell)
      case Bin(op, l, r) =>
        Text(l, LeftLevel(op), spell) + [SymbolOf(op)] + Text(r, RightLevel(op), spell)
  }

  /** A way of reading text that takes off symbols and numerals. */
  ghost predicate TakesSymbols(lex: string -> seq<Token>) {
    forall c, s :: IsSymbol(c) ==> lex([c] + s) == [Sym(c)] + lex(s)
  }

  ghost predicate TakesNumerals(lex: string -> seq<Token>) {
    forall n, s :: WellFormed(n) && EndsNumber(s) ==> lex(Spelling(n) + s) == [Num(Worth(n))] + lex(s)
  }

  /** A text is read as the given tokens, whatever follows that cannot belong to a number. */
  ghost predicate Reads(lex: string -> seq<Token>, text: string, tokens: seq<Token>) {
    forall s :: EndsNumber(s) ==> lex(text + s) == tokens + lex(s)
  }

  lemma BehindReads(lex: string -> seq<Token>, c: char, text: string, tokens: seq<Token>)
    requires TakesSymbols(lex) && IsSymbol(c) && Reads(lex, text, tokens)
    ensures Reads(lex, [c] + text, [Sym(c)] + tokens)
  {
    forall s | EndsNumber(s) ensures lex([c] + text + s) == [Sym(c)] + tokens + lex(s) {
      Regroup([c], text, s);
      Regroup([Sym(c)], tokens, lex(s));
    }
  }

  lemma JoinReads(lex: string -> seq<Token>, left: string, lefts: seq<Token>, c: char, right: string,
                  rights: seq<Token>)
    requires IsSymbol(c) && Reads(lex, left, lefts) && Reads(lex, [c] + right, rights)
    ensures Reads(lex, left + ([c] + right), lefts + rights)
  {
    forall s | EndsNumber(s) ensures lex(left + ([c] + right) + s) == lefts + rights + lex(s) {
      Regroup(left, [c] + right, s);
      Regroup(lefts, rights, lex(s));
      assert EndsNumber([c] + right + s);
    }
  }

  lemma BetweenReads(lex: string -> seq<Token>, left: string, lefts: seq<Token>, c: char, right: string,
                     rights: seq<Token>)
    requires TakesSymbols(lex) && IsSymbol(c) && Reads(lex, left, lefts) && Reads(lex, right, rights)
    ensures Reads(lex, left + [c] + right, lefts + [Sym(c)] + rights)
  {
    BehindReads(lex, c, right, rights);
    JoinReads(lex, left, lefts, c, right, [Sym(c)] + rights);
    Regroup(left, [c], right);
    Regroup(lefts, [Sym(c)], rights);
  }

  lemma SurroundedReads(lex: string -> seq<Token>, text: string, tokens: seq<Token>)
    requires TakesSymbols(lex) && Reads(lex, text, tokens)
    ensures Reads(lex, "(" + text + ")", [Sym('(')] + tokens + [Sym(')')])
  {
    EmptyReads(lex);
    BetweenReads(lex, text, tokens, ')', "", []);
    assert text + [')'] + "" == text + ")" && tokens + [Sym(')')] + [] == tokens + [Sym(')')];
    BehindReads(lex, '(', text + ")", tokens + [Sym(')')]);
    Regroup("(", text, ")");
    Regroup([Sym('(')], tokens, [Sym(')')]);
  }

  lemma EmptyReads(lex: string -> seq<Token>)
    ensures Reads(lex, "", [])
  {
    forall s | EndsNumber(s) ensures lex("" + s) == [] + lex(s) {
      assert "" + s == s && [] + lex(s) == lex(s);
    }
  }

  /** From the text of an expression its tokens are read. */
  lemma {:induction false} TextReads(lex: string -> seq<Token>, e: Expr, k: nat, spell: real -> Numeral)
    requires TakesSymbols(lex) && TakesNumerals(lex) && Spelled(e, spell)
    ensures Reads(lex, Text(e, k, spell), Printed(e, k))
    decreases e, if k > Level(e) then 1 else 0
  {
    if k > Level(e) {
      TextReads(lex, e, 0, spell);
      SurroundedReads(lex, Text(e, 0, spell), Printed(e, 0));
    } else {
      match e
      case Lit(x) =>
      case Paren(f) =>
        TextReads(lex, f, 0, spell);
        SurroundedReads(lex, Text(f, 0, spell), Printed(f, 0));
      case Neg(f) =>
        TextReads(lex, f, 2, spell);
        BehindReads(lex, '-', Text(f, 2, spell), Printed(f, 2));
      case Bin(op, l, r) =>
        TextReads(lex, l, LeftLevel(op), spell);
        TextReads(lex, r, RightLevel(op), spell);
        BetweenReads(lex, Text(l, LeftLevel(op), spell), Printed(l, LeftLevel(op)), SymbolOf(op),
                     Text(r, RightLevel(op), spell), Printed(r, RightLevel(op)));
    }
  }

  /** The scanner is such a way of reading. */
  lemma ScannerReads()
    ensures TakesSymbols(Tokens) && TakesNumerals(Tokens)
  {
    forall c, s | IsSymbol(c) ensures Tokens([c] + s) == [Sym(c)] + Tokens(s) {
      ScanSymbol(c, s);
    }
    forall n, s | WellFormed(n) && EndsNumber(s) ensures Tokens(Spelling(n) + s) == [Num(Worth(n))] + Tokens(s) {
      ScanNumeral(n, s);
    }
  }

  lemma ScanSymbol(c: char, s: string)
    requires IsSymbol(c)
    ensures Scan(ReadStart, "", 0, [c] + s) == (Sym(c), s)
  {
    assert ([c] + s)[1..] == s;
    assert !IsDigit(c);
  }

  /** Evaluating the text of an expression yields its meaning, however its numbers are
      spelled: operators of equal level group to the left, powers to the right, negation binds
      less tightly than powers, and exactly the expressions with a zero divisor somewhere have
      no value. */
  lemma EvaluatesToMeaning(lib: Library, e: Expr, spell: real -> Numeral)
    requires Spelled(e, spell)
    ensures Evaluate(lib, Text(e, 0, spell) + "\0") == Meaning(lib, e)
  {
    ScannerReads();
    TextReads(Tokens, e, 0, spell);
    EndOfText();
    ParsesPrinted(lib, e, 0, []);
    assert Printed(e, 0) + [] == Printed(e, 0);
  }

  lemma EndOfText()
    ensures Tokens("\0") == [] && EndsNumber("\0")
  {
    assert "\0"[1..] == "";
  }

  // ---- what the operations are ----

  /** The result of an operation, said by what undoes it: a difference and its second operand make
      up the first, and so on. Only a zero divisor leaves no result. */
  ghost predicate Computes(lib: Library, op: Op, v: real, w: real, r: Option) {
    && (r.None? <==> w == 0.0 && (op == Div || op == Mod))
    && (r.Some? ==>
          match op
          case Add => r.value - w == v
          case Sub => r.value + w == v
          case Mul => r.value == v * w
          case Div => r.value * w == v
          case Mod => r.value == lib.fmod(v, w)
          case Pow => r.value == lib.pow(v, w))
  }

  /** The meaning of every expression comes from that of its parts in this way. */
  lemma MeaningComputes(lib: Library, e: Expr)
    ensures match e
            case Lit(x) => Meaning(lib, e) == Some(x)
            case Paren(f) => Meaning(lib, e) == Meaning(lib, f)
            case Neg(f) =>
              (Meaning(lib, e).Some? <==> Meaning(lib, f).Some?)
              && (Meaning(lib, e).Some? ==> Meaning(lib, e).value + Meaning(lib, f).value == 0.0)
            case Bin(op, l, r) =>
              var v, w := Meaning(lib, l), Meaning(lib, r);
              if v.Some? && w.Some? then Computes(lib, op, v.value, w.value, Meaning(lib, e))
              else Meaning(lib, e).None?
  {
    if e.Bin? && e.op == Div && Meaning(lib, e).Some? {
      var v, w := Meaning(lib, e.left).value, Meaning(lib, e.right).value;
      assert v / w * w == v;
    }
  }

  // ---- arithmetic as it is typed ----

  /** Natural numbers spelled in decimal. */
  function InDecimal(x: real): Numeral {
    Whole(Digits(if x >= 0.0 then x.Floor else 0))
  }

  lemma NaturalSpelled(n: nat)
    ensures Spelled(Lit(n as real), InDecimal) && Text(Lit(n as real), 4, InDecimal) == Digits(n)
  {
    DecimalNumeral(n);
    assert (n as real).Floor == n;
  }

  /** Two natural numbers with an operator between them. */
  lemma TypedOperation(lib: Library, op: Op, m: nat, n: nat)
    ensures
      Evaluate(lib, Digits(m) + [SymbolOf(op)] + Digits(n) + "\0")
      == Meaning(lib, Bin(op, Lit(m as real), Lit(n as real)))
  {
    var l, r := Lit(m as real), Lit(n as real);
    NaturalSpelled(m);
    NaturalSpelled(n);
    SameText(l, LeftLevel(op), InDecimal);
    SameText(r, RightLevel(op), InDecimal);
    EvaluatesToMeaning(lib, Bin(op, l, r), InDecimal);
  }

  /** Numbers and parentheses look alike everywhere. */
  lemma SameText(e: Expr, k: nat, spell: real -> Numeral)
    requires Level(e) == 4 && k <= 4
    ensures Text(e, k, spell) == Text(e, 4, spell)
  {
  }

  lemma UsualSymbols()
    ensures SymbolOf(Add) == '+' && SymbolOf(Sub) == '-' && SymbolOf(Mul) == '*'
    ensures SymbolOf(Div) == '/' && SymbolOf(Mod) == '%' && SymbolOf(Pow) == '^'
  {
  }

  // For instance, in the usual symbols.

  lemma TypedSum(lib: Library, m: nat, n: nat)
    ensures Evaluate(lib, Digits(m) + "+" + Digits(n) + "\0") == Some((m + n) as real)
  {
    TypedOperation(lib, Add, m, n);
  }

  lemma TypedDifference(lib: Library, m: nat, n: nat)
    ensures Evaluate(lib, Digits(m) + "-" + Digits(n) + "\0") == Some((m - n) as real)
  {
    TypedOperation(lib, Sub, m, n);
  }

  lemma TypedQuotient(lib: Library, m: nat, n: nat)
    ensures Evaluate(lib, Digits(m) + "/" + Digits(n) + "\0")
         == if n == 0 then None else Some(m as real / n as real)
  {
    TypedOperation(lib, Div, m, n);
  }

  // What groups without parentheses, in the usual symbols: differences to the left, products before
  // sums, powers to the right and before a minus sign.

  lemma DifferencesText(a: Expr, b: Expr, c: Expr, spell: real -> Numeral)
    requires Level(a) == 4 && Level(b) == 4 && Level(c) == 4
    ensures Text(Bin(Sub, Bin(Sub, a, b), c), 0, spell)
         == Text(a, 4, spell) + "-" + Text(b, 4, spell) + "-" + Text(c, 4, spell)
  {
    SameText(a, 0, spell);
    SameText(b, 1, spell);
    SameText(c, 1, spell);
  }

  lemma ProductFirstText(a: Expr, b: Expr, c: Expr, spell: real -> Numeral)
    requires Level(a) == 4 && Level(b) == 4 && Level(c) == 4
    ensures Text(Bin(Add, a, Bin(Mul, b, c)), 0, spell)
         == Text(a, 4, spell) + "+" + (Text(b, 4, spell) + "*" + Text(c, 4, spell))
  {
    SameText(a, 0, spell);
    SameText(b, 1, spell);
    SameText(c, 2, spell);
  }

  lemma PowersText(a: Expr, b: Expr, c: Expr, spell: real -> Numeral)
    requires Level(a) == 4 && Level(b) == 4 && Level(c) == 4
    ensures Text(Neg(Bin(Pow, a, Bin(Pow, b, c))), 0, spell)
         == "-" + (Text(a, 4, spell) + "^" + (Text(b, 4, spell) + "^" + Text(c, 4, spell)))
  {
    var inner := Bin(Pow, b, c);
    var outer := Bin(Pow, a, inner);
    SameText(c, 3, spell);
    assert Text(inner, 3, spell) == Text(b, 4, spell) + ['^'] + Text(c, 3, spell);
    assert Text(outer, 2, spell) == Text(a, 4, spell) + ['^'] + Text(inner, 3, spell);
    assert Text(Neg(outer), 0, spell) == "-" + Text(outer, 2, spell);
  }

  // ---- numerals by their digits ----

  lemma DigitsInOrder(n: nat)
    ensures n < 10 ==> DigitValue("0123456789"[n]) == n
    ensures n < 16 ==> HexValue("0123456789abcdef"[n]) == n && HexValue("0123456789ABCDEF"[n]) == n
  {
  }

  /** A number is `whole` divided by ten for each of so many places. */
  ghost predicate Shifted(value: real, places: nat, whole: nat) {
    value * Power(10, places) as real == whole as real
  }

  /** Digits around a point are worth what they are without it, shifted by the digits behind it. */
  lemma PointShifts(w: string, f: string)
    requires AllDigits(w) && AllDigits(f)
    ensures Shifted(Worth(Pointed(w, f)), |f|, ReadDigits(0, w + f))
  {
    ReadDigitsJoined(0, w, f);
    FractionRead(ReadDigits(0, w), f);
    WorthPointed(w, f);
  }

  lemma WorthPointed(w: string, f: string)
    requires AllDigits(w) && AllDigits(f)
    ensures Worth(Pointed(w, f)) == ReadDigits(0, w) as real + FractionWorth(f)
  {
  }

  lemma {:induction false} ReadDigitsJoined(read: nat, w: string, f: string)
    requires AllDigits(w)
    ensures ReadDigits(read, w + f) == ReadDigits(ReadDigits(read, w), f)
    decreases |w|
  {
    if w == "" {
      assert w + f == f;
    } else {
      assert (w + f)[1..] == w[1..] + f;
      ReadDigitsJoined(10 * read + DigitValue(w[0]), w[1..], f);
    }
  }

  lemma {:induction false} FractionRead(read: nat, f: string)
    requires AllDigits(f)
    ensures Shifted(read as real + FractionWorth(f), |f|, ReadDigits(read, f))
    decreases |f|
  {
    if f != "" {
      FractionRead(10 * read + DigitValue(f[0]), f[1..]);
      MoveDigit(read as real, DigitValue(f[0]) as real, FractionWorth(f[1..]), Power(10, |f| - 1) as real);
    }
  }

  lemma MoveDigit(read: real, digit: real, rest: real, p: real)
    ensures (read + (digit + rest) / 10.0) * (10.0 * p) == (10.0 * read + digit + rest) * p
  {
    assert (read + (digit + rest) / 10.0) * (10.0 * p) == ((read + (digit + rest) / 10.0) * 10.0) * p;
  }

  /** A natural number in hexadecimal digits. */
  function HexDigits(n: nat): (s: string)
    ensures s != "" && AllHex(s)
  {
    var last := ["0123456789abcdef"[n % 16]];
    if n < 16 then last else HexDigits(n / 16) + last
  }

  lemma {:induction false} HexWorthLast(h: string, c: char)
    requires AllHex(h) && (IsDigit(c) || IsHexLetter(c))
    ensures AllHex(h + [c]) && HexWorth(h + [c]) == 16 * HexWorth(h) + HexValue(c)
  {
    if h == "" {
      assert h + [c] == [c] && [c][1..] == "";
    } else {
      assert (h + [c])[1..] == h[1..] + [c] && (h + [c])[0] == h[0];
      HexWorthLast(h[1..], c);
      MovePlace(HexValue(h[0]), Power(16, |h| - 1));
    }
  }

  lemma MovePlace(digit: nat, p: nat)
    ensures digit * (16 * p) == 16 * (digit * p)
  {
  }

  lemma {:induction false} HexNumeral(n: nat)
    ensures HexWorth(HexDigits(n)) == n
  {
    DigitsInOrder(n % 16);
    var last := "0123456789abcdef"[n % 16];
    if n < 16 {
      HexWorthLast("", last);
      assert "" + [last] == [last];
    } else {
      HexNumeral(n / 16);
      HexWorthLast(HexDigits(n / 16), last);
    }
  }

  /** Every natural number is read back from its hexadecimal text. */
  lemma TypedHexadecimal(lib: Library, n: nat)
    ensures Evaluate(lib, "0x" + HexDigits(n) + "\0") == Some(n as real)
  {
    var numeral := Hexadecimal('0', HexDigits(n));
    var e := Lit(n as real);
    HexNumeral(n);
    assert Spelling(numeral) == "0x" + HexDigits(n);
    EvaluatesToMeaning(lib, e, _ => numeral);
    assert Text(e, 0, _ => numeral) == Spelling(numeral);
  }
}
