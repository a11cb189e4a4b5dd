/**
 * What the writers of common/sexpr.py promise about the reader: build_sexp writes a
 * list that parse_sexp reads back unchanged, and SexprItem writes a keyed item that
 * parse_sexp reads back as the list `[key, value]`, for the values the tokenizer can
 * tell apart (see PlainSymbol).
 */
module SexprRoundTrip {
  import opened Wrappers
  import opened Text
  import opened Sexpr

  /** `-?\d+` matches all of s. */
  predicate IsIntLit(s: string) {
    var k := if s != [] && s[0] == '-' then 1 else 0;
    |s| > k && AllDigits(s[k..])
  }

  /** `[+-]?\d+\.\d+` matches all of s. */
  predicate IsDecLit(s: string) {
    var k := if s != [] && (s[0] == '+' || s[0] == '-') then 1 else 0;
    var d := DigitRun(s[k..]);
    d > 0 && k + d < |s| - 1 && s[k + d] == '.' && AllDigits(s[k + d + 1..])
  }

  /**
   * A string written as it is that the tokenizer reads back as one bare symbol: no
   * whitespace, paren or `^`, no leading `"`, and not a numeral.
   */
  predicate PlainSymbol(s: string) {
    s != [] && SymbolChars(s) && s[0] != '"' && !IsIntLit(s) && !IsDecLit(s)
  }

  lemma RunAt(s: string, t: string, k: int)
    requires 0 <= k <= |s| && (t == [] || !IsDigit(t[0]))
    ensures DigitRun((s + t)[k..]) == DigitRun(s[k..])
  {
    assert (s + t)[k..] == s[k..] + t;
    DigitRunConcat(s[k..], t);
  }

  /** A decimal match running past the end of a symbol's text ends exactly there: the symbol is a decimal numeral. */
  lemma DecimalPrefix(s: string, t: string)
    requires s != [] && SymbolChars(s) && t != [] && !IsDigit(t[0]) && t[0] != '.'
    requires DecimalLen(s + t) > 0
    ensures IsDecLit(s)
  {
    var fs := if s[0] == '+' || s[0] == '-' then 1 else 0;
    var d1 := DigitRun(s[fs..]);
    DecimalDot(s, t, fs, d1);
    DelimitedPast(s, t, DecimalLen(s + t));
    RunToEnd(s[fs + d1 + 1..]);
    IsDecLitFrom(s, fs, d1);
  }

  lemma RunToEnd(u: string)
    requires DigitRun(u) == |u|
    ensures AllDigits(u)
  {
    DigitRunDigits(u);
    assert u[..DigitRun(u)] == u;
  }

  lemma IsDecLitFrom(s: string, fs: nat, d1: nat)
    requires fs == (if s != [] && (s[0] == '+' || s[0] == '-') then 1 else 0)
    requires fs <= |s| && d1 == DigitRun(s[fs..]) > 0
    requires fs + d1 < |s| - 1 && s[fs + d1] == '.' && AllDigits(s[fs + d1 + 1..])
    ensures IsDecLit(s)
  {
  }

  /** Where the decimal point of a match running past the end of s lies. */
  lemma DecimalDot(s: string, t: string, fs: nat, d1: nat)
    requires s != [] && t != [] && !IsDigit(t[0]) && t[0] != '.'
    requires DecimalLen(s + t) > 0
    requires fs == (if s[0] == '+' || s[0] == '-' then 1 else 0) && d1 == DigitRun(s[fs..])
    ensures d1 > 0 && fs + d1 < |s| && s[fs + d1] == '.'
    ensures DigitRun(s[fs + d1 + 1..]) > 0
    ensures DecimalLen(s + t) == fs + d1 + 1 + DigitRun(s[fs + d1 + 1..])
    ensures Delimited(s + t, DecimalLen(s + t))
  {
    var x := s + t;
    FirstOf(s, t);
    DecimalLenAt(x, fs);
    DotInside(s, t, fs);
    assert DigitRun(x[fs..]) == d1;
    RunAt(s, t, fs + d1 + 1);
    assert DigitRun(x[fs + d1 + 1..]) == DigitRun(s[fs + d1 + 1..]);
  }

  lemma FirstOf(s: string, t: string)
    requires s != []
    ensures (s + t)[0] == s[0]
  {
  }

  /** DecimalLenParts with the sign length given. */
  lemma DecimalLenAt(x: string, fs: nat)
    requires DecimalLen(x) > 0 && fs == (if x[0] == '+' || x[0] == '-' then 1 else 0)
    ensures fs + DigitRun(x[fs..]) < |x| && x[fs + DigitRun(x[fs..])] == '.'
    ensures DigitRun(x[fs + DigitRun(x[fs..]) + 1..]) > 0
    ensures DecimalLen(x) == fs + DigitRun(x[fs..]) + 1 + DigitRun(x[fs + DigitRun(x[fs..]) + 1..])
    ensures Delimited(x, DecimalLen(x))
  {
    DecimalLenParts(x);
  }

  lemma DotInside(s: string, t: string, fs: nat)
    requires s != [] && t != [] && t[0] != '.'
    requires fs == (if s[0] == '+' || s[0] == '-' then 1 else 0)
    requires fs + DigitRun((s + t)[fs..]) < |s + t| && (s + t)[fs + DigitRun((s + t)[fs..])] == '.'
    requires !IsDigit(t[0])
    ensures fs <= |s| && DigitRun((s + t)[fs..]) == DigitRun(s[fs..])
    ensures fs + DigitRun(s[fs..]) < |s| && s[fs + DigitRun(s[fs..])] == '.'
  {
    RunAt(s, t, fs);
    var dot := fs + DigitRun(s[fs..]);
    assert (s + t)[|s|] == t[0];
    assert (s + t)[dot] == s[dot];
  }

  lemma SameBefore(s: string, t: string)
    ensures forall k :: 0 <= k < |s| ==> (s + t)[k] == s[k]
  {
  }

  /** A delimiter of s + t at or before the end of a symbol's text s is at its end. */
  lemma DelimitedPast(s: string, t: string, e: int)
    requires SymbolChars(s) && e <= |s| && Delimited(s + t, e)
    ensures e == |s|
  {
    SameBefore(s, t);
  }

  /** The same for an integer match. */
  lemma IntegerPrefix(s: string, t: string)
    requires s != [] && SymbolChars(s) && t != [] && !IsDigit(t[0])
    requires IntegerLen(s + t) > 0
    ensures IsIntLit(s)
  {
    var x := s + t;
    IntegerLenParts(x);
    var si := if s[0] == '-' then 1 else 0;
    assert si == (if x[0] == '-' then 1 else 0);
    RunAt(s, t, si);
    var d := DigitRun(s[si..]);
    assert si + d == |s| by {
      assert forall k :: 0 <= k < |s| ==> x[k] == s[k];
    }
    DigitRunDigits(s[si..]);
    assert s[si..][..d] == s[si..];
  }

  /** A plain symbol followed by a space or `)` is not taken for a number. */
  lemma PlainNoNumber(s: string, c: char, rest: string)
    requires PlainSymbol(s) && (c == ' ' || c == ')')
    ensures NumberLen(s + [c] + rest) == 0
  {
    var t := [c] + rest;
    assert s + [c] + rest == s + t;
    if DecimalLen(s + t) > 0 {
      DecimalPrefix(s, t);
    }
    if IntegerLen(s + t) > 0 {
      IntegerPrefix(s, t);
    }
  }

  /** A plain symbol followed by a space or `)` is read as that symbol. */
  lemma PlainToken(s: string, c: char, rest: string)
    requires PlainSymbol(s) && (c == ' ' || c == ')')
    ensures Tokenize(s + [c] + rest) == [Bare(s)] + Tokenize([c] + rest)
  {
    var x := s + [c] + rest;
    PlainNoNumber(s, c, rest);
    assert x[0] == s[0] && SymbolChar(s[0]);
    SymbolRun(s, c, rest);
    TokenizeBare(x);
    assert x[..|s|] == s && x[|s|..] == [c] + rest;
  }

  /** `str(i)` as a sign and a run of digits. */
  lemma IntToStringShape(i: int)
    ensures var m := if i < 0 then -i else i;
      && IntToString(i) == (if i < 0 then "-" else "") + NatToString(m)
      && NatToString(m) != [] && AllDigits(NatToString(m)) && DigitsValue(NatToString(m)) == m
  {
    NatToStringDigits(if i < 0 then -i else i);
  }

  /** A numeral w whose match is all of w is read as one number. */
  lemma NumberThen(w: string, tail: string)
    requires w != [] && (w[0] == '-' || IsDigit(w[0])) && NumberLen(w + tail) == |w|
    ensures Tokenize(w + tail) == [Number(w)] + Tokenize(tail)
  {
    var x := w + tail;
    assert x[0] == w[0];
    TokenizeNumber(x);
    assert x[..|w|] == w && x[|w|..] == tail;
  }

  /** An optional `-`, then digits, then text that does not start with a digit. */
  lemma SignedDigits(sign: string, d: string, more: string)
    requires sign == "" || sign == "-"
    requires d != [] && AllDigits(d)
    requires more != [] && !IsDigit(more[0])
    ensures var x := sign + d + more;
      && |sign| == (if x != [] && (x[0] == '+' || x[0] == '-') then 1 else 0)
      && |sign| == (if x != [] && x[0] == '-' then 1 else 0)
      && (x[0] == '-' || IsDigit(x[0]))
      && DigitRun(x[|sign|..]) == |d|
      && x[|sign| + |d|..] == more
  {
    var x := sign + d + more;
    assert x[0] == (sign + d)[0];
    assert x[|sign|..] == d + more;
    DigitRunConcat(d, more);
    DigitRunAll(d);
    assert x[|sign| + |d|..] == more;
  }

  lemma Assoc4(a: string, b: string, c: string, d: string)
    ensures a + b + c + d == a + b + (c + d)
  {
  }

  lemma Assoc3(a: string, b: string, c: string)
    ensures a + b + c == a + (b + c)
  {
  }

  /** A sign and digits with the tail `.00`, followed by a space or `)`, is read as one number. */
  lemma FixedTokenShape(sign: string, d: string, c: char, rest: string)
    requires sign == "" || sign == "-"
    requires d != [] && AllDigits(d)
    requires c == ' ' || c == ')'
    ensures Tokenize(sign + d + ".00" + [c] + rest) == [Number(sign + d + ".00")] + Tokenize([c] + rest)
  {
    var w := sign + d + ".00";
    FixedLen(sign, d, [c] + rest);
    SignedDigits(sign, d, ".00" + ([c] + rest));
    Assoc3(sign + d, ".00", [c] + rest);
    assert w[0] == (sign + d + (".00" + ([c] + rest)))[0];
    NumberThen(w, [c] + rest);
    Assoc3(w, [c], rest);
  }

  lemma FixedLen(sign: string, d: string, tail: string)
    requires sign == "" || sign == "-"
    requires d != [] && AllDigits(d)
    requires tail != [] && (tail[0] == ' ' || tail[0] == ')')
    ensures NumberLen(sign + d + ".00" + tail) == |sign| + |d| + 3
  {
    var more := ".00" + tail;
    var x := sign + d + more;
    SignedDigits(sign, d, more);
    FractionAt(x, |sign| + |d|, tail);
    DecimalLenIs(x, |sign|, |d|, 2);
    DecimalFirst(x);
    Assoc3(sign + d, ".00", tail);
  }

  lemma DecimalFirst(x: string)
    requires DecimalLen(x) > 0
    ensures NumberLen(x) == DecimalLen(x)
  {
  }

  /** `.00` and a delimiter at index dot of x. */
  lemma FractionAt(x: string, dot: nat, tail: string)
    requires dot <= |x| && x[dot..] == ".00" + tail
    requires tail != [] && (tail[0] == ' ' || tail[0] == ')')
    ensures dot < |x| && x[dot] == '.' && DigitRun(x[dot + 1..]) == 2 && Delimited(x, dot + 3)
  {
    var more := x[dot..];
    assert x[dot] == more[0];
    assert x[dot + 1..] == more[1..] == "00" + tail;
    TwoZeros(tail);
    assert x[dot + 3] == more[3] == tail[0];
  }

  lemma TwoZeros(tail: string)
    requires tail != [] && !IsDigit(tail[0])
    ensures DigitRun("00" + tail) == 2
  {
    DigitRunConcat("00", tail);
    DigitRunAll("00");
  }

  /** `%.2f` of an int followed by a space or `)` is read as one number. */
  lemma FixedToken(i: int, c: char, rest: string)
    requires c == ' ' || c == ')'
    ensures Tokenize(IntToString(i) + ".00" + [c] + rest) == [Number(IntToString(i) + ".00")] + Tokenize([c] + rest)
  {
    IntToStringShape(i);
    FixedTokenShape(if i < 0 then "-" else "", NatToString(if i < 0 then -i else i), c, rest);
  }

  /** A sign and digits followed by a space or `)` is read as one number. */
  lemma IntTokenShape(sign: string, d: string, c: char, rest: string)
    requires sign == "" || sign == "-"
    requires d != [] && AllDigits(d)
    requires c == ' ' || c == ')'
    ensures Tokenize(sign + d + [c] + rest) == [Number(sign + d)] + Tokenize([c] + rest)
  {
    IntLen(sign, d, [c] + rest);
    SignedDigits(sign, d, [c] + rest);
    assert (sign + d)[0] == (sign + d + ([c] + rest))[0];
    NumberThen(sign + d, [c] + rest);
    Assoc3(sign + d, [c], rest);
  }

  lemma IntLen(sign: string, d: string, tail: string)
    requires sign == "" || sign == "-"
    requires d != [] && AllDigits(d)
    requires tail != [] && (tail[0] == ' ' || tail[0] == ')')
    ensures NumberLen(sign + d + tail) == |sign| + |d|
  {
    var x := sign + d + tail;
    SignedDigits(sign, d, tail);
    assert x[|sign| + |d|] == tail[0];
  }

  /** `str(i)` followed by a space or `)` is read as one number. */
  lemma IntToken(i: int, c: char, rest: string)
    requires c == ' ' || c == ')'
    ensures Tokenize(IntToString(i) + [c] + rest) == [Number(IntToString(i))] + Tokenize([c] + rest)
  {
    IntToStringShape(i);
    IntTokenShape(if i < 0 then "-" else "", NatToString(if i < 0 then -i else i), c, rest);
  }

  lemma NumberValueShape(sign: string, d: string, tail: string, i: int)
    requires sign == "" || sign == "-"
    requires d != [] && AllDigits(d)
    requires tail == "" || tail == ".00"
    requires i == if sign == "-" then 0 - DigitsValue(d) else DigitsValue(d)
    ensures NumberValue(sign + d + tail) == Some(i)
  {
    if tail == "" {
      WholeOnly(sign, d);
      NumberValueIs(sign + d, |sign|, d, i);
      assert sign + d + tail == sign + d;
    } else {
      WholeAndZeros(sign, d);
      NumberValueIs(sign + d + ".00", |sign|, d, i);
    }
  }

  lemma WholeOnly(sign: string, d: string)
    requires sign == "" || sign == "-"
    requires d != [] && AllDigits(d)
    ensures var text := sign + d;
      && |sign| == (if text != [] && (text[0] == '+' || text[0] == '-') then 1 else 0)
      && (|sign| == 1 && text[0] == '-' <==> sign == "-")
      && DigitRun(text[|sign|..]) == |d| && text[|sign|..][..|d|] == d
      && |sign| + |d| == |text|
  {
    var text := sign + d;
    assert text[|sign|..] == d;
    DigitRunAll(d);
  }

  lemma WholeAndZeros(sign: string, d: string)
    requires sign == "" || sign == "-"
    requires d != [] && AllDigits(d)
    ensures var text := sign + d + ".00";
      && |sign| == (if text != [] && (text[0] == '+' || text[0] == '-') then 1 else 0)
      && (|sign| == 1 && text[0] == '-' <==> sign == "-")
      && DigitRun(text[|sign|..]) == |d| && text[|sign|..][..|d|] == d
      && |sign| + |d| < |text| && AllZeros(text[|sign| + |d| + 1..])
  {
    var text := sign + d + ".00";
    SignedDigits(sign, d, ".00");
    assert text[|sign|..][..|d|] == d;
    assert text[|sign| + |d| + 1..] == "00";
  }

  /** NumberValue from the parts of its text: the sign, the whole digits, the fraction. */
  lemma NumberValueIs(text: string, k: nat, d: string, i: int)
    requires k == (if text != [] && (text[0] == '+' || text[0] == '-') then 1 else 0)
    requires AllDigits(d) && k <= |text| && DigitRun(text[k..]) == |d| && text[k..][..|d|] == d
    requires k + |d| < |text| ==> AllZeros(text[k + |d| + 1..])
    requires i == if k == 1 && text[0] == '-' then 0 - DigitsValue(d) else DigitsValue(d)
    ensures NumberValue(text) == Some(i)
  {
  }

  /** The number tokens the writers produce read back as the int written. */
  lemma NumberValueOfInt(i: int, tail: string)
    requires tail == "" || tail == ".00"
    ensures NumberValue(IntToString(i) + tail) == Some(i)
  {
    IntToStringShape(i);
    NumberValueShape(if i < 0 then "-" else "", NatToString(if i < 0 then -i else i), tail, i);
  }

  /** A value build_sexp writes so that the reader gets it back. */
  predicate Buildable(v: PyVal)
    decreases v
  {
    match v
    case PInt(_) => true
    case PStr(s) => s == "" || PlainSymbol(s) || (HasSpaceOrParen(s) && PlainChars(s))
    case PList(xs) => forall k :: 0 <= k < |xs| ==> Buildable(xs[k])
    case _ => false
  }

  /** The tokens build_sexp's text for v is read as. */
  function TokensOf(v: PyVal): seq<Token>
    decreases v
  {
    match v
    case PList(xs) => [Open] + TokensOfAll(xs) + [Close]
    case PInt(i) => [Number(IntToString(i) + ".00")]
    case PStr(s) => if s == "" || HasSpaceOrParen(s) then [Quoted(s)] else [Bare(s)]
    case _ => []
  }

  function TokensOfAll(xs: seq<PyVal>): seq<Token>
    decreases xs
  {
    if xs == [] then [] else TokensOf(xs[0]) + TokensOfAll(xs[1..])
  }

  /** The texts build_sexp writes for the items of a list. */
  function BuildEach(xs: seq<PyVal>): seq<string> {
    seq(|xs|, k requires 0 <= k < |xs| => BuildSexp(xs[k], None))
  }

  // Facts about the written text, each proved apart from the tokenizer.

  lemma BuiltInt(i: int)
    ensures BuildSexp(PInt(i), None) == IntToString(i) + ".00"
  {
  }

  lemma BuiltQuoted(s: string)
    requires s == "" || (HasSpaceOrParen(s) && PlainChars(s))
    ensures BuildSexp(PStr(s), None) == "\"" + s + "\""
  {
    if s != "" {
      ReprPlain(s);
    }
  }

  lemma BuiltPlain(s: string)
    requires s != "" && !HasSpaceOrParen(s)
    ensures BuildSexp(PStr(s), None) == s
  {
  }

  lemma BuiltList(xs: seq<PyVal>)
    ensures BuildSexp(PList(xs), None) == "(" + Join(BuildEach(xs), " ") + ")"
  {
  }

  lemma Regroup(a: string, b: string, c: string, d: string)
    ensures a + b + c + d == a + b + c + (d + [])
    ensures a + b + c + d == a + (b + (c + d))
    ensures a + b + c + d == a + b + (c + d)
  {
  }

  lemma Regroup3<T>(a: seq<T>, b: seq<T>, c: seq<T>)
    ensures a + b + c == a + (b + c)
  {
  }

  /** A `"…"` followed by a space or `)` is read as its contents. */
  lemma QuotedThen(b: string, c: char, rest: string)
    requires '"' !in b
    ensures Tokenize("\"" + b + "\"" + [c] + rest) == [Quoted(b)] + Tokenize([c] + rest)
  {
    Regroup("\"" + b, "\"", [c], rest);
    Regroup3("\"" + b, "\"", [c] + rest);
    QuotedToken(b, [c] + rest);
  }

  lemma OpenAhead(x: string)
    ensures Tokenize("(" + x) == [Open] + Tokenize(x)
  {
    ParenChar('(', x);
  }

  lemma CloseAhead(x: string)
    ensures Tokenize(")" + x) == [Close] + Tokenize(x)
  {
    ParenChar(')', x);
  }

  lemma OpenGroup(j: string, tail: string)
    ensures "(" + j + ")" + tail == "(" + (j + ")" + tail)
  {
  }

  /** Parentheses around items that read as ts make a list. */
  lemma ParenWrap(j: string, tail: string, ts: seq<Token>)
    requires Tokenize(j + ")" + tail) == ts + Tokenize(")" + tail)
    ensures Tokenize("(" + j + ")" + tail) == [Open] + ts + [Close] + Tokenize(tail)
  {
    OpenGroup(j, tail);
    OpenAhead(j + ")" + tail);
    CloseAhead(tail);
    Regroup3([Open], ts, [Close] + Tokenize(tail));
    Regroup3([Open] + ts, [Close], Tokenize(tail));
  }

  lemma {:induction false} BuiltTokens(v: PyVal, c: char, rest: string)
    requires Buildable(v) && (c == ' ' || c == ')')
    ensures Tokenize(BuildSexp(v, None) + [c] + rest) == TokensOf(v) + Tokenize([c] + rest)
    decreases v
  {
    match v
    case PInt(i) =>
      BuiltInt(i);
      FixedToken(i, c, rest);
    case PStr(s) =>
      if s == "" || HasSpaceOrParen(s) {
        assert s != "" ==> !PlainSymbol(s);
        BuiltQuoted(s);
        assert '"' !in s;
        QuotedThen(s, c, rest);
      } else {
        BuiltPlain(s);
        PlainToken(s, c, rest);
      }
    case PList(xs) =>
      BuiltList(xs);
      var j := Join(BuildEach(xs), " ");
      BuiltItems(xs, [c] + rest);
      ParenWrap(j, [c] + rest, TokensOfAll(xs));
      Regroup("(", j, ")", [c] + rest);
      Regroup3("(" + j + ")", [c], rest);
  }

  lemma {:induction false} BuiltItems(xs: seq<PyVal>, rest: string)
    requires forall k :: 0 <= k < |xs| ==> Buildable(xs[k])
    ensures Tokenize(Join(BuildEach(xs), " ") + ")" + rest) == TokensOfAll(xs) + Tokenize(")" + rest)
    decreases xs
  {
    if |xs| == 0 {
      assert Join(BuildEach(xs), " ") == "";
      EmptyItems(rest);
    } else if |xs| == 1 {
      BuiltTokens(xs[0], ')', rest);
      SingleItem(xs, rest);
    } else {
      var tail := Join(BuildEach(xs[1..]), " ");
      BuildEachCons(xs);
      assert Buildable(xs[0]);
      BuiltTokens(xs[0], ' ', tail + ")" + rest);
      BuiltItems(xs[1..], rest);
      ConsItem(BuildSexp(xs[0], None), tail, rest, TokensOf(xs[0]), TokensOfAll(xs[1..]));
    }
  }

  /** The written items of a list of two or more: the first, a space, then the others. */
  lemma BuildEachCons(xs: seq<PyVal>)
    requires |xs| >= 2
    ensures Join(BuildEach(xs), " ") == BuildSexp(xs[0], None) + " " + Join(BuildEach(xs[1..]), " ")
    ensures forall k :: 0 <= k < |xs[1..]| ==> xs[1..][k] == xs[k + 1]
  {
    var parts := BuildEach(xs);
    assert parts[1..] == BuildEach(xs[1..]);
  }

  lemma EmptyItems(rest: string)
    ensures Tokenize("" + ")" + rest) == [] + Tokenize(")" + rest)
  {
    assert "" + ")" + rest == ")" + rest;
    assert [] + Tokenize(")" + rest) == Tokenize(")" + rest);
  }

  lemma SingleItem(xs: seq<PyVal>, rest: string)
    requires |xs| == 1
    requires Tokenize(BuildSexp(xs[0], None) + [')'] + rest) == TokensOf(xs[0]) + Tokenize([')'] + rest)
    ensures Tokenize(Join(BuildEach(xs), " ") + ")" + rest) == TokensOfAll(xs) + Tokenize(")" + rest)
  {
    assert BuildEach(xs) == [BuildSexp(xs[0], None)];
    assert TokensOfAll(xs) == TokensOf(xs[0]) + TokensOfAll(xs[1..]);
    assert xs[1..] == [];
    EmptyTail(TokensOf(xs[0]));
  }

  lemma SpaceJoin(a: string, tail: string, rest: string)
    ensures a + " " + tail + ")" + rest == a + [' '] + (tail + ")" + rest)
  {
  }

  lemma ConsItem(a: string, tail: string, rest: string, t0: seq<Token>, ts: seq<Token>)
    requires Tokenize(a + [' '] + (tail + ")" + rest)) == t0 + Tokenize([' '] + (tail + ")" + rest))
    requires Tokenize(tail + ")" + rest) == ts + Tokenize(")" + rest)
    ensures Tokenize(a + " " + tail + ")" + rest) == t0 + ts + Tokenize(")" + rest)
  {
    SpaceJoin(a, tail, rest);
    SkipChar(' ', tail + ")" + rest);
    Regroup3(t0, ts, Tokenize(")" + rest));
  }

  lemma {:induction false} ReadsBack(v: PyVal)
    requires Buildable(v)
    ensures ReadItems(TokensOf(v)) == Success(Items([v], []))
    decreases v
  {
    match v
    case PInt(i) =>
      NumberValueOfInt(i, ".00");
      assert TokensOf(v)[1..] == [];
      assert [v] + [] == [v];
    case PStr(s) =>
      assert TokensOf(v)[1..] == [];
      assert [v] + [] == [v];
    case PList(xs) =>
      ReadsBackAll(xs);
      ClosedList(TokensOfAll(xs), xs);
  }

  lemma {:induction false} ReadsBackAll(xs: seq<PyVal>)
    requires forall k :: 0 <= k < |xs| ==> Buildable(xs[k])
    ensures ReadItems(TokensOfAll(xs)) == Success(Items(xs, []))
    decreases xs
  {
    if xs != [] {
      ReadsBack(xs[0]);
      ReadsBackAll(xs[1..]);
      ReadItemsAppend(TokensOf(xs[0]), TokensOfAll(xs[1..]));
      assert [xs[0]] + xs[1..] == xs;
    }
  }

  /**
   * build_sexp then parse_sexp gives back the list written, for lists of ints and of
   * strings that are empty, plain symbols, or printable text with a space or paren.
   */
  lemma BuildThenRead(xs: seq<PyVal>)
    requires Buildable(PList(xs))
    ensures Read(Tokenize(BuildSexp(PList(xs), None))) == Success(PList(xs))
  {
    ListTokens(xs);
    ReadsBack(PList(xs));
  }

  /** The text build_sexp writes for a list is read as that list's tokens. */
  lemma ListTokens(xs: seq<PyVal>)
    requires Buildable(PList(xs))
    ensures Tokenize(BuildSexp(PList(xs), None)) == TokensOf(PList(xs))
  {
    BuiltList(xs);
    var j := Join(BuildEach(xs), " ");
    BuiltItems(xs, "");
    ParenWrap(j, "", TokensOfAll(xs));
    EmptyTail("(" + j + ")");
    TokenizeEmpty();
    EmptyTail([Open] + TokensOfAll(xs) + [Close]);
  }

  lemma TokenizeEmpty()
    ensures Tokenize("") == []
  {
  }

  lemma EmptyTail<T>(s: seq<T>)
    ensures s + [] == s
  {
  }

  /** A value SexprItem writes so that the reader gets it back. */
  predicate ItemLeaf(v: PyVal) {
    || v.PInt?
    || (v.PStr? && (v.s == "" || (PlainSymbol(v.s) && '"' !in v.s) || (HasSpaceOrParen(v.s) && PlainChars(v.s))))
  }

  /** The token SexprItem's text for a leaf is read as. */
  function ItemToken(v: PyVal): Token
    requires ItemLeaf(v)
  {
    if v.PInt? then Number(IntToString(v.i))
    else if v.s == "" || HasSpaceOrParen(v.s) then Quoted(v.s)
    else Bare(v.s)
  }

  lemma ItemInt(i: int)
    ensures SexprItem(PInt(i), "") == IntToString(i)
  {
  }

  lemma ItemQuoted(s: string)
    requires s == "" || (HasSpaceOrParen(s) && PlainChars(s))
    ensures SexprItem(PStr(s), "") == "\"" + s + "\""
  {
    if s != "" {
      ReprPlain(s);
    }
  }

  lemma ItemPlain(s: string)
    requires s != "" && '"' !in s && !HasSpaceOrParen(s)
    ensures SexprItem(PStr(s), "") == s
  {
  }

  lemma ItemKeyed(v: PyVal, key: string)
    requires key != ""
    ensures SexprItem(v, key) == "(" + (key + [' '] + (SexprItem(v, "") + ")" + ""))
  {
  }

  lemma Pair<T>(a: T, b: T, z: seq<T>)
    ensures [a] + ([b] + z) == [a, b] + z
  {
  }

  lemma Four<T>(a: T, b: T, c: T, d: T)
    ensures [a] + ([b] + ([c, d] + [])) == [a, b, c, d]
  {
  }

  lemma ItemLeafToken(v: PyVal, rest: string)
    requires ItemLeaf(v)
    ensures Tokenize(SexprItem(v, "") + ")" + rest) == [ItemToken(v), Close] + Tokenize(rest)
  {
    CloseAhead(rest);
    Pair(ItemToken(v), Close, Tokenize(rest));
    if v.PInt? {
      ItemInt(v.i);
      IntToken(v.i, ')', rest);
    } else if v.s == "" || HasSpaceOrParen(v.s) {
      assert v.s != "" ==> !PlainSymbol(v.s);
      ItemQuoted(v.s);
      assert '"' !in v.s;
      QuotedThen(v.s, ')', rest);
    } else {
      ItemPlain(v.s);
      PlainToken(v.s, ')', rest);
    }
  }

  /** The keyed item `(key value)` is read as these four tokens. */
  lemma ItemTokens(v: PyVal, key: string)
    requires PlainSymbol(key) && ItemLeaf(v)
    ensures Tokenize(SexprItem(v, key)) == [Open, Bare(key), ItemToken(v), Close]
  {
    var x := SexprItem(v, "") + ")" + "";
    ItemKeyed(v, key);
    OpenAhead(key + [' '] + x);
    PlainToken(key, ' ', x);
    SkipChar(' ', x);
    ItemLeafToken(v, "");
    TokenizeEmpty();
    Four(Open, Bare(key), ItemToken(v), Close);
  }

  lemma ItemAtom(v: PyVal)
    requires ItemLeaf(v)
    ensures !ItemToken(v).Open? && !ItemToken(v).Close? && AtomValue(ItemToken(v)) == Success(v)
  {
    if v.PInt? {
      NumberValueOfInt(v.i, "");
      EmptyTail(IntToString(v.i));
    }
  }

  lemma ReadLast(b: Token, vb: PyVal)
    requires !b.Open? && !b.Close? && AtomValue(b) == Success(vb)
    ensures ReadItems([b]) == Success(Items([vb], []))
  {
    assert [b][1..] == [] && [vb] + [] == [vb];
  }

  lemma ReadTwo(a: Token, va: PyVal, b: Token, vb: PyVal)
    requires !a.Open? && !a.Close? && AtomValue(a) == Success(va)
    requires !b.Open? && !b.Close? && AtomValue(b) == Success(vb)
    ensures ReadItems([a, b]) == Success(Items([va, vb], []))
  {
    ReadLast(b, vb);
    assert [a, b][1..] == [b] && [va] + [vb] == [va, vb];
  }

  lemma ReadPair(v: PyVal, key: string)
    requires ItemLeaf(v)
    ensures Read([Open, Bare(key), ItemToken(v), Close]) == Success(PList([PStr(key), v]))
  {
    ItemAtom(v);
    ReadTwo(Bare(key), PStr(key), ItemToken(v), v);
    ClosedList([Bare(key), ItemToken(v)], [PStr(key), v]);
    Wrap4(Open, Bare(key), ItemToken(v), Close);
    ReadOne([Open, Bare(key), ItemToken(v), Close], PList([PStr(key), v]));
  }

  lemma Wrap4<T>(a: T, b: T, c: T, d: T)
    ensures [a] + [b, c] + [d] == [a, b, c, d]
  {
  }

  lemma ReadOne(toks: seq<Token>, v: PyVal)
    requires ReadItems(toks) == Success(Items([v], []))
    ensures Read(toks) == Success(v)
  {
  }

  /**
   * SexprItem(value, key) is read back by parse_sexp as the list `[key, value]`. The key
   * holds no brace: SexprItem builds a `str.format` template from it, and a brace there
   * is read as template syntax.
   */
  lemma ItemThenRead(v: PyVal, key: string)
    requires PlainSymbol(key) && ItemLeaf(v)
    requires '{' !in key && '}' !in key
    ensures Read(Tokenize(SexprItem(v, key))) == Success(PList([PStr(key), v]))
  {
    ItemTokens(v, key);
    ReadPair(v, key);
  }
}
