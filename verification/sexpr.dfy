/**
 * The S-expression reader and writers of common/sexpr.py: the tokenizer
 * (the regular expression term_regex), the explicit-stack reader parse_sexp,
 * the single-line writers SexprItem and build_sexp, and the depth-bounded
 * pretty-printer format_sexp. Numbers are integers only.
 */
module Sexpr {
  import opened Wrappers
  import opened Text

  /** The Python values the reader produces and the writers accept. */
  datatype PyVal = PNone | PBool(b: bool) | PInt(i: int) | PStr(s: string) | PList(items: seq<PyVal>)

  /** One match of term_regex; each token keeps the text its group matched (a quoted string without its quotes). */
  datatype Token = Open | Close | Number(text: string) | Quoted(body: string) | Bare(text: string)

  // ---------------------------------------------------------------------------
  // Tokenizer

  /** Length of the run of ASCII digits at the start of s. */
  function DigitRun(s: string): (n: nat)
    ensures n <= |s|
    ensures n < |s| ==> !IsDigit(s[n])
    decreases |s|
  {
    if s == [] || !IsDigit(s[0]) then 0 else 1 + DigitRun(s[1..])
  }

  /** The lookahead `(?=[\ \)])`: index k of s holds a space or a `)`. */
  predicate Delimited(s: string, k: int) {
    0 <= k < |s| && (s[k] == ' ' || s[k] == ')')
  }

  /** Length of a match of `[+-]?\d+\.\d+(?=[\ \)])` at the start of s, 0 when there is none. */
  function DecimalLen(s: string): (n: nat)
    ensures n <= |s|
  {
    var fs := if s != [] && (s[0] == '+' || s[0] == '-') then 1 else 0;
    var d1 := DigitRun(s[fs..]);
    var dot := fs + d1;
    if d1 > 0 && dot < |s| && s[dot] == '.' then
      var d2 := DigitRun(s[dot + 1..]);
      if d2 > 0 && Delimited(s, dot + 1 + d2) then dot + 1 + d2 else 0
    else 0
  }

  /** Length of a match of `\-?\d+(?=[\ \)])` at the start of s, 0 when there is none. */
  function IntegerLen(s: string): (n: nat)
    ensures n <= |s|
  {
    var si := if s != [] && s[0] == '-' then 1 else 0;
    var d := DigitRun(s[si..]);
    if d > 0 && Delimited(s, si + d) then si + d else 0
  }

  /** DecimalLen from the parts of its match: sign, whole digits, `.`, fraction digits, lookahead. */
  lemma DecimalLenIs(s: string, fs: nat, d1: nat, d2: nat)
    requires fs == (if s != [] && (s[0] == '+' || s[0] == '-') then 1 else 0)
    requires fs <= |s| && DigitRun(s[fs..]) == d1 > 0
    requires fs + d1 < |s| && s[fs + d1] == '.'
    requires DigitRun(s[fs + d1 + 1..]) == d2 > 0 && Delimited(s, fs + d1 + 1 + d2)
    ensures DecimalLen(s) == fs + d1 + 1 + d2
  {
  }

  /** The parts of a decimal match. */
  lemma DecimalLenParts(s: string)
    requires DecimalLen(s) > 0
    ensures var fs := if s[0] == '+' || s[0] == '-' then 1 else 0;
      var dot := fs + DigitRun(s[fs..]);
      && DigitRun(s[fs..]) > 0 && dot < |s| && s[dot] == '.'
      && DigitRun(s[dot + 1..]) > 0
      && DecimalLen(s) == dot + 1 + DigitRun(s[dot + 1..])
      && Delimited(s, DecimalLen(s))
  {
  }

  /** The parts of an integer match. */
  lemma IntegerLenParts(s: string)
    requires IntegerLen(s) > 0
    ensures var si := if s[0] == '-' then 1 else 0;
      && DigitRun(s[si..]) > 0
      && IntegerLen(s) == si + DigitRun(s[si..])
      && Delimited(s, IntegerLen(s))
  {
  }

  /** Length of the `num` group matched at the start of s, 0 when it does not match: the decimal alternative first. */
  function NumberLen(s: string): (n: nat)
    ensures n <= |s|
  {
    if DecimalLen(s) > 0 then DecimalLen(s) else IntegerLen(s)
  }

  /** A character of a bare symbol, `[^(^)\s]`. */
  predicate SymbolChar(c: char) {
    !IsSpace(c) && c != '(' && c != ')' && c != '^'
  }

  predicate SymbolChars(s: string) {
    forall k :: 0 <= k < |s| ==> SymbolChar(s[k])
  }

  /** Length of the bare symbol at the start of s. */
  function SymbolLen(s: string): (n: nat)
    ensures n <= |s|
    ensures n < |s| ==> !SymbolChar(s[n])
    decreases |s|
  {
    if s == [] || !SymbolChar(s[0]) then 0 else 1 + SymbolLen(s[1..])
  }

  /** Index of the first `"` in s, or |s| when there is none. */
  function QuoteIndex(s: string): (n: nat)
    ensures n <= |s|
    ensures n < |s| ==> s[n] == '"'
    decreases |s|
  {
    if s == [] || s[0] == '"' then 0 else 1 + QuoteIndex(s[1..])
  }

  /** The run DigitRun measures is all digits. */
  lemma {:induction false} DigitRunDigits(s: string)
    ensures AllDigits(s[..DigitRun(s)])
    decreases |s|
  {
    if s != [] && IsDigit(s[0]) {
      DigitRunDigits(s[1..]);
      assert s[..DigitRun(s)] == [s[0]] + s[1..][..DigitRun(s[1..])];
    }
  }

  lemma {:induction false} SymbolLenChars(s: string)
    ensures SymbolChars(s[..SymbolLen(s)])
    decreases |s|
  {
    if s != [] && SymbolChar(s[0]) {
      SymbolLenChars(s[1..]);
      assert s[..SymbolLen(s)] == [s[0]] + s[1..][..SymbolLen(s[1..])];
    }
  }

  /**
   * The tokens `re.finditer(term_regex, s)` yields, in order. Whitespace before a
   * token is skipped; a `^` can start no token and is skipped as well.
   */
  function Tokenize(s: string): seq<Token>
    decreases |s|
  {
    if s == [] then []
    else if IsSpace(s[0]) || s[0] == '^' then Tokenize(s[1..])
    else if s[0] == '(' then [Open] + Tokenize(s[1..])
    else if s[0] == ')' then [Close] + Tokenize(s[1..])
    else if NumberLen(s) > 0 then [Number(s[..NumberLen(s)])] + Tokenize(s[NumberLen(s)..])
    else if s[0] == '"' && QuoteIndex(s[1..]) < |s| - 1 then
      var k := QuoteIndex(s[1..]);
      [Quoted(s[1..k + 1])] + Tokenize(s[k + 2..])
    else
      var n := SymbolLen(s);
      [Bare(s[..n])] + Tokenize(s[n..])
  }

  /** The tokenizer's step at a number. */
  lemma TokenizeNumber(x: string)
    requires x != [] && !IsSpace(x[0]) && x[0] != '^' && x[0] != '(' && x[0] != ')' && NumberLen(x) > 0
    ensures Tokenize(x) == [Number(x[..NumberLen(x)])] + Tokenize(x[NumberLen(x)..])
  {
  }

  /** The tokenizer's step at a bare symbol. */
  lemma TokenizeBare(x: string)
    requires x != [] && SymbolChar(x[0]) && NumberLen(x) == 0 && x[0] != '"'
    ensures Tokenize(x) == [Bare(x[..SymbolLen(x)])] + Tokenize(x[SymbolLen(x)..])
  {
  }

  /** The text a token was read from. */
  function RawText(t: Token): string {
    match t
    case Open => "("
    case Close => ")"
    case Number(x) => x
    case Quoted(b) => "\"" + b + "\""
    case Bare(x) => x
  }

  function Raws(ts: seq<Token>): seq<string> {
    seq(|ts|, i requires 0 <= i < |ts| => RawText(ts[i]))
  }

  /**
   * Every token's text is non-empty and starts with something other than a space,
   * and every bare symbol holds no whitespace, paren or `^`.
   */
  lemma {:induction false} TokenTexts(s: string)
    ensures forall t :: t in Tokenize(s) ==> RawText(t) != [] && RawText(t)[0] != ' '
    ensures forall t :: t in Tokenize(s) && t.Bare? ==> SymbolChars(t.text)
    decreases |s|
  {
    if s != [] {
      if IsSpace(s[0]) || s[0] == '^' || s[0] == '(' || s[0] == ')' {
        TokenTexts(s[1..]);
      } else if NumberLen(s) > 0 {
        TokenTexts(s[NumberLen(s)..]);
      } else if s[0] == '"' && QuoteIndex(s[1..]) < |s| - 1 {
        TokenTexts(s[QuoteIndex(s[1..]) + 2..]);
      } else {
        SymbolLenChars(s);
        TokenTexts(s[SymbolLen(s)..]);
      }
    }
  }

  lemma {:induction false} DigitRunConcat(a: string, b: string)
    requires b == [] || !IsDigit(b[0])
    ensures DigitRun(a + b) == DigitRun(a)
    decreases |a|
  {
    if a == [] {
      assert a + b == b;
    } else {
      assert (a + b)[1..] == a[1..] + b;
      DigitRunConcat(a[1..], b);
    }
  }

  lemma {:induction false} DigitRunAll(a: string)
    requires AllDigits(a)
    ensures DigitRun(a) == |a|
    decreases |a|
  {
    if a != [] {
      DigitRunAll(a[1..]);
    }
  }

  /** A run of digits directly followed by a space or `)` is read as a number. */
  lemma NumberBeforeDelimiter(d: string, c: char, rest: string)
    requires d != [] && AllDigits(d)
    requires c == ' ' || c == ')'
    ensures Tokenize(d + [c] + rest) == [Number(d)] + Tokenize([c] + rest)
  {
    var t := [c] + rest;
    DigitsThen(d, t);
    assert NumberLen(d + t) == |d|;
    TokenizeNumber(d + t);
    SplitOff(d, c, rest);
  }

  /**
   * A run of digits followed by anything else that cannot continue a symbol (a tab,
   * a newline, `(`, `^`) is read as a bare symbol.
   */
  lemma DigitsBeforeOtherBreak(d: string, c: char, rest: string)
    requires d != [] && AllDigits(d)
    requires !SymbolChar(c) && c != ' ' && c != ')'
    ensures Tokenize(d + [c] + rest) == [Bare(d)] + Tokenize([c] + rest)
  {
    var t := [c] + rest;
    DigitsThen(d, t);
    assert NumberLen(d + t) == 0;
    assert SymbolChars(d);
    SymbolRun(d, c, rest);
    SplitOff(d, c, rest);
    TokenizeBare(d + t);
  }

  /** Digits d followed by text that does not start with a digit. */
  lemma DigitsThen(d: string, t: string)
    requires d != [] && AllDigits(d) && t != [] && !IsDigit(t[0])
    ensures var x := d + t;
      && x[0] == d[0] && x[0..] == x && DigitRun(x) == |d| && x[|d|] == t[0]
      && x[..|d|] == d && x[|d|..] == t
  {
    DigitRunConcat(d, t);
    DigitRunAll(d);
  }

  lemma SplitOff(d: string, c: char, rest: string)
    ensures d + [c] + rest == d + ([c] + rest)
  {
  }

  /** A run of digits at the very end of the text has no lookahead and is a bare symbol. */
  lemma DigitsAtEnd(d: string)
    requires d != [] && AllDigits(d)
    ensures Tokenize(d) == [Bare(d)]
  {
    assert d[0..] == d;
    DigitRunAll(d);
    assert NumberLen(d) == 0;
    assert SymbolChars(d);
    SymbolLenAll(d);
    assert d[..|d|] == d && d[|d|..] == [];
  }

  lemma {:induction false} SymbolLenAll(s: string)
    requires SymbolChars(s)
    ensures SymbolLen(s) == |s|
    decreases |s|
  {
    if s != [] {
      SymbolLenAll(s[1..]);
    }
  }

  lemma {:induction false} SymbolRun(s: string, c: char, rest: string)
    requires SymbolChars(s) && !SymbolChar(c)
    ensures SymbolLen(s + [c] + rest) == |s|
    decreases |s|
  {
    if s == [] {
      assert s + [c] + rest == [c] + rest;
    } else {
      assert (s + [c] + rest)[1..] == s[1..] + [c] + rest;
      SymbolRun(s[1..], c, rest);
    }
  }

  /** A `"…"` token yields its contents without the quotes, and no escape is processed. */
  lemma QuotedToken(b: string, rest: string)
    requires '"' !in b
    ensures Tokenize("\"" + b + "\"" + rest) == [Quoted(b)] + Tokenize(rest)
  {
    var x := "\"" + b + "\"" + rest;
    assert x[0] == '"';
    assert x[0..] == x;
    assert DigitRun(x) == 0;
    assert NumberLen(x) == 0;
    assert x[1..] == b + ("\"" + rest);
    QuoteAfter(b, rest);
    assert QuoteIndex(x[1..]) == |b|;
    assert x[1..|b| + 1] == b;
    assert x[|b| + 2..] == rest;
  }

  lemma {:induction false} QuoteAfter(b: string, rest: string)
    requires '"' !in b
    ensures QuoteIndex(b + ("\"" + rest)) == |b|
    decreases |b|
  {
    if b == [] {
      assert b + ("\"" + rest) == "\"" + rest;
    } else {
      assert (b + ("\"" + rest))[1..] == b[1..] + ("\"" + rest);
      QuoteAfter(b[1..], rest);
    }
  }

  lemma SkipChar(c: char, rest: string)
    requires IsSpace(c) || c == '^'
    ensures Tokenize([c] + rest) == Tokenize(rest)
  {
    assert ([c] + rest)[1..] == rest;
  }

  /**
   * Whitespace and `^` in front of a text change nothing about the tokens read from it:
   * the scanner skips them one character at a time.
   */
  lemma {:induction false} SkipLayout(w: string, t: string)
    requires forall k :: 0 <= k < |w| ==> IsSpace(w[k]) || w[k] == '^'
    ensures Tokenize(w + t) == Tokenize(t)
    decreases |w|
  {
    if w != [] {
      ConsApart(w, t);
      SkipChar(w[0], w[1..] + t);
      SkipLayout(w[1..], t);
    } else {
      assert w + t == t;
    }
  }

  lemma ParenChar(c: char, rest: string)
    requires c == '(' || c == ')'
    ensures Tokenize([c] + rest) == [if c == '(' then Open else Close] + Tokenize(rest)
  {
    assert ([c] + rest)[1..] == rest;
  }

  // ---------------------------------------------------------------------------
  // Numbers

  predicate AllZeros(s: string) {
    forall k :: 0 <= k < |s| ==> s[k] == '0'
  }

  /**
   * The value `float(text)` gives a `num` token, kept when it is integral
   * (`v.is_integer()`); None for a number with a non-zero fraction.
   */
  function NumberValue(text: string): Option<int> {
    var k := if text != [] && (text[0] == '+' || text[0] == '-') then 1 else 0;
    var d := DigitRun(text[k..]);
    DigitRunDigits(text[k..]);
    var whole: int := DigitsValue(text[k..][..d]);
    var frac := if k + d < |text| then text[k + d + 1..] else "";
    if AllZeros(frac) then Some(if k == 1 && text[0] == '-' then -whole else whole) else None
  }

  // ---------------------------------------------------------------------------
  // Reader

  datatype ParseError =
    | UnmatchedClose    // a `)` with no list open
    | UnclosedList      // the text ends inside a list
    | FractionalNumber  // a number with a non-zero fraction, which this model does not read
    | NoElement         // nothing to return: `out[0]` of an empty list

  /** Items read so far and the tokens left, which are empty or start with an unmatched `)`. */
  datatype Items = Items(vals: seq<PyVal>, rest: seq<Token>)

  /** The value of an atom token. */
  function AtomValue(t: Token): Result<PyVal, ParseError>
    requires !t.Open? && !t.Close?
  {
    match t
    case Number(x) => if NumberValue(x).Some? then Success(PInt(NumberValue(x).value)) else Failure(FractionalNumber)
    case Quoted(b) => Success(PStr(b))
    case Bare(x) => Success(PStr(x))
  }

  /**
   * Recursive-descent reading of a run of items, stopping at an unmatched `)` or at
   * the end; a list is an `(`, a run of items and its `)`.
   */
  function ReadItems(toks: seq<Token>): (r: Result<Items, ParseError>)
    ensures r.Success? ==> |r.value.rest| <= |toks| && (r.value.rest == [] || r.value.rest[0] == Close)
    decreases |toks|
  {
    if toks == [] then Success(Items([], []))
    else if toks[0].Close? then Success(Items([], toks))
    else if toks[0].Open? then
      var inner := ReadItems(toks[1..]);
      if inner.Failure? then Failure(inner.error)
      else if inner.value.rest == [] then Failure(UnclosedList)
      else Prepend([PList(inner.value.vals)], ReadItems(inner.value.rest[1..]))
    else
      var v := AtomValue(toks[0]);
      if v.Failure? then Failure(v.error) else Prepend([v.value], ReadItems(toks[1..]))
  }

  /** What parse_sexp returns for a token sequence: the first top-level element. */
  function Read(toks: seq<Token>): Result<PyVal, ParseError> {
    match ReadItems(toks)
    case Failure(e) => Failure(e)
    case Success(r) =>
      if r.rest != [] then Failure(UnmatchedClose)
      else if r.vals == [] then Failure(NoElement)
      else Success(r.vals[0])
  }

  /** Puts vs in front of what a later read returns. */
  function Prepend(vs: seq<PyVal>, r: Result<Items, ParseError>): Result<Items, ParseError> {
    match r
    case Failure(e) => Failure(e)
    case Success(it) => Success(Items(vs + it.vals, it.rest))
  }

  /**
   * Reading is compositional: a prefix that reads completely (nothing left) contributes
   * its items in front of what the rest reads as; a prefix that stops at an unmatched `)`
   * stops there whatever follows.
   */
  lemma {:induction false} ReadItemsAppend(s: seq<Token>, t: seq<Token>)
    requires ReadItems(s).Success?
    ensures ReadItems(s).value.rest != [] ==>
              ReadItems(s + t) == Success(Items(ReadItems(s).value.vals, ReadItems(s).value.rest + t))
    ensures ReadItems(s).value.rest == [] ==> ReadItems(s + t) == Prepend(ReadItems(s).value.vals, ReadItems(t))
    decreases |s|, 1
  {
    if s == [] {
      assert s + t == t;
      match ReadItems(t)
      case Failure(_) =>
      case Success(it) => assert [] + it.vals == it.vals;
    } else if s[0] == Close {
      assert (s + t)[0] == s[0];
    } else if s[0] == Open {
      AppendOpen(s, t);
    } else {
      AppendAtom(s, t);
    }
  }

  lemma {:induction false} AppendOpen(s: seq<Token>, t: seq<Token>)
    requires s != [] && s[0] == Open && ReadItems(s).Success?
    ensures ReadItems(s).value.rest != [] ==>
              ReadItems(s + t) == Success(Items(ReadItems(s).value.vals, ReadItems(s).value.rest + t))
    ensures ReadItems(s).value.rest == [] ==> ReadItems(s + t) == Prepend(ReadItems(s).value.vals, ReadItems(t))
    decreases |s|, 0
  {
    var inner := ReadItems(s[1..]).value;
    OpenRead(s, inner.vals, inner.rest);
    ReadItemsAppend(s[1..], t);
    SliceAppend(s, t);
    SliceAppend(inner.rest, t);
    OpenRead(s + t, inner.vals, inner.rest + t);
    ReadItemsAppend(inner.rest[1..], t);
    PrependPrepend([PList(inner.vals)], ReadItems(inner.rest[1..]).value.vals, ReadItems(t));
  }

  /** How a list at the front is read, once its items are known. */
  lemma OpenRead(u: seq<Token>, vals: seq<PyVal>, rest: seq<Token>)
    requires u != [] && u[0] == Open
    requires ReadItems(u[1..]) == Success(Items(vals, rest)) && rest != []
    ensures ReadItems(u) == Prepend([PList(vals)], ReadItems(rest[1..]))
  {
  }

  lemma SliceAppend(s: seq<Token>, t: seq<Token>)
    requires s != []
    ensures (s + t)[0] == s[0] && (s + t)[1..] == s[1..] + t
  {
  }

  lemma PrependPrepend(a: seq<PyVal>, b: seq<PyVal>, r: Result<Items, ParseError>)
    ensures Prepend(a, Prepend(b, r)) == Prepend(a + b, r)
  {
    if r.Success? {
      assert a + b + r.value.vals == a + (b + r.value.vals);
    }
  }

  lemma {:induction false} AppendAtom(s: seq<Token>, t: seq<Token>)
    requires s != [] && !s[0].Open? && !s[0].Close? && ReadItems(s).Success?
    ensures ReadItems(s).value.rest != [] ==>
              ReadItems(s + t) == Success(Items(ReadItems(s).value.vals, ReadItems(s).value.rest + t))
    ensures ReadItems(s).value.rest == [] ==> ReadItems(s + t) == Prepend(ReadItems(s).value.vals, ReadItems(t))
    decreases |s|, 0
  {
    assert (s + t)[0] == s[0];
    assert (s + t)[1..] == s[1..] + t;
    var v := AtomValue(s[0]).value;
    ReadItemsAppend(s[1..], t);
    var more := ReadItems(s[1..]).value;
    if more.rest == [] {
      match ReadItems(t)
      case Failure(_) =>
      case Success(it) =>
        assert [v] + more.vals + it.vals == [v] + (more.vals + it.vals);
    }
  }

  /** The consumed tokens of the explicit-stack reader: one segment per open level, joined by `(`. */
  function Joined(segs: seq<seq<Token>>): seq<Token>
    requires |segs| >= 1
    decreases |segs|
  {
    if |segs| == 1 then segs[0] else Joined(segs[..|segs| - 1]) + [Open] + segs[|segs| - 1]
  }

  /** Each segment reads completely, with nothing left over. */
  ghost predicate SegmentsRead(segs: seq<seq<Token>>) {
    forall j :: 0 <= j < |segs| ==> ReadItems(segs[j]).Success? && ReadItems(segs[j]).value.rest == []
  }

  /** An error after the consumed tokens is the error of the whole read. */
  lemma {:induction false} JoinedThenFailure(segs: seq<seq<Token>>, t: seq<Token>)
    requires |segs| >= 1 && SegmentsRead(segs)
    requires ReadItems(t).Failure?
    ensures ReadItems(Joined(segs) + t) == ReadItems(t)
    decreases |segs|
  {
    var last := segs[|segs| - 1];
    assert ReadItems(last).Success?;
    ReadItemsAppend(last, t);
    if |segs| > 1 {
      var init := segs[..|segs| - 1];
      var t' := [Open] + (last + t);
      assert t'[1..] == last + t;
      assert ReadItems(t') == ReadItems(t);
      SegmentsReadInit(segs);
      JoinedThenFailure(init, t');
      JoinedSplit(segs, t);
    }
  }

  lemma SegmentsReadInit(segs: seq<seq<Token>>)
    requires |segs| >= 2 && SegmentsRead(segs)
    ensures SegmentsRead(segs[..|segs| - 1])
  {
    var init := segs[..|segs| - 1];
    forall j | 0 <= j < |init| ensures ReadItems(init[j]).Success? && ReadItems(init[j]).value.rest == [] {
      assert init[j] == segs[j];
    }
  }

  lemma JoinedSplit(segs: seq<seq<Token>>, t: seq<Token>)
    requires |segs| >= 2
    ensures Joined(segs) + t == Joined(segs[..|segs| - 1]) + ([Open] + (segs[|segs| - 1] + t))
  {
  }

  /** With a list still open at the end, the read fails with UnclosedList. */
  lemma JoinedUnclosed(segs: seq<seq<Token>>)
    requires |segs| >= 2 && SegmentsRead(segs)
    ensures ReadItems(Joined(segs)) == Failure(UnclosedList)
  {
    var last := segs[|segs| - 1];
    var init := segs[..|segs| - 1];
    assert ReadItems(last).Success?;
    assert ([Open] + last)[1..] == last;
    assert ReadItems([Open] + last) == Failure(UnclosedList);
    SegmentsReadInit(segs);
    JoinedThenFailure(init, [Open] + last);
    JoinedSplit(segs, []);
    assert last + [] == last;
    assert Joined(segs) + [] == Joined(segs);
  }

  lemma JoinedExtend(segs: seq<seq<Token>>, x: seq<Token>)
    requires |segs| >= 1
    ensures Joined(segs[..|segs| - 1] + [segs[|segs| - 1] + x]) == Joined(segs) + x
  {
    var segs' := segs[..|segs| - 1] + [segs[|segs| - 1] + x];
    if |segs| > 1 {
      assert segs'[..|segs'| - 1] == segs[..|segs| - 1];
    }
  }

  /** The state of the explicit-stack reader after consuming some tokens. */
  ghost predicate StackState(segs: seq<seq<Token>>, stack: seq<seq<PyVal>>, out: seq<PyVal>) {
    && |segs| == |stack| + 1
    && (forall j :: 0 <= j < |stack| ==> ReadItems(segs[j]) == Success(Items(stack[j], [])))
    && ReadItems(segs[|stack|]) == Success(Items(out, []))
  }

  lemma StackStateRead(segs: seq<seq<Token>>, stack: seq<seq<PyVal>>, out: seq<PyVal>)
    requires StackState(segs, stack, out)
    ensures SegmentsRead(segs)
  {
    forall j | 0 <= j < |segs| ensures ReadItems(segs[j]).Success? && ReadItems(segs[j]).value.rest == [] {
      if j < |stack| {
        assert ReadItems(segs[j]) == Success(Items(stack[j], []));
      }
    }
  }

  /** A list whose items read completely reads as one list value. */
  lemma ClosedList(b: seq<Token>, inner: seq<PyVal>)
    requires ReadItems(b) == Success(Items(inner, []))
    ensures ReadItems([Open] + b + [Close]) == Success(Items([PList(inner)], []))
  {
    ReadItemsAppend(b, [Close]);
    assert ReadItems([Close]) == Success(Items([], [Close]));
    assert inner + [] == inner;
    Bracketed(b);
    OpenRead([Open] + b + [Close], inner, [Close]);
    EndOfList(inner);
  }

  lemma Bracketed(b: seq<Token>)
    ensures var u := [Open] + b + [Close];
      u != [] && u[0] == Open && u[1..] == b + [Close]
  {
  }

  lemma EndOfList(inner: seq<PyVal>)
    ensures Prepend([PList(inner)], ReadItems([Close][1..])) == Success(Items([PList(inner)], []))
  {
    assert [Close][1..] == [];
    assert [PList(inner)] + [] == [PList(inner)];
  }

  lemma JoinedClose(segs: seq<seq<Token>>)
    requires |segs| >= 2
    ensures var k := |segs| - 1;
      Joined(segs[..k - 1] + [segs[k - 1] + ([Open] + segs[k] + [Close])]) == Joined(segs) + [Close]
  {
    var k := |segs| - 1;
    var init := segs[..k];
    var level := [Open] + segs[k] + [Close];
    JoinedExtend(init, level);
    InitOfInit(segs);
    JoinedLast(segs);
    LevelAssoc(Joined(init), segs[k]);
  }

  lemma InitOfInit(segs: seq<seq<Token>>)
    requires |segs| >= 2
    ensures var init := segs[..|segs| - 1];
      init[..|init| - 1] == segs[..|segs| - 2] && init[|init| - 1] == segs[|segs| - 2]
  {
  }

  lemma JoinedLast(segs: seq<seq<Token>>)
    requires |segs| >= 2
    ensures Joined(segs) == Joined(segs[..|segs| - 1]) + [Open] + segs[|segs| - 1]
  {
  }

  lemma LevelAssoc(a: seq<Token>, b: seq<Token>)
    ensures a + ([Open] + b + [Close]) == a + [Open] + b + [Close]
  {
  }

  /** A `)` closes the innermost list and appends it to its parent. */
  lemma CloseStep(segs: seq<seq<Token>>, stack: seq<seq<PyVal>>, out: seq<PyVal>)
    requires StackState(segs, stack, out) && stack != []
    ensures var k := |stack|;
      var segs' := segs[..k - 1] + [segs[k - 1] + ([Open] + segs[k] + [Close])];
      && StackState(segs', stack[..k - 1], stack[k - 1] + [PList(out)])
      && Joined(segs') == Joined(segs) + [Close]
  {
    var k := |stack|;
    var level := [Open] + segs[k] + [Close];
    ClosedList(segs[k], out);
    assert ReadItems(segs[k - 1]) == Success(Items(stack[k - 1], []));
    ReadItemsAppend(segs[k - 1], level);
    assert stack[k - 1] + [PList(out)] + [] == stack[k - 1] + [PList(out)];
    var segs' := segs[..k - 1] + [segs[k - 1] + level];
    forall j | 0 <= j < k - 1 ensures ReadItems(segs'[j]) == Success(Items(stack[..k - 1][j], [])) {
      assert segs'[j] == segs[j];
    }
    JoinedClose(segs);
  }

  /** An atom is appended to the list being built. */
  lemma AtomStep(segs: seq<seq<Token>>, stack: seq<seq<PyVal>>, out: seq<PyVal>, t: Token)
    requires StackState(segs, stack, out) && !t.Open? && !t.Close? && AtomValue(t).Success?
    ensures var segs' := segs[..|segs| - 1] + [segs[|segs| - 1] + [t]];
      && StackState(segs', stack, out + [AtomValue(t).value])
      && Joined(segs') == Joined(segs) + [t]
  {
    var v := AtomValue(t).value;
    ReadItemsAppend(segs[|stack|], [t]);
    assert [t][1..] == [] && [v] + [] == [v];
    assert ReadItems([t]) == Success(Items([v], []));
    JoinedExtend(segs, [t]);
    var segs' := segs[..|segs| - 1] + [segs[|segs| - 1] + [t]];
    forall j | 0 <= j < |stack| ensures ReadItems(segs'[j]) == Success(Items(stack[j], [])) {
      assert segs'[j] == segs[j];
    }
  }

  /** An `(` starts a new list; the one being built waits on the stack. */
  lemma OpenStep(segs: seq<seq<Token>>, stack: seq<seq<PyVal>>, out: seq<PyVal>)
    requires StackState(segs, stack, out)
    ensures StackState(segs + [[]], stack + [out], []) && Joined(segs + [[]]) == Joined(segs) + [Open]
  {
    var segs' := segs + [[]];
    assert segs'[..|segs'| - 1] == segs;
    assert Joined(segs') == Joined(segs) + [Open] + [];
    forall j | 0 <= j < |stack| + 1 ensures ReadItems(segs'[j]) == Success(Items((stack + [out])[j], [])) {
      assert segs'[j] == segs[j];
    }
  }

  lemma PrefixSnoc(toks: seq<Token>, i: int)
    requires 0 <= i < |toks|
    ensures toks[..i + 1] == toks[..i] + [toks[i]]
  {
  }

  /** A `)` with no list open ends the read with UnmatchedClose. */
  lemma UnmatchedAt(toks: seq<Token>, i: int, segs: seq<seq<Token>>, out: seq<PyVal>)
    requires Consumed(toks, i, segs, [], out)
    requires i < |toks| && toks[i] == Close
    ensures Read(toks) == Failure(UnmatchedClose)
  {
    assert toks == toks[..i] + toks[i..];
    assert toks[i..][0] == Close;
    ReadItemsAppend(segs[0], toks[i..]);
  }

  /** An atom with no value ends the read with its error. */
  lemma AtomFailureAt(toks: seq<Token>, i: int, segs: seq<seq<Token>>, stack: seq<seq<PyVal>>, out: seq<PyVal>)
    requires Consumed(toks, i, segs, stack, out) && i < |toks|
    requires !toks[i].Open? && !toks[i].Close? && AtomValue(toks[i]).Failure?
    ensures Read(toks) == Failure(AtomValue(toks[i]).error)
  {
    assert toks == Joined(segs) + toks[i..];
    assert toks[i..][0] == toks[i];
    assert ReadItems(toks[i..]) == Failure(AtomValue(toks[i]).error);
    StackStateRead(segs, stack, out);
    JoinedThenFailure(segs, toks[i..]);
  }

  /**
   * parse_sexp: each `(` pushes the list being built and starts a new one; each `)`
   * closes the innermost list and appends it to its parent; atoms are appended in
   * order. It fails on a `)` with no list open or when the text ends inside a list,
   * and returns the first top-level element. It computes exactly the recursive-descent
   * reading Read.
   */
  method ParseSexp(sexp: string) returns (r: Result<PyVal, ParseError>)
    ensures r == Read(Tokenize(sexp))
  {
    var toks := Tokenize(sexp);
    var stack: seq<seq<PyVal>> := [];
    var out: seq<PyVal> := [];
    ghost var segs: seq<seq<Token>> := [[]];
    var i := 0;
    while i < |toks|
      invariant Consumed(toks, i, segs, stack, out)
      decreases |toks| - i
    {
      match toks[i] {
        case Open =>
          OpenAt(toks, i, segs, stack, out);
          stack := stack + [out];
          out := [];
          segs := segs + [[]];
        case Close =>
          if stack == [] {
            UnmatchedAt(toks, i, segs, out);
            return Failure(UnmatchedClose);
          }
          CloseAt(toks, i, segs, stack, out);
          segs := ClosedSegs(segs);
          out := stack[|stack| - 1] + [PList(out)];
          stack := stack[..|stack| - 1];
        case _ =>
          var v := AtomValue(toks[i]);
          if v.Failure? {
            AtomFailureAt(toks, i, segs, stack, out);
            return Failure(v.error);
          }
          AtomAt(toks, i, segs, stack, out);
          segs := ExtendedSegs(segs, toks[i]);
          out := out + [v.value];
      }
      i := i + 1;
    }
    EndOfTokens(toks, segs, stack, out);
    if stack != [] {
      return Failure(UnclosedList);
    }
    if out == [] {
      return Failure(NoElement);
    }
    return Success(out[0]);
  }

  /** The loop invariant of parse_sexp: the first i tokens are consumed into this state. */
  ghost predicate Consumed(toks: seq<Token>, i: int, segs: seq<seq<Token>>, stack: seq<seq<PyVal>>, out: seq<PyVal>) {
    0 <= i <= |toks| && StackState(segs, stack, out) && toks[..i] == Joined(segs)
  }

  /** The segments after a `)`: the innermost one, in parentheses, joins its parent. */
  ghost function ClosedSegs(segs: seq<seq<Token>>): seq<seq<Token>>
    requires |segs| >= 2
  {
    var k := |segs| - 1;
    segs[..k - 1] + [segs[k - 1] + ([Open] + segs[k] + [Close])]
  }

  /** The segments after an atom: it joins the innermost one. */
  ghost function ExtendedSegs(segs: seq<seq<Token>>, t: Token): seq<seq<Token>>
    requires |segs| >= 1
  {
    segs[..|segs| - 1] + [segs[|segs| - 1] + [t]]
  }

  lemma OpenAt(toks: seq<Token>, i: int, segs: seq<seq<Token>>, stack: seq<seq<PyVal>>, out: seq<PyVal>)
    requires Consumed(toks, i, segs, stack, out) && i < |toks| && toks[i] == Open
    ensures Consumed(toks, i + 1, segs + [[]], stack + [out], [])
  {
    PrefixSnoc(toks, i);
    OpenStep(segs, stack, out);
  }

  lemma CloseAt(toks: seq<Token>, i: int, segs: seq<seq<Token>>, stack: seq<seq<PyVal>>, out: seq<PyVal>)
    requires Consumed(toks, i, segs, stack, out) && i < |toks| && toks[i] == Close && stack != []
    ensures Consumed(toks, i + 1, ClosedSegs(segs), stack[..|stack| - 1], stack[|stack| - 1] + [PList(out)])
  {
    PrefixSnoc(toks, i);
    CloseStep(segs, stack, out);
  }

  lemma AtomAt(toks: seq<Token>, i: int, segs: seq<seq<Token>>, stack: seq<seq<PyVal>>, out: seq<PyVal>)
    requires Consumed(toks, i, segs, stack, out) && i < |toks|
    requires !toks[i].Open? && !toks[i].Close? && AtomValue(toks[i]).Success?
    ensures Consumed(toks, i + 1, ExtendedSegs(segs, toks[i]), stack, out + [AtomValue(toks[i]).value])
  {
    PrefixSnoc(toks, i);
    AtomStep(segs, stack, out, toks[i]);
  }

  /** What the read returns once every token is consumed. */
  lemma EndOfTokens(toks: seq<Token>, segs: seq<seq<Token>>, stack: seq<seq<PyVal>>, out: seq<PyVal>)
    requires Consumed(toks, |toks|, segs, stack, out)
    ensures stack != [] ==> Read(toks) == Failure(UnclosedList)
    ensures stack == [] && out == [] ==> Read(toks) == Failure(NoElement)
    ensures stack == [] && out != [] ==> Read(toks) == Success(out[0])
  {
    assert toks[..|toks|] == toks;
    if stack != [] {
      StackStateRead(segs, stack, out);
      JoinedUnclosed(segs);
    } else {
      assert toks == segs[0];
    }
  }

  // ---------------------------------------------------------------------------
  // Single-line writers

  /** `re.search(r'[\s()]', s)`. */
  predicate HasSpaceOrParen(s: string) {
    exists k :: 0 <= k < |s| && (IsSpace(s[k]) || s[k] == '(' || s[k] == ')')
  }

  /** `re.search(r'[\s()\"]', s)`. */
  predicate NeedsQuotes(s: string) {
    HasSpaceOrParen(s) || '"' in s
  }

  /** The quote `repr` puts around s: `"` when s holds a `'` but no `"`, otherwise `'`. */
  function ReprQuote(s: string): char {
    if '\'' in s && '"' !in s then '"' else '\''
  }

  function HexDigit(d: nat): char
    requires d < 16
  {
    if d < 10 then (48 + d) as char else (87 + d) as char
  }

  /** How `repr` writes one character between the quotes q. */
  function ReprChar(c: char, q: char): string {
    if c == '\\' then "\\\\"
    else if c == q then ['\\', q]
    else if c == '\t' then "\\t"
    else if c == '\n' then "\\n"
    else if c == '\r' then "\\r"
    else if c < ' ' || c == '\U{7F}' then ['\\', 'x', HexDigit(c as int / 16), HexDigit(c as int % 16)]
    else [c]
  }

  function ReprChars(s: string, q: char): string
    decreases |s|
  {
    if s == [] then "" else ReprChar(s[0], q) + ReprChars(s[1..], q)
  }

  /** `repr(s)[1:-1]`: the text between the quotes of Python's representation of s. */
  function ReprBody(s: string): string {
    ReprChars(s, ReprQuote(s))
  }

  /** Characters `repr` writes as they are, other than both quote characters and the backslash. */
  predicate PlainChars(s: string) {
    forall k :: 0 <= k < |s| ==> ' ' <= s[k] <= '~' && s[k] != '"' && s[k] != '\\'
  }

  lemma {:induction false} ReprCharsPlain(s: string, q: char)
    requires PlainChars(s) && q !in s
    ensures ReprChars(s, q) == s
    decreases |s|
  {
    if s != [] {
      ReprCharsPlain(s[1..], q);
      assert s == [s[0]] + s[1..];
    }
  }

  /** `repr` changes nothing in printable text without quotes or backslashes, apart from adding its quotes. */
  lemma ReprPlain(s: string)
    requires PlainChars(s)
    ensures ReprBody(s) == s
  {
    ReprCharsPlain(s, ReprQuote(s));
  }

  lemma {:induction false} ReprCharsOneLine(s: string, q: char)
    requires q != '\n'
    ensures '\n' !in ReprChars(s, q)
    decreases |s|
  {
    if s != [] {
      ReprCharsOneLine(s[1..], q);
      var c := s[0];
      if c < ' ' || c == '\U{7F}' {
        assert HexDigit(c as int / 16) != '\n' && HexDigit(c as int % 16) != '\n';
      }
    }
  }

  /** `repr` never writes a line break: control characters become escapes. */
  lemma ReprOneLine(s: string)
    ensures '\n' !in ReprBody(s)
  {
    ReprCharsOneLine(s, ReprQuote(s));
  }

  /**
   * SexprItem(val, key): None and the empty string become `""`; a list becomes its
   * items separated by spaces, without parentheses; an int becomes `str(i)`; a string
   * with whitespace, a parenthesis or a `"` is quoted with `repr`'s escapes; anything
   * else is written as it is. A non-empty key wraps the result as `(key val)`.
   */
  function SexprItem(v: PyVal, key: string): string
    decreases v
  {
    var val :=
      match v
      case PNone => "\"\""
      case PStr(s) => if s == "" then "\"\"" else if NeedsQuotes(s) then "\"" + ReprBody(s) + "\"" else s
      case PInt(i) => IntToString(i)
      case PBool(b) => if b then "True" else "False"
      case PList(xs) => Join(seq(|xs|, k requires 0 <= k < |xs| => SexprItem(xs[k], "")), " ");
    if key != "" then "(" + key + " " + val + ")" else val
  }

  /** SexprItem of a dict: each entry written as `(key value)`, separated by spaces. */
  function SexprDict(entries: seq<(string, PyVal)>): string {
    Join(seq(|entries|, k requires 0 <= k < |entries| => SexprItem(entries[k].1, entries[k].0)), " ")
  }

  /** A one-entry dict is written exactly as the keyed item. */
  lemma SexprDictSingle(key: string, v: PyVal)
    ensures SexprDict([(key, v)]) == SexprItem(v, key)
  {
  }

  lemma {:induction false} JoinOneLine(parts: seq<string>)
    requires forall k :: 0 <= k < |parts| ==> '\n' !in parts[k]
    ensures '\n' !in Join(parts, " ")
    decreases |parts|
  {
    if |parts| > 1 {
      JoinOneLine(parts[1..]);
    }
  }

  lemma {:induction false} IntToStringOneLine(i: int)
    ensures '\n' !in IntToString(i)
  {
    NatToStringDigits(if i < 0 then -i else i);
    var d := NatToString(if i < 0 then -i else i);
    assert forall k :: 0 <= k < |d| ==> IsDigit(d[k]);
  }

  /** SexprItem forms a single-line expression. */
  lemma {:induction false} SexprItemOneLine(v: PyVal, key: string)
    requires '\n' !in key
    ensures '\n' !in SexprItem(v, key)
    decreases v
  {
    match v
    case PNone =>
    case PBool(_) =>
    case PInt(i) => IntToStringOneLine(i);
    case PStr(s) =>
      if s != "" && NeedsQuotes(s) {
        ReprOneLine(s);
      } else if s != "" {
        assert !HasSpaceOrParen(s);
        assert forall k :: 0 <= k < |s| ==> s[k] != '\n';
      }
    case PList(xs) =>
      var parts := seq(|xs|, k requires 0 <= k < |xs| => SexprItem(xs[k], ""));
      forall k | 0 <= k < |xs| ensures '\n' !in parts[k] {
        SexprItemOneLine(xs[k], "");
      }
      JoinOneLine(parts);
  }

  /** The text build_sexp writes for a value that is not a list. */
  function BuildLeaf(v: PyVal): string
    requires !v.PList?
  {
    if v.PStr? then
      if HasSpaceOrParen(v.s) then "\"" + ReprBody(v.s) + "\""
      else if v.s == "" then "\"\""
      else v.s
    else if v.PInt? then IntToString(v.i) + ".00"
    else if v.PNone? then "None"
    else if v.b then "True" else "False"
  }

  /**
   * build_sexp(exp, key): a list becomes `(` its items separated by spaces `)`, and
   * its key is ignored; a string with whitespace or a parenthesis is quoted with
   * `repr`'s escapes; an int is written with two decimals (`%.2f`); the empty string
   * is `""`; anything else is `str(exp)`. A key wraps a non-list as `(key val)`.
   */
  function BuildSexp(v: PyVal, key: Option<string>): string
    decreases v
  {
    if v.PList? then
      "(" + Join(seq(|v.items|, k requires 0 <= k < |v.items| => BuildSexp(v.items[k], None)), " ") + ")"
    else if key.Some? then "(" + key.value + " " + BuildLeaf(v) + ")"
    else BuildLeaf(v)
  }

  /** build_sexp writes a single line. */
  lemma {:induction false} BuildSexpOneLine(v: PyVal, key: Option<string>)
    requires key.Some? ==> '\n' !in key.value
    ensures '\n' !in BuildSexp(v, key)
    decreases v
  {
    if v.PList? {
      var xs := v.items;
      var parts := seq(|xs|, k requires 0 <= k < |xs| => BuildSexp(xs[k], None));
      forall k | 0 <= k < |xs| ensures '\n' !in parts[k] {
        BuildSexpOneLine(xs[k], None);
      }
      JoinOneLine(parts);
    } else {
      LeafOneLine(v);
      if key.Some? {
        Wrapped(key.value, BuildLeaf(v));
      }
    }
  }

  lemma LeafOneLine(v: PyVal)
    requires !v.PList?
    ensures '\n' !in BuildLeaf(v)
  {
    if v.PStr? {
      if HasSpaceOrParen(v.s) {
        ReprOneLine(v.s);
      } else {
        assert forall k :: 0 <= k < |v.s| ==> v.s[k] != '\n';
      }
    } else if v.PInt? {
      IntToStringOneLine(v.i);
    }
  }

  lemma Wrapped(key: string, val: string)
    requires '\n' !in key && '\n' !in val
    ensures '\n' !in "(" + key + " " + val + ")"
  {
  }

  // ---------------------------------------------------------------------------
  // Pretty-printer

  /** Open minus closed parentheses among the tokens. */
  function Depth(ts: seq<Token>): int
    decreases |ts|
  {
    if ts == [] then 0
    else Depth(ts[..|ts| - 1]) + (if ts[|ts| - 1].Open? then 1 else if ts[|ts| - 1].Close? then -1 else 0)
  }

  /** How many `(` tokens start a new line: each one after the first token opened at a depth of at most m. */
  function Breaks(ts: seq<Token>, m: int): nat
    decreases |ts|
  {
    if ts == [] then 0
    else Breaks(ts[..|ts| - 1], m) + (if ts[|ts| - 1].Open? && |ts| > 1 && Depth(ts[..|ts| - 1]) <= m then 1 else 0)
  }

  /** s without its spaces and line breaks. */
  function Compact(s: string): string
    decreases |s|
  {
    if s == [] then "" else (if s[0] == ' ' || s[0] == '\n' then "" else [s[0]]) + Compact(s[1..])
  }

  lemma {:induction false} CompactAppend(a: string, b: string)
    ensures Compact(a + b) == Compact(a) + Compact(b)
    decreases |a|
  {
    if a == [] {
      assert a + b == b;
    } else {
      assert (a + b)[1..] == a[1..] + b;
      CompactAppend(a[1..], b);
    }
  }

  lemma {:induction false} CompactLayout(k: int)
    ensures Compact(Spaces(k)) == "" && Count(Spaces(k), '\n') == 0
    decreases k
  {
    if k > 0 {
      CompactLayout(k - 1);
      CompactAppend(Spaces(k - 1), " ");
      CountAppend(Spaces(k - 1), " ", '\n');
    }
  }

  lemma RawsSnoc(ts: seq<Token>, t: Token)
    ensures Concat(Raws(ts + [t])) == Concat(Raws(ts)) + RawText(t)
  {
    assert Raws(ts + [t]) == Raws(ts) + [RawText(t)];
    ConcatAppend(Raws(ts), [RawText(t)]);
  }

  lemma Pieces(a: string, b: string, c: string)
    ensures Compact(a + b + c) == Compact(a) + Compact(b) + Compact(c)
    ensures Count(a + b + c, '\n') == Count(a, '\n') + Count(b, '\n') + Count(c, '\n')
  {
    CompactAppend(a + b, c);
    CompactAppend(a, b);
    CountAppend(a + b, c, '\n');
    CountAppend(a, b, '\n');
  }

  lemma LineBreak(k: int)
    ensures Compact("\n" + Spaces(k)) == "" && Count("\n" + Spaces(k), '\n') == 1
  {
    CompactLayout(k);
    CompactAppend("\n", Spaces(k));
    CountAppend("\n", Spaces(k), '\n');
    assert Compact("\n") == "";
  }

  lemma TrailingSpace(s: string)
    ensures Compact(s + " ") == Compact(s) && Count(s + " ", '\n') == Count(s, '\n')
  {
    CompactAppend(s, " ");
    CountAppend(s, " ", '\n');
    assert Compact(" ") == "";
  }

  /** Removing a trailing space changes neither the compacted text nor the line count. */
  lemma DropSpace(s: string)
    requires s != [] && s[|s| - 1] == ' ' && s[0] != ' '
    ensures s[..|s| - 1] != [] && s[..|s| - 1][0] != ' '
    ensures Compact(s[..|s| - 1]) == Compact(s) && Count(s[..|s| - 1], '\n') == Count(s, '\n')
  {
    var p := s[..|s| - 1];
    LastSpace(s);
    TrailingSpace(p);
  }

  lemma LastSpace(s: string)
    requires s != [] && s[|s| - 1] == ' ' && s[0] != ' '
    ensures s[..|s| - 1] != [] && s[..|s| - 1][0] == s[0] && s == s[..|s| - 1] + " "
  {
  }

  /** `' ' * indentation_size * n`, which Python evaluates as `(' ' * indentation_size) * n`. */
  function Indent(size: int, n: int): (r: string)
    ensures r == if size > 0 && n > 0 then Spaces(size * n) else ""
  {
    RepeatSpaces(size, n);
    Repeat(Spaces(size), n)
  }

  predicate IsAtom(t: Token) {
    !t.Open? && !t.Close?
  }

  /** Whether the `(` at index i starts a new line: it is not the first token and opens at depth at most m. */
  predicate BreakAt(ts: seq<Token>, i: int, m: int)
    requires 0 <= i < |ts|
  {
    ts[i].Open? && i > 0 && Depth(ts[..i]) <= m
  }

  /**
   * What the layout puts before token i: a line break and size spaces per open level
   * before a line-starting `(`, one space before a deeper `(` that follows a `)`.
   */
  function Lead(ts: seq<Token>, i: int, size: int, m: int): string
    requires 0 <= i < |ts|
  {
    if BreakAt(ts, i, m) then "\n" + Indent(size, Depth(ts[..i]))
    else if ts[i].Open? && i > 0 && ts[i - 1].Close? then " "
    else ""
  }

  /** What the layout puts after token i: one space after an atom, unless a `)` or a line-starting `(` follows. */
  function Trail(ts: seq<Token>, i: int, m: int): string
    requires 0 <= i < |ts|
  {
    if IsAtom(ts[i]) && !(i + 1 < |ts| && (ts[i + 1].Close? || BreakAt(ts, i + 1, m))) then " " else ""
  }

  function Piece(ts: seq<Token>, i: int, size: int, m: int): string
    requires 0 <= i < |ts|
  {
    Lead(ts, i, size, m) + RawText(ts[i]) + Trail(ts, i, m)
  }

  /** Every token's piece, in order. */
  function LayoutPieces(ts: seq<Token>, size: int, m: int): (r: seq<string>)
    ensures |r| == |ts| && forall i :: 0 <= i < |ts| ==> r[i] == Piece(ts, i, size, m)
  {
    seq(|ts|, i requires 0 <= i < |ts| => Piece(ts, i, size, m))
  }

  /** The text format_sexp is meant to write for the tokens ts: every token's piece, then a line break. */
  function Layout(ts: seq<Token>, size: int, m: int): string {
    Concat(LayoutPieces(ts, size, m)) + "\n"
  }

  /** The layout of the tokens before index i. */
  function LayoutBefore(ts: seq<Token>, i: int, size: int, m: int): string
    requires 0 <= i <= |ts|
  {
    Concat(LayoutPieces(ts, size, m)[..i])
  }

  /** The layout of the tokens after index i. */
  function LayoutAfter(ts: seq<Token>, i: int, size: int, m: int): string
    requires 0 <= i < |ts|
  {
    Concat(LayoutPieces(ts, size, m)[i + 1..])
  }

  lemma Around(ts: seq<Token>, i: int, size: int, m: int)
    requires 0 < i < |ts|
    ensures Layout(ts, size, m) ==
      LayoutBefore(ts, i - 1, size, m) + Piece(ts, i - 1, size, m) + Piece(ts, i, size, m) + LayoutAfter(ts, i, size, m) + "\n"
  {
    ConcatAround(LayoutPieces(ts, size, m), i);
  }

  lemma NoEmpty(x: string)
    ensures x + "" == x && "" + x == x
  {
  }

  /** A token's piece when its lead and trail are known. */
  lemma PieceIs(ts: seq<Token>, i: int, size: int, m: int, lead: string, trail: string)
    requires 0 <= i < |ts| && Lead(ts, i, size, m) == lead && Trail(ts, i, m) == trail
    ensures Piece(ts, i, size, m) == lead + RawText(ts[i]) + trail
  {
  }

  /**
   * A `(` at depth at most m, other than the first token, starts a new line indented by
   * size spaces per open level, directly after the previous token's own text: the
   * space an atom would carry is dropped.
   */
  lemma LayoutBreak(ts: seq<Token>, i: int, size: int, m: int)
    requires 0 < i < |ts| && ts[i].Open? && Depth(ts[..i]) <= m
    ensures Layout(ts, size, m) ==
      LayoutBefore(ts, i - 1, size, m) + (Lead(ts, i - 1, size, m) + RawText(ts[i - 1]))
      + ("\n" + Indent(size, Depth(ts[..i])) + "(") + LayoutAfter(ts, i, size, m) + "\n"
  {
    Around(ts, i, size, m);
    PieceIs(ts, i - 1, size, m, Lead(ts, i - 1, size, m), "");
    NoEmpty(Lead(ts, i - 1, size, m) + RawText(ts[i - 1]));
    PieceIs(ts, i, size, m, "\n" + Indent(size, Depth(ts[..i])), "");
    NoEmpty("\n" + Indent(size, Depth(ts[..i])) + "(");
  }

  /**
   * A deeper `(` stays on the line: after an atom it follows the atom's space, after a
   * `)` it gets a space of its own, after a `(` nothing comes between.
   */
  lemma LayoutDeepOpen(ts: seq<Token>, i: int, size: int, m: int)
    requires 0 < i < |ts| && ts[i].Open? && Depth(ts[..i]) > m
    ensures IsAtom(ts[i - 1]) ==> (Layout(ts, size, m) ==
      LayoutBefore(ts, i - 1, size, m) + (Lead(ts, i - 1, size, m) + RawText(ts[i - 1]) + " ") + "(" + LayoutAfter(ts, i, size, m) + "\n")
    ensures ts[i - 1].Close? ==> (Layout(ts, size, m) ==
      LayoutBefore(ts, i - 1, size, m) + (Lead(ts, i - 1, size, m) + RawText(ts[i - 1])) + " (" + LayoutAfter(ts, i, size, m) + "\n")
    ensures ts[i - 1].Open? ==> (Layout(ts, size, m) ==
      LayoutBefore(ts, i - 1, size, m) + (Lead(ts, i - 1, size, m) + RawText(ts[i - 1])) + "(" + LayoutAfter(ts, i, size, m) + "\n")
  {
    Around(ts, i, size, m);
    var lead := Lead(ts, i - 1, size, m);
    if IsAtom(ts[i - 1]) {
      PieceIs(ts, i - 1, size, m, lead, " ");
      PieceIs(ts, i, size, m, "", "");
      NoEmpty("(");
    } else {
      PieceIs(ts, i - 1, size, m, lead, "");
      NoEmpty(lead + RawText(ts[i - 1]));
      if ts[i - 1].Close? {
        PieceIs(ts, i, size, m, " ", "");
        assert " " + "(" + "" == " (";
      } else {
        PieceIs(ts, i, size, m, "", "");
        NoEmpty("(");
      }
    }
  }

  /** A `)` directly follows the previous token's own text: no space before it. */
  lemma LayoutClose(ts: seq<Token>, i: int, size: int, m: int)
    requires 0 < i < |ts| && ts[i].Close?
    ensures Layout(ts, size, m) ==
      LayoutBefore(ts, i - 1, size, m) + (Lead(ts, i - 1, size, m) + RawText(ts[i - 1])) + ")" + LayoutAfter(ts, i, size, m) + "\n"
  {
    Around(ts, i, size, m);
    PieceIs(ts, i - 1, size, m, Lead(ts, i - 1, size, m), "");
    NoEmpty(Lead(ts, i - 1, size, m) + RawText(ts[i - 1]));
    PieceIs(ts, i, size, m, "", "");
    NoEmpty(")");
  }

  /** Two atoms in a row stay apart: exactly one space between them. */
  lemma LayoutAtoms(ts: seq<Token>, i: int, size: int, m: int)
    requires 0 < i < |ts| && IsAtom(ts[i - 1]) && IsAtom(ts[i])
    ensures Layout(ts, size, m) ==
      LayoutBefore(ts, i - 1, size, m) + (RawText(ts[i - 1]) + " ") + (RawText(ts[i]) + Trail(ts, i, m)) + LayoutAfter(ts, i, size, m) + "\n"
  {
    Around(ts, i, size, m);
    PieceIs(ts, i - 1, size, m, "", " ");
    NoEmpty(RawText(ts[i - 1]));
    PieceIs(ts, i, size, m, "", Trail(ts, i, m));
    NoEmpty(RawText(ts[i]));
  }

  /** The first token starts the text, with nothing before it. */
  lemma LayoutFirst(ts: seq<Token>, size: int, m: int)
    requires ts != []
    ensures Layout(ts, size, m) == RawText(ts[0]) + Trail(ts, 0, m) + LayoutAfter(ts, 0, size, m) + "\n"
  {
    ConcatUncons(LayoutPieces(ts, size, m));
    PieceIs(ts, 0, size, m, "", Trail(ts, 0, m));
    NoEmpty(RawText(ts[0]));
  }

  /** `if out and out[-1] == ' ': out = out[:-1]`. */
  function DropTrailingSpace(s: string): string {
    if s != [] && s[|s| - 1] == ' ' then s[..|s| - 1] else s
  }

  /** What one pass of format_sexp's loop makes of out for token t, at depth n. */
  function StepText(out: string, n: int, t: Token, size: int, m: int): string {
    if t.Open? then
      if out == [] then "("
      else if n <= m then DropTrailingSpace(out) + "\n" + Indent(size, n) + "("
      else if out[|out| - 1] == ')' then out + " " + "("
      else out + "("
    else if t.Close? then DropTrailingSpace(out) + ")"
    else out + RawText(t) + " "
  }

  /** The text after the loop has seen i tokens: the last one still carries the space every atom gets. */
  function Written(ts: seq<Token>, i: int, size: int, m: int): string
    requires 0 <= i <= |ts|
  {
    if i == 0 then ""
    else LayoutBefore(ts, i - 1, size, m) + Lead(ts, i - 1, size, m) + RawText(ts[i - 1]) + (if IsAtom(ts[i - 1]) then " " else "")
  }

  /** How the text written so far ends: a space after an atom, else the token's own paren. */
  lemma WrittenEnd(ts: seq<Token>, i: int, size: int, m: int)
    requires 0 < i <= |ts|
    ensures Written(ts, i, size, m) != []
    ensures DropTrailingSpace(Written(ts, i, size, m)) == LayoutBefore(ts, i - 1, size, m) + Lead(ts, i - 1, size, m) + RawText(ts[i - 1])
    ensures Written(ts, i, size, m)[|Written(ts, i, size, m)| - 1] == ')' <==> ts[i - 1].Close?
  {
    var pre := LayoutBefore(ts, i - 1, size, m) + Lead(ts, i - 1, size, m) + RawText(ts[i - 1]);
    if IsAtom(ts[i - 1]) {
      assert Written(ts, i, size, m) == pre + " ";
      assert (pre + " ")[..|pre|] == pre;
    } else {
      assert Written(ts, i, size, m) == pre + "";
      assert pre[|pre| - 1] == RawText(ts[i - 1])[0];
    }
  }

  lemma CloseShape(b: string, l: string, r: string)
    ensures b + (l + r + "") + "" + ")" + "" == b + l + r + ")"
  {
  }

  lemma BreakShape(b: string, l: string, r: string, ind: string)
    ensures b + (l + r + "") + ("\n" + ind) + "(" + "" == b + l + r + "\n" + ind + "("
  {
  }

  lemma DeepShape(b: string, l: string, r: string, s: string, lead: string)
    ensures b + (l + r + s) + lead + "(" + "" == b + l + r + s + lead + "("
  {
  }

  lemma AtomShape(b: string, l: string, r: string, s: string, r2: string)
    ensures b + (l + r + s) + "" + r2 + " " == b + l + r + s + r2 + " "
  {
  }

  /** The loop's step keeps the text equal to the layout of the tokens seen so far. */
  lemma WrittenStep(ts: seq<Token>, i: int, size: int, m: int)
    requires 0 <= i < |ts|
    ensures StepText(Written(ts, i, size, m), Depth(ts[..i]), ts[i], size, m) == Written(ts, i + 1, size, m)
  {
    if i == 0 {
      WrittenFirst(ts, size, m);
    } else if ts[i].Close? {
      WrittenClose(ts, i, size, m);
    } else if ts[i].Open? && Depth(ts[..i]) <= m {
      WrittenBreak(ts, i, size, m);
    } else if ts[i].Open? {
      WrittenDeep(ts, i, size, m);
    } else {
      WrittenAtom(ts, i, size, m);
    }
  }

  /** The text after token i, from the text before it and the piece of token i - 1. */
  lemma WrittenNext(ts: seq<Token>, i: int, size: int, m: int)
    requires 0 < i < |ts|
    ensures Written(ts, i + 1, size, m) ==
      LayoutBefore(ts, i - 1, size, m) + Piece(ts, i - 1, size, m) + Lead(ts, i, size, m) + RawText(ts[i]) + (if IsAtom(ts[i]) then " " else "")
  {
    ConcatSnoc(LayoutPieces(ts, size, m), i - 1);
  }

  lemma WrittenFirst(ts: seq<Token>, size: int, m: int)
    requires ts != []
    ensures StepText(Written(ts, 0, size, m), Depth(ts[..0]), ts[0], size, m) == Written(ts, 1, size, m)
  {
    var sp := if IsAtom(ts[0]) then " " else "";
    assert LayoutBefore(ts, 0, size, m) == "";
    assert Lead(ts, 0, size, m) == "";
    assert Written(ts, 1, size, m) == "" + "" + RawText(ts[0]) + sp;
    NoEmpty(RawText(ts[0]) + sp);
    NoEmpty(RawText(ts[0]));
  }

  lemma WrittenClose(ts: seq<Token>, i: int, size: int, m: int)
    requires 0 < i < |ts| && ts[i].Close?
    ensures StepText(Written(ts, i, size, m), Depth(ts[..i]), ts[i], size, m) == Written(ts, i + 1, size, m)
  {
    var b, l, r := LayoutBefore(ts, i - 1, size, m), Lead(ts, i - 1, size, m), RawText(ts[i - 1]);
    WrittenEnd(ts, i, size, m);
    WrittenNext(ts, i, size, m);
    PieceIs(ts, i - 1, size, m, l, "");
    assert Lead(ts, i, size, m) == "";
    CloseShape(b, l, r);
  }

  lemma WrittenBreak(ts: seq<Token>, i: int, size: int, m: int)
    requires 0 < i < |ts| && ts[i].Open? && Depth(ts[..i]) <= m
    ensures StepText(Written(ts, i, size, m), Depth(ts[..i]), ts[i], size, m) == Written(ts, i + 1, size, m)
  {
    var b, l, r := LayoutBefore(ts, i - 1, size, m), Lead(ts, i - 1, size, m), RawText(ts[i - 1]);
    var ind := Indent(size, Depth(ts[..i]));
    WrittenEnd(ts, i, size, m);
    WrittenNext(ts, i, size, m);
    assert BreakAt(ts, i, m);
    PieceIs(ts, i - 1, size, m, l, "");
    assert Lead(ts, i, size, m) == "\n" + ind;
    BreakShape(b, l, r, ind);
  }

  lemma WrittenDeep(ts: seq<Token>, i: int, size: int, m: int)
    requires 0 < i < |ts| && ts[i].Open? && Depth(ts[..i]) > m
    ensures StepText(Written(ts, i, size, m), Depth(ts[..i]), ts[i], size, m) == Written(ts, i + 1, size, m)
  {
    var b, l, r := LayoutBefore(ts, i - 1, size, m), Lead(ts, i - 1, size, m), RawText(ts[i - 1]);
    var s := if IsAtom(ts[i - 1]) then " " else "";
    var lead := if ts[i - 1].Close? then " " else "";
    WrittenEnd(ts, i, size, m);
    WrittenNext(ts, i, size, m);
    assert !BreakAt(ts, i, m);
    assert Lead(ts, i, size, m) == lead;
    PieceIs(ts, i - 1, size, m, l, s);
    DeepShape(b, l, r, s, lead);
    DeepStep(Written(ts, i, size, m), Depth(ts[..i]), size, m, b + l + r + s, lead);
  }

  /** StepText for a deeper `(`: a space of its own after a `)`, none otherwise. */
  lemma DeepStep(out: string, n: int, size: int, m: int, w: string, lead: string)
    requires out == w && out != [] && n > m
    requires lead == if out[|out| - 1] == ')' then " " else ""
    ensures StepText(out, n, Open, size, m) == w + lead + "("
  {
    if lead == "" {
      NoEmpty(w);
    }
  }

  lemma WrittenAtom(ts: seq<Token>, i: int, size: int, m: int)
    requires 0 < i < |ts| && IsAtom(ts[i])
    ensures StepText(Written(ts, i, size, m), Depth(ts[..i]), ts[i], size, m) == Written(ts, i + 1, size, m)
  {
    var b, l, r := LayoutBefore(ts, i - 1, size, m), Lead(ts, i - 1, size, m), RawText(ts[i - 1]);
    var s := if IsAtom(ts[i - 1]) then " " else "";
    WrittenNext(ts, i, size, m);
    PieceIs(ts, i - 1, size, m, l, s);
    assert Lead(ts, i, size, m) == "";
    AtomShape(b, l, r, s, RawText(ts[i]));
  }

  lemma WrittenAll(ts: seq<Token>, size: int, m: int)
    ensures Written(ts, |ts|, size, m) + "\n" == Layout(ts, size, m)
  {
    if ts != [] {
      var i := |ts| - 1;
      var ps := LayoutPieces(ts, size, m);
      ConcatSnoc(ps, i);
      assert ps[..|ts|] == ps;
      var sp := if IsAtom(ts[i]) then " " else "";
      PieceIs(ts, i, size, m, Lead(ts, i, size, m), sp);
      Regroup3(LayoutBefore(ts, i, size, m), Lead(ts, i, size, m), RawText(ts[i]), sp);
    }
  }

  lemma Regroup3(b: string, l: string, r: string, t: string)
    ensures b + (l + r + t) == b + l + r + t
  {
  }

  /**
   * `(a (b))` with two spaces per level: the inner list is at depth 1, so it goes on a
   * line of its own indented by two spaces, and no space is left before a `)`.
   */
  lemma LayoutNested()
    ensures Layout([Open, Bare("a"), Open, Bare("b"), Close, Close], 2, 2) == "(a\n  (b))\n"
  {
    var ts := [Open, Bare("a"), Open, Bare("b"), Close, Close];
    var ab: seq<Token> := [Open, Bare("a")];
    assert ts[..2] == ab && ab[..1] == [Open] && [Open][..0] == [];
    assert Depth(ab) == 1;
    assert Indent(2, 1) == "  ";
    var ps := LayoutPieces(ts, 2, 2);
    assert ps[0] == "(" && ps[1] == "a";
    assert ps[2] == "\n  (" && ps[3] == "b" && ps[4] == ")" && ps[5] == ")";
    assert ps == ["(", "a", "\n  (", "b", ")", ")"];
    NestedText();
  }

  lemma NestedText()
    ensures Concat(["(", "a", "\n  (", "b", ")", ")"]) == "(a\n  (b))"
  {
    var ps := ["(", "a", "\n  (", "b", ")", ")"];
    assert Concat(ps[5..]) == ")";
    assert Concat(ps[4..]) == "))";
    assert Concat(ps[3..]) == "b))";
    assert Concat(ps[2..]) == "\n  (b))";
    assert Concat(ps[1..]) == "a\n  (b))";
    assert Concat(ps[0..]) == "(a\n  (b))";
    assert ps[0..] == ps;
  }

  /**
   * With no nesting allowed on new lines the inner list stays on the first line,
   * separated from the atom before it by that atom's space.
   */
  lemma LayoutFlat()
    ensures Layout([Open, Bare("a"), Open, Bare("b"), Close, Close], 2, 0) == "(a (b))\n"
  {
    var ts := [Open, Bare("a"), Open, Bare("b"), Close, Close];
    var ab: seq<Token> := [Open, Bare("a")];
    assert ts[..2] == ab && ab[..1] == [Open] && [Open][..0] == [];
    assert Depth(ab) == 1;
    var ps := LayoutPieces(ts, 2, 0);
    assert ps[0] == "(" && ps[1] == "a ";
    assert ps[2] == "(" && ps[3] == "b" && ps[4] == ")" && ps[5] == ")";
    assert ps == ["(", "a ", "(", "b", ")", ")"];
    FlatText();
  }

  lemma FlatText()
    ensures Concat(["(", "a ", "(", "b", ")", ")"]) == "(a (b))"
  {
    var ps := ["(", "a ", "(", "b", ")", ")"];
    assert Concat(ps[5..]) == ")";
    assert Concat(ps[4..]) == "))";
    assert Concat(ps[3..]) == "b))";
    assert Concat(ps[2..]) == "(b))";
    assert Concat(ps[1..]) == "a (b))";
    assert Concat(ps[0..]) == "(a (b))";
    assert ps[0..] == ps;
  }

  /**
   * A negative indentation size repeats an empty string: a list that opens at depth
   * below the limit still starts a new line, but with no indentation, even when the
   * depth itself is negative.
   */
  lemma LayoutNegativeSize()
    ensures Layout([Close, Open, Bare("a"), Close], -2, 2) == ")\n(a)\n"
  {
    var ts := [Close, Open, Bare("a"), Close];
    assert ts[..1] == [Close] && [Close][..0] == [];
    assert Depth(ts[..1]) == -1;
    assert Indent(-2, -1) == "";
    var ps := LayoutPieces(ts, -2, 2);
    assert ps[0] == ")" && ps[1] == "\n(" && ps[2] == "a" && ps[3] == ")";
    assert ps == [")", "\n(", "a", ")"];
    NegativeSizeText();
  }

  lemma NegativeSizeText()
    ensures Concat([")", "\n(", "a", ")"]) == ")\n(a)"
  {
    var ps := [")", "\n(", "a", ")"];
    assert Concat(ps[3..]) == ")";
    assert Concat(ps[2..]) == "a)";
    assert Concat(ps[1..]) == "\n(a)";
    assert Concat(ps[0..]) == ")\n(a)";
    assert ps[0..] == ps;
  }

  /**
   * One step of format_sexp: appends token t to out, with the layout its kind calls
   * for, and tracks the nesting depth n.
   */
  method FormatToken(out: string, n: int, t: Token, indentationSize: int, maxNesting: int)
    returns (out': string, n': int)
    requires RawText(t) != [] && RawText(t)[0] != ' '
    requires out == [] || out[0] != ' '
    ensures n' == n + (if t.Open? then 1 else if t.Close? then -1 else 0)
    ensures out' != [] && out'[0] != ' '
    ensures Compact(out') == Compact(out) + Compact(RawText(t))
    ensures Count(out', '\n') == Count(out, '\n') + Count(RawText(t), '\n')
      + (if t.Open? && out != [] && n <= maxNesting then 1 else 0)
    ensures out' == StepText(out, n, t, indentationSize, maxNesting)
  {
    if t.Open? {
      out' := FormatOpen(out, n, indentationSize, maxNesting);
      OneParen('(');
      n' := n + 1;
    } else if t.Close? {
      out' := FormatClose(out);
      OneParen(')');
      n' := n - 1;
    } else {
      out' := FormatAtom(out, RawText(t));
      n' := n;
    }
  }

  /** An atom: its text and a space. */
  method FormatAtom(out: string, value: string) returns (out': string)
    requires value != [] && value[0] != ' '
    requires out == [] || out[0] != ' '
    ensures out' != [] && out'[0] != ' '
    ensures Compact(out') == Compact(out) + Compact(value)
    ensures Count(out', '\n') == Count(out, '\n') + Count(value, '\n')
    ensures out' == out + value + " "
  {
    AtomPiece(out, value);
    out' := out + (value + " ");
  }

  lemma AtomPiece(out: string, value: string)
    requires value != [] && value[0] != ' '
    requires out == [] || out[0] != ' '
    ensures out + (value + " ") != [] && (out + (value + " "))[0] != ' '
    ensures Compact(out + (value + " ")) == Compact(out) + Compact(value)
    ensures Count(out + (value + " "), '\n') == Count(out, '\n') + Count(value, '\n')
  {
    TrailingSpace(value);
    CompactAppend(out, value + " ");
    CountAppend(out, value + " ", '\n');
    if out == [] {
      assert out + (value + " ") == value + " ";
    }
  }

  /** An `(`: a new line indented by depth n when n is at most maxNesting, else a space after a `)`. */
  method FormatOpen(out: string, n: int, indentationSize: int, maxNesting: int) returns (out': string)
    requires out == [] || out[0] != ' '
    ensures out' != [] && out'[0] != ' '
    ensures Compact(out') == Compact(out) + "("
    ensures Count(out', '\n') == Count(out, '\n') + (if out != [] && n <= maxNesting then 1 else 0)
    ensures out' == StepText(out, n, Open, indentationSize, maxNesting)
  {
    var pre := out;
    var indentation := "";
    if pre != [] {
      if n <= maxNesting {
        if pre[|pre| - 1] == ' ' {
          pre := pre[..|pre| - 1];
        }
        indentation := "\n" + Indent(indentationSize, n);
      } else if pre[|pre| - 1] == ')' {
        pre := pre + " ";
      }
    }
    OpenAssembled(out, n, indentationSize, maxNesting, pre, indentation);
    out' := pre + indentation + "(";
  }

  /** What FormatOpen puts together: its layout facts and the step's text for an `(`. */
  lemma OpenAssembled(out: string, n: int, size: int, m: int, pre: string, indentation: string)
    requires out == [] || out[0] != ' '
    requires out == [] ==> pre == [] && indentation == ""
    requires out != [] && n <= m ==> pre == DropTrailingSpace(out) && indentation == "\n" + Indent(size, n)
    requires out != [] && n > m ==> indentation == "" && pre == if out[|out| - 1] == ')' then out + " " else out
    ensures pre + indentation + "(" != [] && (pre + indentation + "(")[0] != ' '
    ensures Compact(pre + indentation + "(") == Compact(out) + "("
    ensures Count(pre + indentation + "(", '\n') == Count(out, '\n') + (if out != [] && n <= m then 1 else 0)
    ensures pre + indentation + "(" == StepText(out, n, Open, size, m)
  {
    if out != [] && n <= m {
      if out[|out| - 1] == ' ' {
        DropSpace(out);
      }
      IndentBreak(size, n);
    } else if out != [] && out[|out| - 1] == ')' {
      TrailingSpace(out);
    }
    assert Compact(pre) == Compact(out) && Count(pre, '\n') == Count(out, '\n');
    assert pre == [] || pre[0] != ' ';
    OneParen('(');
    Assemble(pre, indentation, "(");
    OpenText(out, n, size, m, pre, indentation);
  }

  /** A line break and its indentation: one `\n` and nothing else that Compact keeps. */
  lemma IndentBreak(size: int, n: int)
    ensures Compact("\n" + Indent(size, n)) == "" && Count("\n" + Indent(size, n), '\n') == 1
  {
    LineBreak(if size > 0 && n > 0 then size * n else 0);
  }

  /** The text FormatOpen assembles is the step's text for an `(`. */
  lemma OpenText(out: string, n: int, size: int, m: int, pre: string, indentation: string)
    requires out == [] ==> pre == [] && indentation == ""
    requires out != [] && n <= m ==> pre == DropTrailingSpace(out) && indentation == "\n" + Indent(size, n)
    requires out != [] && n > m ==> indentation == "" && pre == if out[|out| - 1] == ')' then out + " " else out
    ensures pre + indentation + "(" == StepText(out, n, Open, size, m)
  {
    if out == [] || n > m {
      NoEmpty(pre);
    }
  }

  /** A `)`: drops one trailing space first. */
  method FormatClose(out: string) returns (out': string)
    requires out == [] || out[0] != ' '
    ensures out' != [] && out'[0] != ' '
    ensures Compact(out') == Compact(out) + ")"
    ensures Count(out', '\n') == Count(out, '\n')
    ensures out' == DropTrailingSpace(out) + ")"
  {
    var pre := out;
    if pre != [] && pre[|pre| - 1] == ' ' {
      DropSpace(pre);
      pre := pre[..|pre| - 1];
    }
    OneParen(')');
    Assemble(pre, "", ")");
    out' := pre + "" + ")";
  }

  lemma OneParen(c: char)
    requires c == '(' || c == ')'
    ensures Compact([c]) == [c] && Count([c], '\n') == 0
  {
  }

  /** The three pieces of one step, put together. */
  lemma Assemble(pre: string, indentation: string, value: string)
    requires value != [] && value[0] != ' '
    requires pre == [] || pre[0] != ' '
    requires indentation == [] || indentation[0] == '\n'
    ensures pre + indentation + value != [] && (pre + indentation + value)[0] != ' '
    ensures Compact(pre + indentation + value) == Compact(pre) + Compact(indentation) + Compact(value)
    ensures Count(pre + indentation + value, '\n') == Count(pre, '\n') + Count(indentation, '\n') + Count(value, '\n')
  {
    Pieces(pre, indentation, value);
  }

  /**
   * format_sexp: rewrites the tokens of sexp with layout only. Every atom is followed
   * by a space, a space before a `)` is dropped, and an `(` at nesting depth at most
   * maxNesting (other than a leading one) starts a new line indented by
   * indentationSize spaces per level; deeper lists stay on the line. The text ends
   * with a line break.
   */
  method FormatSexp(sexp: string, indentationSize: int, maxNesting: int) returns (out: string)
    ensures out != [] && out[|out| - 1] == '\n'
    ensures Compact(out) == Compact(Concat(Raws(Tokenize(sexp))))
    ensures Count(out, '\n') == Breaks(Tokenize(sexp), maxNesting) + Count(Concat(Raws(Tokenize(sexp))), '\n') + 1
    ensures out == Layout(Tokenize(sexp), indentationSize, maxNesting)
  {
    var toks := Tokenize(sexp);
    TokenTexts(sexp);
    out := FormatTokens(toks, indentationSize, maxNesting);
    FinalNewline(out);
    WrittenAll(toks, indentationSize, maxNesting);
    out := out + "\n";
  }

  /** format_sexp's loop over the tokens, before the final line break. */
  method FormatTokens(toks: seq<Token>, indentationSize: int, maxNesting: int) returns (out: string)
    requires forall t :: t in toks ==> RawText(t) != [] && RawText(t)[0] != ' '
    ensures Compact(out) == Compact(Concat(Raws(toks)))
    ensures Count(out, '\n') == Breaks(toks, maxNesting) + Count(Concat(Raws(toks)), '\n')
    ensures out == Written(toks, |toks|, indentationSize, maxNesting)
  {
    out := "";
    var n := 0;
    var i := 0;
    while i < |toks|
      invariant 0 <= i <= |toks|
      invariant n == Depth(toks[..i])
      invariant i > 0 ==> out != [] && out[0] != ' '
      invariant i == 0 ==> out == []
      invariant Compact(out) == Compact(Concat(Raws(toks[..i])))
      invariant Count(out, '\n') == Breaks(toks[..i], maxNesting) + Count(Concat(Raws(toks[..i])), '\n')
      invariant out == Written(toks, i, indentationSize, maxNesting)
    {
      PrefixStep(toks, i, maxNesting);
      WrittenStep(toks, i, indentationSize, maxNesting);
      assert toks[i] in toks;
      out, n := FormatToken(out, n, toks[i], indentationSize, maxNesting);
      i := i + 1;
    }
    assert toks[..i] == toks;
  }

  /** What one more token adds to the depth, the breaks and the text of a prefix. */
  lemma PrefixStep(toks: seq<Token>, i: int, m: int)
    requires 0 <= i < |toks|
    ensures Depth(toks[..i + 1]) == Depth(toks[..i]) + (if toks[i].Open? then 1 else if toks[i].Close? then -1 else 0)
    ensures Breaks(toks[..i + 1], m) == Breaks(toks[..i], m) + (if toks[i].Open? && i > 0 && Depth(toks[..i]) <= m then 1 else 0)
    ensures Compact(Concat(Raws(toks[..i + 1]))) == Compact(Concat(Raws(toks[..i]))) + Compact(RawText(toks[i]))
    ensures Count(Concat(Raws(toks[..i + 1])), '\n') == Count(Concat(Raws(toks[..i])), '\n') + Count(RawText(toks[i]), '\n')
  {
    assert toks[..i + 1][..i] == toks[..i];
    assert toks[..i + 1][i] == toks[i];
    RawsSnoc(toks[..i], toks[i]);
    assert toks[..i + 1] == toks[..i] + [toks[i]];
    CompactAppend(Concat(Raws(toks[..i])), RawText(toks[i]));
    CountAppend(Concat(Raws(toks[..i])), RawText(toks[i]), '\n');
  }

  lemma FinalNewline(s: string)
    ensures Compact(s + "\n") == Compact(s) && Count(s + "\n", '\n') == Count(s, '\n') + 1
  {
    CountAppend(s, "\n", '\n');
    CompactAppend(s, "\n");
    assert Compact("\n") == "";
  }
}
