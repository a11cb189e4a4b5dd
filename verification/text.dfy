/**
 * The Python string operations the core relies on, over `seq<char>`:
 * `\s`, `str.join`, `str.split`, `str.count`, `str.lower`, `str.replace`,
 * `str.startswith`/`endswith`, string comparison and `str(int)`.
 */
module Text {

  /** The ASCII members of Python's `\s`: space, tab, newline, carriage return, vertical tab, form feed. */
  predicate IsSpace(c: char) {
    c == ' ' || c == '\t' || c == '\n' || c == '\r' || c == '\U{B}' || c == '\U{C}'
  }

  /** The ASCII members of Python's `\d`. */
  predicate IsDigit(c: char) {
    '0' <= c <= '9'
  }

  /** `' ' * k`, which Python makes empty for k <= 0. */
  function Spaces(k: int): string
    decreases k
  {
    if k <= 0 then "" else Spaces(k - 1) + " "
  }

  /** `s * n`: n copies of s, empty for n <= 0. */
  function Repeat(s: string, n: int): string
    decreases n
  {
    if n <= 0 then "" else Repeat(s, n - 1) + s
  }

  lemma {:induction false} SpacesAppend(a: int, b: int)
    requires a >= 0 && b >= 0
    ensures Spaces(a) + Spaces(b) == Spaces(a + b)
    decreases b
  {
    if b > 0 {
      SpacesAppend(a, b - 1);
      assert Spaces(a) + (Spaces(b - 1) + " ") == (Spaces(a) + Spaces(b - 1)) + " ";
    }
  }

  /** `(' ' * size) * n`: size * n spaces when both are positive, and nothing otherwise. */
  lemma {:induction false} RepeatSpaces(size: int, n: int)
    ensures Repeat(Spaces(size), n) == if size > 0 && n > 0 then Spaces(size * n) else ""
    decreases n
  {
    if n > 0 {
      RepeatSpaces(size, n - 1);
      if size > 0 {
        SpacesAppend(size * (n - 1), size);
        assert size * (n - 1) + size == size * n;
      }
    }
  }

  lemma {:induction false} SpacesShape(k: int)
    ensures |Spaces(k)| == if k <= 0 then 0 else k
    ensures forall i :: 0 <= i < |Spaces(k)| ==> Spaces(k)[i] == ' '
    decreases k
  {
    if k > 0 {
      SpacesShape(k - 1);
    }
  }

  /** Concatenation of a sequence of strings, `''.join(parts)`. */
  function Concat(parts: seq<string>): string
    decreases |parts|
  {
    if parts == [] then "" else parts[0] + Concat(parts[1..])
  }

  /** The concatenation around two neighbouring parts i - 1 and i. */
  lemma ConcatAround(ps: seq<string>, i: int)
    requires 0 < i < |ps|
    ensures Concat(ps) == Concat(ps[..i - 1]) + ps[i - 1] + ps[i] + Concat(ps[i + 1..])
  {
    var b := ps[i - 1..];
    assert ps == ps[..i - 1] + b;
    ConcatAppend(ps[..i - 1], b);
    ConcatUncons(b);
    assert b[1..] == ps[i..];
    ConcatUncons(ps[i..]);
    assert ps[i..][1..] == ps[i + 1..];
    Regroup(Concat(ps[..i - 1]), ps[i - 1], ps[i], Concat(ps[i + 1..]));
  }

  lemma Regroup(a: string, b: string, c: string, d: string)
    ensures a + (b + (c + d)) == a + b + c + d
  {
  }

  /** Splitting the first character off a concatenation. */
  lemma ConsApart(w: string, t: string)
    requires w != []
    ensures w + t == [w[0]] + (w[1..] + t)
  {
  }

  lemma ConcatUncons(ps: seq<string>)
    requires ps != []
    ensures Concat(ps) == ps[0] + Concat(ps[1..])
  {
  }

  lemma ConcatSnoc(ps: seq<string>, i: int)
    requires 0 <= i < |ps|
    ensures Concat(ps[..i + 1]) == Concat(ps[..i]) + ps[i]
  {
    assert ps[..i + 1] == ps[..i] + [ps[i]];
    ConcatAppend(ps[..i], [ps[i]]);
  }

  lemma {:induction false} ConcatAppend(a: seq<string>, b: seq<string>)
    ensures Concat(a + b) == Concat(a) + Concat(b)
    decreases |a|
  {
    if a != [] {
      assert (a + b)[1..] == a[1..] + b;
      ConcatAppend(a[1..], b);
    } else {
      assert a + b == b;
    }
  }

  /** `sep.join(parts)`. */
  function Join(parts: seq<string>, sep: string): string
    decreases |parts|
  {
    if parts == [] then ""
    else if |parts| == 1 then parts[0]
    else parts[0] + sep + Join(parts[1..], sep)
  }

  /** Joining one more part adds the separator and the part at the end. */
  lemma {:induction false} JoinSnoc(parts: seq<string>, x: string, sep: string)
    ensures Join(parts + [x], sep) == if parts == [] then x else Join(parts, sep) + sep + x
    decreases |parts|
  {
    if parts == [] {
      assert parts + [x] == [x];
    } else if |parts| == 1 {
      assert (parts + [x])[1..] == [x];
    } else {
      assert (parts + [x])[1..] == parts[1..] + [x];
      JoinSnoc(parts[1..], x, sep);
      assert parts[0] + sep + (Join(parts[1..], sep) + sep + x) == parts[0] + sep + Join(parts[1..], sep) + sep + x;
    }
  }

  /** Gluing the separator onto the last part is the same as joining and adding it after. */
  lemma JoinTrailing(parts: seq<string>, last: string, sep: string)
    requires parts != []
    ensures Join(parts + [last + sep], sep) == Join(parts + [last], sep) + sep
  {
    JoinSnoc(parts, last + sep, sep);
    JoinSnoc(parts, last, sep);
  }

  /** Newline-free lines joined by newlines, with one newline after the last, split back into the lines and an empty tail. */
  lemma LinesText(lines: seq<string>)
    requires lines != []
    requires forall i :: 0 <= i < |lines| ==> '\n' !in lines[i]
    ensures Split(Join(lines, "\n") + "\n", '\n') == lines + [""]
  {
    JoinSnoc(lines, "", "\n");
    assert Join(lines, "\n") + "\n" + "" == Join(lines, "\n") + "\n";
    SplitJoin(lines + [""], '\n');
  }

  /** `s.count(c)` for a one-character argument. */
  function Count(s: string, c: char): nat
    decreases |s|
  {
    if s == [] then 0 else (if s[0] == c then 1 else 0) + Count(s[1..], c)
  }

  lemma {:induction false} CountAppend(a: string, b: string, c: char)
    ensures Count(a + b, c) == Count(a, c) + Count(b, c)
    decreases |a|
  {
    if a == [] {
      assert a + b == b;
    } else {
      assert (a + b)[1..] == a[1..] + b;
      CountAppend(a[1..], b, c);
    }
  }

  lemma {:induction false} CountZero(s: string, c: char)
    ensures Count(s, c) == 0 <==> c !in s
    decreases |s|
  {
    if s != [] {
      CountZero(s[1..], c);
      assert s == [s[0]] + s[1..];
    }
  }

  /**
   * `s.split(c)` for a one-character separator: the runs between separators, always
   * one more than there are separators, none of them holding the separator.
   */
  function Split(s: string, c: char): (parts: seq<string>)
    ensures |parts| == Count(s, c) + 1
    ensures forall i :: 0 <= i < |parts| ==> c !in parts[i]
    decreases |s|
  {
    if s == [] then [""]
    else
      var rest := Split(s[1..], c);
      if s[0] == c then [""] + rest else [[s[0]] + rest[0]] + rest[1..]
  }

  /** Splitting and re-joining with the same separator gives the string back. */
  lemma {:induction false} JoinSplit(s: string, c: char)
    ensures Join(Split(s, c), [c]) == s
    decreases |s|
  {
    if s != [] {
      var rest := Split(s[1..], c);
      JoinSplit(s[1..], c);
      if s[0] == c {
        assert ([""] + rest)[1..] == rest;
      } else {
        var parts := [[s[0]] + rest[0]] + rest[1..];
        if |rest| == 1 {
          assert Join(parts, [c]) == [s[0]] + rest[0];
        } else {
          assert parts[1..] == rest[1..];
          assert Join(rest, [c]) == rest[0] + [c] + Join(rest[1..], [c]);
        }
      }
    }
  }

  lemma {:induction false} SplitPrefix(p: string, t: string, c: char)
    requires c !in p
    ensures Split(p + t, c) == [p + Split(t, c)[0]] + Split(t, c)[1..]
    decreases |p|
  {
    if p == [] {
      assert p + t == t;
      var st := Split(t, c);
      assert p + st[0] == st[0];
      assert [st[0]] + st[1..] == st;
    } else {
      assert (p + t)[1..] == p[1..] + t;
      SplitPrefix(p[1..], t, c);
      assert [p[0]] + (p[1..] + Split(t, c)[0]) == p + Split(t, c)[0];
    }
  }

  /** Joining separator-free parts and splitting again gives the parts back. */
  lemma {:induction false} SplitJoin(parts: seq<string>, c: char)
    requires |parts| >= 1
    requires forall i :: 0 <= i < |parts| ==> c !in parts[i]
    ensures Split(Join(parts, [c]), c) == parts
    decreases |parts|
  {
    if |parts| == 1 {
      SplitPrefix(parts[0], "", c);
      assert parts[0] + "" == parts[0];
    } else {
      var j := Join(parts[1..], [c]);
      SplitJoin(parts[1..], c);
      assert parts[0] + [c] + j == parts[0] + ([c] + j);
      SplitPrefix(parts[0], [c] + j, c);
      assert ([c] + j)[1..] == j;
      assert Split([c] + j, c) == [""] + Split(j, c);
      assert parts[0] + "" == parts[0];
      assert [parts[0]] + parts[1..] == parts;
    }
  }

  /** ASCII lower-casing of one character. */
  function LowerChar(c: char): char {
    if 'A' <= c <= 'Z' then (c as int + 32) as char else c
  }

  /** `s.lower()` on ASCII text. */
  function Lower(s: string): string
    decreases |s|
  {
    if s == [] then [] else [LowerChar(s[0])] + Lower(s[1..])
  }

  /** Two strings lower-case to the same text iff they agree letter by letter up to case. */
  lemma {:induction false} LowerEqual(a: string, b: string)
    ensures Lower(a) == Lower(b) <==>
              |a| == |b| && forall i :: 0 <= i < |a| ==> LowerChar(a[i]) == LowerChar(b[i])
    decreases |a|
  {
    LowerLength(a);
    LowerLength(b);
    if a != [] && b != [] {
      LowerEqual(a[1..], b[1..]);
      if Lower(a) == Lower(b) {
        assert Lower(a)[0] == Lower(b)[0];
        assert Lower(a[1..]) == Lower(a)[1..] == Lower(b)[1..] == Lower(b[1..]);
        forall i | 0 <= i < |a| ensures LowerChar(a[i]) == LowerChar(b[i]) {
          if i > 0 {
            assert a[1..][i - 1] == a[i] && b[1..][i - 1] == b[i];
          }
        }
      }
      if |a| == |b| && forall i :: 0 <= i < |a| ==> LowerChar(a[i]) == LowerChar(b[i]) {
        forall i | 0 <= i < |a| - 1 ensures LowerChar(a[1..][i]) == LowerChar(b[1..][i]) {
          assert a[1..][i] == a[i + 1] && b[1..][i] == b[i + 1];
        }
      }
    }
  }

  lemma {:induction false} LowerLength(s: string)
    ensures |Lower(s)| == |s|
    decreases |s|
  {
    if s != [] {
      LowerLength(s[1..]);
    }
  }

  /** `s.startswith(p)`. */
  predicate StartsWith(s: string, p: string) {
    p <= s
  }

  /** `s.endswith(p)`. */
  predicate EndsWith(s: string, p: string) {
    |p| <= |s| && s[|s| - |p|..] == p
  }

  /** `s.replace('', rep)`: rep before every character and once more at the end. */
  function InsertAround(s: string, rep: string): string
    decreases |s|
  {
    if s == [] then rep else rep + [s[0]] + InsertAround(s[1..], rep)
  }

  /** `s.replace(pat, rep)`: every non-overlapping occurrence of pat, scanned left to right. */
  function Replace(s: string, pat: string, rep: string): string
    decreases |s|
  {
    if pat == [] then InsertAround(s, rep)
    else if pat <= s then rep + Replace(s[|pat|..], pat, rep)
    else if s == [] then []
    else [s[0]] + Replace(s[1..], pat, rep)
  }

  /** pat occurs in s starting at index i. */
  predicate OccursAt(s: string, pat: string, i: int) {
    0 <= i <= |s| && pat <= s[i..]
  }

  /** With no occurrence of a non-empty pattern, `replace` leaves the text alone. */
  lemma {:induction false} ReplaceAbsent(s: string, pat: string, rep: string)
    requires pat != []
    requires forall i :: 0 <= i <= |s| ==> !OccursAt(s, pat, i)
    ensures Replace(s, pat, rep) == s
    decreases |s|
  {
    assert !OccursAt(s, pat, 0);
    if s != [] {
      forall i | 0 <= i <= |s[1..]| ensures !OccursAt(s[1..], pat, i) {
        assert s[1..][i..] == s[i + 1..];
        assert !OccursAt(s, pat, i + 1);
      }
      ReplaceAbsent(s[1..], pat, rep);
    }
  }

  /**
   * `replace` rewrites the first occurrence of a non-empty pattern and goes on
   * scanning right after it.
   */
  lemma {:induction false} ReplaceFirst(p: string, pat: string, q: string, rep: string)
    requires pat != []
    requires forall i :: 0 <= i < |p| ==> !OccursAt(p + pat + q, pat, i)
    ensures Replace(p + pat + q, pat, rep) == p + rep + Replace(q, pat, rep)
    decreases |p|
  {
    if p == [] {
      ReplaceAtStart(p, pat, q, rep);
    } else {
      ReplaceSkip(p, pat, q, rep);
      NoEarlierOccurrence(p, pat, q);
      ReplaceFirst(p[1..], pat, q, rep);
      ConsAssoc(p, rep, Replace(q, pat, rep));
    }
  }

  /** Where the pattern does not start, `replace` copies one character. */
  lemma ReplaceSkip(p: string, pat: string, q: string, rep: string)
    requires pat != [] && p != []
    requires !OccursAt(p + pat + q, pat, 0)
    ensures Replace(p + pat + q, pat, rep) == [p[0]] + Replace(p[1..] + pat + q, pat, rep)
  {
    var s := p + pat + q;
    assert s[0..] == s;
    assert s[0] == p[0];
    assert s[1..] == p[1..] + pat + q;
  }

  lemma ConsAssoc(p: string, a: string, b: string)
    requires p != []
    ensures [p[0]] + (p[1..] + a + b) == p + a + b
  {
    assert p == [p[0]] + p[1..];
  }

  lemma ReplaceAtStart(p: string, pat: string, q: string, rep: string)
    requires pat != [] && p == []
    ensures Replace(p + pat + q, pat, rep) == p + rep + Replace(q, pat, rep)
  {
    EmptyFront(p, pat, q);
    EmptyFront(p, rep, Replace(q, pat, rep));
    PatternFront(pat, q, rep);
  }

  lemma EmptyFront(p: string, a: string, b: string)
    requires p == []
    ensures p + a + b == a + b
  {
  }

  lemma PatternFront(pat: string, q: string, rep: string)
    requires pat != []
    ensures Replace(pat + q, pat, rep) == rep + Replace(q, pat, rep)
  {
    assert pat <= pat + q;
    assert (pat + q)[|pat|..] == q;
  }

  lemma NoEarlierOccurrence(p: string, pat: string, q: string)
    requires p != []
    requires forall i :: 0 <= i < |p| ==> !OccursAt(p + pat + q, pat, i)
    ensures forall i :: 0 <= i < |p[1..]| ==> !OccursAt(p[1..] + pat + q, pat, i)
  {
    var s := p + pat + q;
    forall i | 0 <= i < |p[1..]| ensures !OccursAt(p[1..] + pat + q, pat, i) {
      assert (p[1..] + pat + q)[i..] == s[i + 1..];
      assert !OccursAt(s, pat, i + 1);
    }
  }

  /** Python's `a < b` on strings: lexicographic by code point, a proper prefix first. */
  predicate Less(a: string, b: string)
    decreases |a|
  {
    if a == [] then b != []
    else if b == [] then false
    else if a[0] != b[0] then a[0] < b[0]
    else Less(a[1..], b[1..])
  }

  lemma {:induction false} LessIrreflexive(a: string)
    ensures !Less(a, a)
    decreases |a|
  {
    if a != [] {
      LessIrreflexive(a[1..]);
    }
  }

  lemma {:induction false} LessTransitive(a: string, b: string, c: string)
    requires Less(a, b) && Less(b, c)
    ensures Less(a, c)
    decreases |a|
  {
    if a != [] && b != [] && c != [] && a[0] == b[0] == c[0] {
      LessTransitive(a[1..], b[1..], c[1..]);
    }
  }

  lemma {:induction false} LessTotal(a: string, b: string)
    ensures a == b || Less(a, b) || Less(b, a)
    decreases |a|
  {
    if a != [] && b != [] && a[0] == b[0] {
      LessTotal(a[1..], b[1..]);
      if a[1..] == b[1..] {
        assert a == [a[0]] + a[1..] && b == [b[0]] + b[1..];
      }
    }
  }

  function DigitChar(d: nat): char
    requires d < 10
  {
    (48 + d) as char
  }

  /** `str(n)` for a natural number. */
  function NatToString(n: nat): string
    decreases n
  {
    if n < 10 then [DigitChar(n)] else NatToString(n / 10) + [DigitChar(n % 10)]
  }

  /** `str(i)`. */
  function IntToString(i: int): string {
    if i < 0 then "-" + NatToString(-i) else NatToString(i)
  }

  predicate AllDigits(s: string) {
    forall k :: 0 <= k < |s| ==> IsDigit(s[k])
  }

  /** The value of a run of decimal digits. */
  function DigitsValue(s: string): nat
    requires AllDigits(s)
    decreases |s|
  {
    if s == [] then 0 else DigitsValue(s[..|s| - 1]) * 10 + (s[|s| - 1] as int - 48)
  }

  /** `str(n)` is a non-empty run of digits whose value is n. */
  lemma {:induction false} NatToStringDigits(n: nat)
    ensures |NatToString(n)| >= 1 && AllDigits(NatToString(n))
    ensures DigitsValue(NatToString(n)) == n
    decreases n
  {
    if n >= 10 {
      NatToStringDigits(n / 10);
      var s := NatToString(n);
      assert s[..|s| - 1] == NatToString(n / 10);
    }
  }
}
