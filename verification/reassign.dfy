/**
 * The line rewriter of schlib/reassign_footprints.py: each `F2 "Library:Name"` line
 * of a symbol library whose footprint library is not among the valid ones is given
 * a new library name, taken from the remapping table or asked of the user.
 */
module Reassign {
  import opened Wrappers
  import opened Text

  /** The command-line switches the loop reads: `-v` repetitions and `-i`. */
  datatype Options = Options(verbose: nat, interactive: bool)

  /** The length of the longest prefix of s holding no character of stop. */
  function RunWithout(s: string, stop: set<char>): (n: nat)
    ensures n <= |s|
    ensures forall m :: 0 <= m < n ==> s[m] !in stop
    ensures n < |s| ==> s[n] in stop
    decreases |s|
  {
    if s == [] || s[0] in stop then 0 else 1 + RunWithout(s[1..], stop)
  }

  const FIELD := "F2 \""

  /**
   * `re.search(r'^F2 "([^\:]*):(?:[^\:"]*)"', line)` and its group: the text up to the
   * first colon, when the colon is followed by a run free of `:` and `"` that ends in `"`.
   */
  function MatchLib(line: string): Option<string> {
    if !StartsWith(line, FIELD) then None
    else
      var rest := line[4..];
      var c := RunWithout(rest, {':'});
      if c == |rest| then None
      else
        var after := rest[c + 1..];
        var k := RunWithout(after, {':', '"'});
        if k < |after| && after[k] == '"' then Some(rest[..c]) else None
  }

  /** The name part of a match for lib ends with the quote at j. */
  ghost predicate NameEnd(line: string, lib: string, j: int) {
    |lib| + 5 <= j < |line| && line[j] == '"' && forall m :: |lib| + 5 <= m < j ==> line[m] != ':' && line[m] != '"'
  }

  /** The regular expression's language: `F2 "`, a colon-free library, `:`, a name free of `:` and `"`, then `"`. */
  ghost predicate Matches(line: string, lib: string) {
    StartsWith(line, FIELD + lib + ":") && ':' !in lib && exists j :: NameEnd(line, lib, j)
  }

  lemma MatchLibSound(line: string)
    requires MatchLib(line).Some?
    ensures Matches(line, MatchLib(line).value)
  {
    MatchLibFacts(line);
    var rest := line[4..];
    var c := RunWithout(rest, {':'});
    var after := rest[c + 1..];
    var k := RunWithout(after, {':', '"'});
    Assemble(line, rest, c, after, k);
  }

  /** The pieces the scanner finds make up a line of the pattern's language. */
  lemma Assemble(line: string, rest: string, c: int, after: string, k: int)
    requires StartsWith(line, FIELD) && rest == line[4..]
    requires 0 <= c < |rest| && rest[c] == ':' && forall m :: 0 <= m < c ==> rest[m] !in {':'}
    requires after == rest[c + 1..] && 0 <= k < |after| && after[k] == '"'
    requires forall m :: 0 <= m < k ==> after[m] !in {':', '"'}
    ensures Matches(line, rest[..c])
  {
    var lib := rest[..c];
    assert line == FIELD + rest;
    LibPrefix(line, rest, lib);
    var j := c + 5 + k;
    forall m | c + 5 <= m < j ensures line[m] != ':' && line[m] != '"' {
      assert line[m] == after[m - c - 5];
    }
    assert line[j] == after[k];
    assert NameEnd(line, lib, j);
  }

  /** What a match consists of, as the scanner finds it. */
  lemma MatchLibFacts(line: string)
    requires MatchLib(line).Some?
    ensures StartsWith(line, FIELD)
    ensures var rest := line[4..]; var c := RunWithout(rest, {':'});
      && c < |rest| && MatchLib(line).value == rest[..c]
      && var after := rest[c + 1..]; var k := RunWithout(after, {':', '"'});
      k < |after| && after[k] == '"'
  {
  }

  /** The text after `F2 "` runs colon-free up to a colon: the library part of the match. */
  lemma LibPrefix(line: string, rest: string, lib: string)
    requires line == FIELD + rest && |lib| < |rest| && lib == rest[..|lib|] && rest[|lib|] == ':'
    requires forall m :: 0 <= m < |lib| ==> rest[m] !in {':'}
    ensures StartsWith(line, FIELD + lib + ":") && ':' !in lib
  {
    assert line[..|lib| + 5] == FIELD + lib + ":" by {
      assert line[..|lib| + 5] == FIELD + rest[..|lib| + 1];
      assert rest[..|lib| + 1] == lib + ":";
    }
    assert ':' !in lib by {
      forall m | 0 <= m < |lib| ensures lib[m] != ':' {
        assert lib[m] == rest[m];
      }
    }
  }

  /** The first stop character of s is at n. */
  lemma RunWithoutAt(s: string, stop: set<char>, n: int)
    requires 0 <= n < |s| && s[n] in stop
    requires forall m :: 0 <= m < n ==> s[m] !in stop
    ensures RunWithout(s, stop) == n
  {
  }

  lemma MatchLibComplete(line: string, lib: string)
    requires Matches(line, lib)
    ensures MatchLib(line) == Some(lib)
  {
    var j :| NameEnd(line, lib, j);
    var rest := line[4..];
    var head := FIELD + lib + ":";
    assert line[..|lib| + 5] == head;
    forall m | 0 <= m < |lib| ensures rest[m] == lib[m] && rest[m] !in {':'} {
      assert rest[m] == line[m + 4] == head[m + 4];
    }
    assert rest[|lib|] == ':' by {
      assert rest[|lib|] == line[|lib| + 4] == head[|lib| + 4];
    }
    assert rest[..|lib|] == lib;
    RunWithoutAt(rest, {':'}, |lib|);
    var after := rest[|lib| + 1..];
    var e := j - |lib| - 5;
    assert after[e] == '"' by {
      assert after[e] == line[j];
    }
    forall m | 0 <= m < e ensures after[m] !in {':', '"'} {
      assert after[m] == line[m + |lib| + 5];
    }
    RunWithoutAt(after, {':', '"'}, e);
  }

  /** `MatchLib` decides exactly the pattern's language, and its result is the captured library. */
  lemma MatchLibMeaning(line: string, lib: string)
    ensures MatchLib(line) == Some(lib) <==> Matches(line, lib)
  {
    if MatchLib(line) == Some(lib) {
      MatchLibSound(line);
    }
    if Matches(line, lib) {
      MatchLibComplete(line, lib);
    }
  }

  /** The new name the loop looks up for a library outside the valid set: table first, then the user. */
  function Lookup(lib: string, names: map<string, string>, opts: Options, reply: string -> string): string {
    if lib in names then names[lib] else if opts.interactive then reply(lib) else ""
  }

  /**
   * One pass of the loop body as written: the line it adds to the output (none when it
   * `continue`s) and the remapping table after it.
   */
  function StepAsWritten(line: string, valid: set<string>, names: map<string, string>, opts: Options, reply: string -> string)
    : (Option<string>, map<string, string>)
  {
    var m := MatchLib(line);
    if m.None? then (Some(line), names)
    else
      var lib := m.value;
      if lib in valid then (if opts.verbose > 1 then (None, names) else (Some(line), names))
      else
        var newName := Lookup(lib, names, opts, reply);
        if newName != "" && lib !in names then (Some(Replace(line, lib, newName)), names[lib := newName])
        else (Some(line), names)
  }

  /** The loop as written over all lines: the output text and the final table. */
  function RunAsWritten(lines: seq<string>, valid: set<string>, names: map<string, string>, opts: Options, reply: string -> string)
    : (string, map<string, string>)
    decreases |lines|
  {
    if lines == [] then ("", names)
    else
      var (out, names1) := StepAsWritten(lines[0], valid, names, opts, reply);
      var (rest, names2) := RunAsWritten(lines[1..], valid, names1, opts, reply);
      ((if out.Some? then out.value else "") + rest, names2)
  }

  /** As written, with `-vv` a line naming a valid library vanishes from the output. */
  lemma ValidLineDropped(line: string, lib: string, valid: set<string>, names: map<string, string>, opts: Options, reply: string -> string)
    requires Matches(line, lib) && lib in valid && opts.verbose > 1
    ensures RunAsWritten([line], valid, names, opts, reply).0 == ""
  {
    MatchLibComplete(line, lib);
    assert [line][1..] == [];
  }

  /** As written, a library found in the remapping table is never rewritten. */
  lemma TableNeverApplied(line: string, lib: string, valid: set<string>, names: map<string, string>, opts: Options, reply: string -> string)
    requires Matches(line, lib) && lib !in valid && lib in names
    ensures StepAsWritten(line, valid, names, opts, reply) == (Some(line), names)
  {
    MatchLibComplete(line, lib);
  }

  /** A concrete line of each kind the two defects above affect. */
  lemma ResistorLine()
    ensures Matches("F2 \"Resistors:R_0805\"\n", "Resistors")
  {
    var line := "F2 \"Resistors:R_0805\"\n";
    assert line[..14] == FIELD + "Resistors" + ":";
    assert NameEnd(line, "Resistors", 20);
  }

  /**
   * One pass of the loop body corrected: every line is kept; a line of a valid library is
   * copied unchanged; otherwise a non-empty new name, from the table or the user, is
   * recorded if new and substituted for every occurrence of the library in the line.
   */
  function Step(line: string, valid: set<string>, names: map<string, string>, opts: Options, reply: string -> string)
    : (string, map<string, string>)
  {
    var m := MatchLib(line);
    if m.None? || m.value in valid then (line, names)
    else
      var lib := m.value;
      var newName := Lookup(lib, names, opts, reply);
      if newName == "" then (line, names)
      else (Replace(line, lib, newName), if lib in names then names else names[lib := newName])
  }

  /** The corrected loop over all lines. */
  function Run(lines: seq<string>, valid: set<string>, names: map<string, string>, opts: Options, reply: string -> string)
    : (string, map<string, string>)
    decreases |lines|
  {
    if lines == [] then ("", names)
    else
      var (out, names1) := Step(lines[0], valid, names, opts, reply);
      var (rest, names2) := Run(lines[1..], valid, names1, opts, reply);
      (out + rest, names2)
  }

  /** The table only grows: entries already there keep their value. */
  predicate Extends(names: map<string, string>, bigger: map<string, string>) {
    forall k :: k in names ==> k in bigger && bigger[k] == names[k]
  }

  /**
   * What one corrected step does: lines that do not match, or name a valid library, at any
   * verbosity, are copied; a library in the table with a non-empty entry is substituted
   * everywhere in the line; the table only gains entries.
   */
  lemma StepMeaning(line: string, valid: set<string>, names: map<string, string>, opts: Options, reply: string -> string)
    ensures Extends(names, Step(line, valid, names, opts, reply).1)
    ensures (forall lib :: !Matches(line, lib)) ==> Step(line, valid, names, opts, reply) == (line, names)
    ensures forall lib :: Matches(line, lib) && lib in valid ==> Step(line, valid, names, opts, reply) == (line, names)
    ensures forall lib :: Matches(line, lib) && lib !in valid && lib in names && names[lib] != "" ==>
              Step(line, valid, names, opts, reply) == (Replace(line, lib, names[lib]), names)
    ensures forall lib :: Matches(line, lib) && lib !in valid && lib !in names && opts.interactive && reply(lib) != "" ==>
              Step(line, valid, names, opts, reply) == (Replace(line, lib, reply(lib)), names[lib := reply(lib)])
    ensures forall lib :: Matches(line, lib) && lib !in valid && lib in names && names[lib] == "" ==>
              Step(line, valid, names, opts, reply) == (line, names)
    ensures forall lib :: Matches(line, lib) && lib !in valid && lib !in names && (!opts.interactive || reply(lib) == "") ==>
              Step(line, valid, names, opts, reply) == (line, names)
  {
    if MatchLib(line).Some? {
      MatchLibSound(line);
    }
    forall lib | Matches(line, lib) {
      MatchLibComplete(line, lib);
    }
  }

  /** The output is the lines' outputs in input order: one more line adds its own output at the end. */
  lemma {:induction false} RunSnoc(lines: seq<string>, x: string, valid: set<string>, names: map<string, string>, opts: Options, reply: string -> string)
    ensures Run(lines + [x], valid, names, opts, reply) ==
              (Run(lines, valid, names, opts, reply).0 + Step(x, valid, Run(lines, valid, names, opts, reply).1, opts, reply).0,
               Step(x, valid, Run(lines, valid, names, opts, reply).1, opts, reply).1)
    decreases |lines|
  {
    if lines == [] {
      assert lines + [x] == [x];
      RunOne(x, valid, names, opts, reply);
    } else {
      var n1 := Step(lines[0], valid, names, opts, reply).1;
      assert (lines + [x])[0] == lines[0] && (lines + [x])[1..] == lines[1..] + [x];
      RunSnoc(lines[1..], x, valid, n1, opts, reply);
      RunCons(lines, valid, names, opts, reply);
      RunCons(lines + [x], valid, names, opts, reply);
      var out0 := Step(lines[0], valid, names, opts, reply).0;
      var rest := Run(lines[1..], valid, n1, opts, reply).0;
      var tail := Step(x, valid, Run(lines[1..], valid, n1, opts, reply).1, opts, reply).0;
      assert out0 + (rest + tail) == out0 + rest + tail;
    }
  }

  lemma RunOne(x: string, valid: set<string>, names: map<string, string>, opts: Options, reply: string -> string)
    ensures Run([x], valid, names, opts, reply) == ("" + Step(x, valid, names, opts, reply).0, Step(x, valid, names, opts, reply).1)
  {
    assert [x][1..] == [];
    var s := Step(x, valid, names, opts, reply);
    assert s.0 + "" == "" + s.0;
  }

  lemma RunCons(lines: seq<string>, valid: set<string>, names: map<string, string>, opts: Options, reply: string -> string)
    requires lines != []
    ensures var n1 := Step(lines[0], valid, names, opts, reply).1;
      Run(lines, valid, names, opts, reply) ==
        (Step(lines[0], valid, names, opts, reply).0 + Run(lines[1..], valid, n1, opts, reply).0,
         Run(lines[1..], valid, n1, opts, reply).1)
  {
  }

  lemma {:induction false} RunExtends(lines: seq<string>, valid: set<string>, names: map<string, string>, opts: Options, reply: string -> string)
    ensures Extends(names, Run(lines, valid, names, opts, reply).1)
    decreases |lines|
  {
    if lines != [] {
      StepMeaning(lines[0], valid, names, opts, reply);
      var n1 := Step(lines[0], valid, names, opts, reply).1;
      RunExtends(lines[1..], valid, n1, opts, reply);
    }
  }

  /** The corrected loop: every line goes to the output, rewritten or not, and the table is updated as it goes. */
  method Rewrite(lines: seq<string>, valid: set<string>, names0: map<string, string>, opts: Options, reply: string -> string)
    returns (output: string, names: map<string, string>)
    ensures (output, names) == Run(lines, valid, names0, opts, reply)
  {
    output := "";
    names := names0;
    for i := 0 to |lines|
      invariant (output, names) == Run(lines[..i], valid, names0, opts, reply)
    {
      RunSnoc(lines[..i], lines[i], valid, names0, opts, reply);
      assert lines[..i + 1] == lines[..i] + [lines[i]];
      var line := lines[i];
      var newName := "";
      var m := MatchLib(line);
      if m.Some? {
        var lib := m.value;
        if lib !in valid {
          if lib in names {
            newName := names[lib];
          } else if opts.interactive {
            newName := reply(lib);
          }
        }
        if newName != "" {
          if lib !in names {
            names := names[lib := newName];
          }
          line := Replace(line, lib, newName);
        }
      }
      output := output + line;
    }
    assert lines[..|lines|] == lines;
  }
}
