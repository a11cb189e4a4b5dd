# kicad-library-utils core, modelled in Dafny

This project models the core of SchrodingersGat/kicad-library-utils, a set of Python
scripts that check and generate KiCad symbol and footprint libraries. It covers:

- **S-expressions** (`common/sexpr.py`):
  - the tokenizer `term_regex`;
  - the explicit-stack reader `parse_sexp`;
  - the writers `SexprItem` and `build_sexp`;
  - the pretty-printer `format_sexp`;
  - the line-oriented `SexprBuilder` class.
- **Symbol library generator** (`libgen/libgen.py`): `Description`, `Component` and
  `DeviceLib`. These produce the `.lib` and `.dcm` texts.
- **Footprint association checker** (`check_symbol_footprints.py`):
  - it builds the map from footprint-library nickname to footprint names;
  - it classifies every symbol's footprint reference into one of four error maps.
- **Footprint reassignment** (`schlib/reassign_footprints.py`): the loop that rewrites
  `F2 "Library:Name"` lines whose library is not a valid one.
- **Library rules**:
  - rule 3.9 (`schlib/rules/rule3_9.py`): the default footprint field is hidden and
    well formed;
  - rule 10.2 (`pcb/rule10_2.py`): a footprint carries a description.
- **Code tables** (`schlib/kicad_defs.py`): pin types, pin directions, pin styles and
  fills.

Files and modules:

| file | module | contents |
|---|---|---|
| `wrappers.dfy` | `Wrappers` | `Option` and `Result`. These stand for Python's `None` and for raised exceptions. |
| `text.dfy` | `Text` | The string functions the scripts use: `str.split`, `str.join`, `str.replace`, `str.lower`, `startswith`/`endswith`, `str.count`, `str(int)` and Python's `<` on strings. Each comes with its algebra. |
| `sorting.dfy` | `Sorting` | `sorted(s, key=...)` as a stable insertion sort. |
| `sexpr.dfy`, `sexpr_roundtrip.dfy`, `sexpr_builder.dfy` | `Sexpr`, `SexprRoundTrip`, `SexprBuilding` | The S-expression code. |
| `libgen.dfy` | `LibGen` | The library generator. |
| `fpref.dfy` | `FootprintRef` | The `Library:Footprint` reference format. |
| `footprint_check.dfy` | `FootprintCheck` | The footprint association checker. |
| `reassign.dfy` | `Reassign` | The reassignment loop. |
| `rule3_9.dfy`, `rule10_2.dfy` | `Rule3_9`, `Rule10_2` | The two rules. |
| `kicad_defs.dfy` | `KicadDefs` | The code tables. |

Where state changes in place, the model does too:

- **Classes** with `modifies` clauses:
  - `SexprBuilder`, `Component` and `DeviceLib` are classes whose methods update their fields;
  - the four module-level error dictionaries of the checker are the fields of the `Report` class.
- **Methods with loops**, each proved equal to a recursive specification function:
  - `parse_sexp`, `format_sexp` and `Component.toString`;
  - the writing loops of `saveLib`/`saveDcm`;
  - the classification loop, the nickname-map loop and the reassignment loop.

The model follows the code on three points where a reader might expect otherwise:

- **Sort order.** `.lib` components and `.dcm` entries are sorted case-sensitively by
  name (`sorted(..., key=lambda c: c.description.name)`), not case-insensitively.
- **Duplicate aliases.** `addAlias` rejects an alias only when it matches another
  alias. The component's own primary name is not checked.
- **`is not 1`.** In rule 3.9, `count(":") is not 1` is taken as `!= 1`, which is what
  CPython does for small integers.

## Model

| member | source | states |
|---|---|---|
| Sexpr.TokenTexts | common/sexpr.py:10-17 | Every token the tokenizer yields has non-empty text that does not start with a space, and a bare symbol holds only characters of `[^(^)\s]`. |
| Sexpr.NumberBeforeDelimiter | common/sexpr.py:14 | Digits directly followed by a space or `)` are read as one number token. |
| Sexpr.DigitsBeforeOtherBreak | common/sexpr.py:14-16 | Digits followed by any other break (a line break, a tab, `(`) fail the lookahead and are read as a bare symbol. |
| Sexpr.DigitsAtEnd | common/sexpr.py:14-16 | Digits at the very end of the text have no lookahead and are a bare symbol. |
| Sexpr.QuotedToken | common/sexpr.py:15 | `"…"` is one token whose value is the text between the quotes, with no escape processing. |
| Sexpr.SkipLayout | common/sexpr.py:10-17 | Any run of whitespace and `^` in front of a text leaves the tokens read from it unchanged. |
| Sexpr.ReadItemsAppend | common/sexpr.py:19-44 | Reading is compositional: reading s + t continues where reading s stopped. |
| Sexpr.JoinedUnclosed | common/sexpr.py:43 | Text that ends with a list still open fails with UnclosedList. |
| Sexpr.UnmatchedAt | common/sexpr.py:30 | A `)` with no list open fails with UnmatchedClose. |
| Sexpr.AtomFailureAt | common/sexpr.py:33-36 | A number with a non-zero fraction ends the read with FractionalNumber. |
| Sexpr.EndOfTokens | common/sexpr.py:43-44 | After the last token: fail if a list is open, fail if nothing was read, otherwise return the first top-level element. |
| Sexpr.ParseSexp | common/sexpr.py:19-44 | The explicit-stack loop computes exactly the recursive-descent reading of the token sequence, errors included. |
| Sexpr.ReprPlain | common/sexpr.py:103 | `repr(s)[1:-1]` is s itself for printable text without quotes or backslashes. |
| Sexpr.ReprOneLine | common/sexpr.py:188 | `repr` never writes a line break. |
| Sexpr.SexprDictSingle | common/sexpr.py:91-95 | A one-entry dict is written exactly as the keyed item `(key value)`. |
| Sexpr.SexprItemOneLine | common/sexpr.py:79-105 | `SexprItem` writes a single line. |
| Sexpr.BuildSexpOneLine | common/sexpr.py:180-200 | `build_sexp` writes a single line. |
| Sexpr.Indent | common/sexpr.py:212 | `' ' * indentation_size * n` is `indentation_size * n` spaces when both are positive, and empty otherwise. |
| Sexpr.LayoutFirst | common/sexpr.py:205-228 | The first token starts the text, with nothing before it. |
| Sexpr.LayoutBreak | common/sexpr.py:208-212 | A later `(` at depth at most max_nesting directly follows the previous token's own text (an atom's space dropped), then a line break and `indentation_size` spaces per open level. |
| Sexpr.LayoutDeepOpen | common/sexpr.py:213-214 | A deeper `(` stays on the line: after an atom it follows the atom's space, after a `)` it gets one space, after a `(` nothing. |
| Sexpr.LayoutClose | common/sexpr.py:216-217 | A `)` directly follows the previous token's own text; no space comes before it. |
| Sexpr.LayoutAtoms | common/sexpr.py:219-224 | Two atoms in a row are separated by exactly one space. |
| Sexpr.LayoutNested | common/sexpr.py:202-231 | The tokens of `(a (b))` with size 2 and max_nesting 2 give `(a`, a line break, `  (b))` and a final line break. |
| Sexpr.LayoutFlat | common/sexpr.py:202-231 | The same tokens with max_nesting 0 stay on one line: `(a (b))` and a line break. |
| Sexpr.LayoutNegativeSize | common/sexpr.py:212 | A negative indentation size gives no indentation, even at a negative depth: `) (a)` becomes `)`, a line break, `(a)` and a line break. |
| Sexpr.FormatToken | common/sexpr.py:206-228 | One pass of the loop: the depth moves by one at a paren; apart from spaces and line breaks the text grows by exactly the token's text; a line break is added only for a `(` at depth at most max_nesting; the text never starts with a space. |
| Sexpr.FormatOpen | common/sexpr.py:208-215 | For `(`: apart from spaces and line breaks the text grows by `(` alone, with one line break exactly when the text is non-empty and the depth is at most max_nesting. |
| Sexpr.FormatClose | common/sexpr.py:216-218 | For `)`: apart from spaces and line breaks the text grows by `)` alone, with no line break; at most one trailing space is dropped. |
| Sexpr.FormatAtom | common/sexpr.py:219-224 | An atom adds its own text and one space, and no line break beyond those in its text. |
| Sexpr.WrittenStep | common/sexpr.py:205-228 | Each pass keeps the text equal to the layout of the tokens seen so far, with the last atom's space still in place. |
| Sexpr.FormatTokens | common/sexpr.py:205-229 | The loop writes the layout of all tokens, holding their texts in order apart from spaces and line breaks, with one line break per breaking `(`. |
| Sexpr.FormatSexp | common/sexpr.py:202-231 | The output is exactly the layout of the tokens (per-token rules above) followed by one line break. Apart from spaces and line breaks it holds the tokens' texts in order, and it has one line break per `(` at depth at most max_nesting (other than the first token), plus the final one. |
| SexprRoundTrip.DecimalPrefix | common/sexpr.py:14-16 | A decimal match that runs past the end of a bare symbol's text means the symbol is itself a decimal numeral. |
| SexprRoundTrip.PlainToken | common/sexpr.py:14-16 | A plain symbol followed by a space or `)` is read back as that symbol. |
| SexprRoundTrip.FixedToken | common/sexpr.py:190 | The `%.2f` text of an int, followed by a space or `)`, is one number token. |
| SexprRoundTrip.IntToken | common/sexpr.py:99 | `str(i)` followed by a space or `)` is one number token. |
| SexprRoundTrip.NumberValueOfInt | common/sexpr.py:34-35 | `float()` of `str(i)` or of `str(i) + ".00"` is integral and gives back i, on exact integers (rounding of large ints through a float is left out). |
| SexprRoundTrip.ReadsBack | common/sexpr.py:19-44 | The tokens of a buildable value are read as exactly that value, with nothing left. |
| SexprRoundTrip.BuiltTokens | common/sexpr.py:180-200 | The text `build_sexp` writes for a buildable value is tokenized as that value's tokens. |
| SexprRoundTrip.BuildThenRead | common/sexpr.py:180-200 | `parse_sexp(build_sexp(xs)) == xs` for lists of ints and of strings that are empty, plain symbols, or printable text with a space or parenthesis; ints are exact (rounding of large ints through a float is left out). |
| SexprRoundTrip.ItemThenRead | common/sexpr.py:79-105 | `parse_sexp(SexprItem(v, key))` is the list `[key, v]` for a plain key without braces and an int or string value. |
| Sorting.InsertSorted | libgen/libgen.py:125 | Inserting into a sorted list keeps it sorted. |
| Sorting.InsertMultiset | libgen/libgen.py:125 | Inserting adds exactly the one element. |
| Sorting.SortByCorrect | libgen/libgen.py:145 | `sorted` returns a sorted permutation. Elements with equal keys stay in their original order. |
| SexprBuilding.SexprBuilder.constructor | common/sexpr.py:108-113 | Empty builder; with a key it has opened the group `(key ` on the first line. |
| SexprBuilding.SexprBuilder.WriteIndent | common/sexpr.py:115-116 | Appends two spaces per indent level. |
| SexprBuilding.SexprBuilder.WriteNewline | common/sexpr.py:118-119 | Appends a line break. |
| SexprBuilding.SexprBuilder.FlushItems | common/sexpr.py:121-123 | Appends the pending items joined by spaces and empties them; the text so far is unchanged. |
| SexprBuilding.SexprBuilder.StartGroup | common/sexpr.py:125-134 | Flushes, optionally indents and breaks the line, then opens `(key `; the earlier text is kept as a prefix. |
| SexprBuilding.SexprBuilder.EndGroup | common/sexpr.py:136-143 | Flushes, optionally breaks the line one level shallower (never below 0), then closes `)`. |
| SexprBuilding.SexprBuilder.AddOptItem | common/sexpr.py:145-149 | None, 0 and False change nothing; otherwise the item is added as a one-entry dict. |
| SexprBuilding.SexprBuilder.AddItem | common/sexpr.py:151-157 | Flushes, optionally breaks the line, and leaves exactly the item's text pending. |
| SexprBuilding.SexprBuilder.AddItems | common/sexpr.py:160-167 | Flushes, optionally indents and breaks the line, and leaves the rendered arguments pending, in order. |
| SexprBuilding.SexprBuilder.NewLine | common/sexpr.py:169-174 | Flushes, breaks the line and indents, optionally one level deeper. |
| SexprBuilding.SexprBuilder.UnIndent | common/sexpr.py:176-178 | One level shallower, never below 0; nothing else changes. |
| LibGen.SameNameIgnoresCase | libgen/libgen.py:12-13 | Two descriptions are equal exactly when their names are equal ignoring case. |
| LibGen.DescriptionLines | libgen/libgen.py:15-24 | A `.dcm` entry is six lines: `#`, `$CMP name`, `D …`, `K …`, `F …`, `$ENDCMP`, each ended by a line break. |
| LibGen.BackFill | libgen/libgen.py:45-51 | Each blank field of an alias takes the primary's value; non-blank fields and the name are kept. |
| LibGen.BackFillIdempotent | libgen/libgen.py:45-51 | Back-filling twice is the same as once. |
| LibGen.AddKeepsDistinct | libgen/libgen.py:42-53 | Adding an alias that is not yet listed keeps alias names distinct ignoring case. |
| LibGen.FootprintArgIgnored | libgen/libgen.py:36 | As written, whenever `footprint` is given and `footrint` is not, the stored footprint is None; the corrected lookup stores the `footprint` value. |
| LibGen.FootprintArg | libgen/libgen.py:36 | Corrected: the footprint is present exactly when a `footprint` keyword was given, and it is that keyword's value. |
| LibGen.FootprintListFails | libgen/libgen.py:81-82 | As written, every component with a non-empty filter list fails on the undefined name `fp`. The corrected block is `$FPLIST`, one line per filter (a space and the filter, in order), then `$ENDFPLIST`. |
| LibGen.ComponentLayout | libgen/libgen.py:55-94 | A component block starts `#`, `# name`, `#`, `DEF …` and ends `DRAW`, `ENDDRAW`, `ENDDEF`. It has 7 lines, plus 1 for aliases, plus the filters and 2 when there are filters. |
| LibGen.AliasLine | libgen/libgen.py:74-75 | The `ALIAS` line is present exactly when there are aliases, and lists their names in order. |
| LibGen.DefaultDefLine | libgen/libgen.py:60-68 | Without keywords the `DEF` line uses the defaults `0 40 Y Y 1 F N`. |
| LibGen.Component.constructor | libgen/libgen.py:27-36 | The designator is the `ref` keyword or `U`; there are no aliases and no filters; the footprint comes from the `footprint` keyword. |
| LibGen.Component.AddAlias | libgen/libgen.py:38-53 | An alias already listed (ignoring case) fails and changes nothing. Otherwise its back-filled copy is appended. Alias names stay distinct; no other field changes. |
| LibGen.Component.ToString | libgen/libgen.py:55-94 | The loop builds exactly the component block, each line ended by lf. |
| LibGen.LibFileOrder | libgen/libgen.py:118-128 | The `.lib` text is the header, the component blocks in ascending case-sensitive order of primary name (stable), and the footer. |
| LibGen.EntriesCover | libgen/libgen.py:138-143 | The `.dcm` entries hold every component's description and every alias: one entry per component plus one per alias. |
| LibGen.DcmFileOrder | libgen/libgen.py:130-150 | The `.dcm` text is the header, all entries sorted by name (stable), and the footer. |
| LibGen.WriteComponents | libgen/libgen.py:126-127 | The write loop appends the component blocks in order. |
| LibGen.WriteDescriptions | libgen/libgen.py:147-148 | The write loop appends the description blocks in order. |
| LibGen.DeviceLib.constructor | libgen/libgen.py:104-106 | A named library with no components. |
| LibGen.DeviceLib.AddComponent | libgen/libgen.py:108-112 | Appends the component; the name is unchanged. |
| LibGen.DeviceLib.LibText | libgen/libgen.py:118-128 | The text `saveLib` writes is exactly the `.lib` file of the components. |
| LibGen.DeviceLib.Gather | libgen/libgen.py:138-143 | The nested loop collects each component's description followed by its aliases, in order. |
| LibGen.DeviceLib.DcmText | libgen/libgen.py:130-150 | The text `saveDcm` writes is exactly the `.dcm` file of the components. |
| FootprintRef.ColonCountForm | schlib/rules/rule3_9.py:38 | One colon, neither first nor last, holds exactly when the text is `Library:Footprint` with both parts non-empty. |
| FootprintRef.SplitForm | check_symbol_footprints.py:117-119 | Splitting on `:` gives two non-empty parts exactly when the text is `Library:Footprint`. |
| FootprintCheck.Added | check_symbol_footprints.py:68-72 | `addError` appends the pair under its library, creating the list if needed; other libraries are unchanged. |
| FootprintCheck.ClassifyMeaning | check_symbol_footprints.py:110-137 | A symbol is empty iff it has no footprint. It is a pattern error iff the reference is not `Library:Footprint`. It is a nickname error iff the library is unknown, and a name error iff the library is known but lacks the name. Otherwise it is valid. |
| FootprintCheck.Partition | check_symbol_footprints.py:106-137 | Every symbol falls in exactly one class. |
| FootprintCheck.RecordedMeaning | check_symbol_footprints.py:101-137 | Checking a library appends its symbols of a class, in order, under the library's key, and leaves every other key alone. |
| FootprintCheck.Report.constructor | check_symbol_footprints.py:63-66 | Four empty error maps. |
| FootprintCheck.Report.AddError | check_symbol_footprints.py:68-72 | Only the chosen map changes, by `addError`. |
| FootprintCheck.Report.CheckLibrary | check_symbol_footprints.py:106-137 | The loop with its early `continue`s records each symbol in the map of its class, as RecordedMeaning describes. |
| FootprintCheck.LibraryMapKeys | check_symbol_footprints.py:86-97 | A nickname is a key exactly when some `.pretty` directory has that nickname. |
| FootprintCheck.LibraryMapValues | check_symbol_footprints.py:86-97 | Each nickname maps to the footprint names of the last directory with that nickname. |
| FootprintCheck.NicknameStrips | check_symbol_footprints.py:96 | The nickname of `name.pretty` is `name`, for a name without `/` in which `.pretty` occurs nowhere but at the end. |
| FootprintCheck.BuildLibraryMap | check_symbol_footprints.py:86-97 | The loop builds exactly the nickname map. |
| Rule3_9.UnquoteMeaning | schlib/rules/rule3_9.py:25-26 | Text that starts and ends with `"` is exactly `"` + the result + `"` (a lone `"` gives empty text); other text is unchanged. |
| Rule3_9.OutcomeMeaning | schlib/rules/rule3_9.py:12-48 | The rule fails exactly when field 2 holds text that is visible, malformed or has an illegal character. There are at most three reports, all HIGH. The only warning is the first report, for visibility. |
| Rule3_9.ColonAlwaysIllegal | schlib/rules/rule3_9.py:43-46 | As written, every hidden, well-formed reference fails with "illegal filename characters", because of its own colon. |
| Rule3_9.WellFormedPasses | schlib/rules/rule3_9.py:37-46 | Corrected, a hidden, well-formed reference with no illegal character passes with no reports. |
| Rule3_9.Check | schlib/rules/rule3_9.py:12-48 | `check`, with the corrected illegal set (no `:`), computes exactly the outcome and reports OutcomeMeaning describes. |
| Rule3_9.CheckText | schlib/rules/rule3_9.py:31-46 | The three tests run in order, each adding its report; the rule fails iff there is a report. |
| Rule3_9.IllegalIn | schlib/rules/rule3_9.py:44 | The loop finds an illegal character exactly when the name holds one. |
| Rule3_9.Fix | schlib/rules/rule3_9.py:50-54 | `fix` reports only the NORMAL/INFO notice that fixing is not supported. |
| Rule10_2.Check | pcb/rule10_2.py:12-16 | Fails exactly when the description is missing or empty. |
| Rule10_2.Fix | pcb/rule10_2.py:18-24 | Nothing is changed, failing or not. |
| Reassign.MatchLibMeaning | schlib/reassign_footprints.py:91-98 | The scanner matches exactly the pattern's language, and its group is the library name. |
| Reassign.ResistorLine | schlib/reassign_footprints.py:91 | `F2 "Resistors:R_0805"` matches with library `Resistors`. |
| Reassign.ValidLineDropped | schlib/reassign_footprints.py:100-103 | As written, with `-vv` a line naming a valid library is dropped from the output. |
| Reassign.TableNeverApplied | schlib/reassign_footprints.py:106-115 | As written, a library found in the remapping table is never rewritten. |
| Reassign.StepMeaning | schlib/reassign_footprints.py:95-117 | Corrected step: the table only grows. Non-matching and valid lines are copied unchanged at any verbosity. A library with a non-empty table entry is replaced throughout the line. An unknown library, in interactive mode with a non-blank answer, is replaced by the answer, which is recorded. A blank entry, a blank answer or no interactive mode leaves the line and the table as they are. |
| Reassign.RunSnoc | schlib/reassign_footprints.py:89-117 | The output is the lines' outputs in input order. |
| Reassign.RunExtends | schlib/reassign_footprints.py:111-113 | The table only grows over a whole file. |
| Reassign.Rewrite | schlib/reassign_footprints.py:86-117 | The corrected loop computes exactly the corrected fold. |
| KicadDefs.ParsePinType | schlib/kicad_defs.py:3-15 | A code parses exactly when it is an allowed pin type, to the type whose code it is. |
| KicadDefs.PinTypeRoundTrip | schlib/kicad_defs.py:3-15 | Every pin type's code is allowed, parses back to it, and maps to its description. |
| KicadDefs.ParsePinDir | schlib/kicad_defs.py:20-25 | The same for directions. |
| KicadDefs.PinDirRoundTrip | schlib/kicad_defs.py:20-25 | The same for directions. |
| KicadDefs.ParsePinStyle | schlib/kicad_defs.py:29-38 | The same for styles, the empty code included. |
| KicadDefs.PinStyleRoundTrip | schlib/kicad_defs.py:29-38 | The same for styles. |
| KicadDefs.ParseFill | schlib/kicad_defs.py:42-46 | The same for fills. |
| KicadDefs.FillRoundTrip | schlib/kicad_defs.py:42-46 | The same for fills. |
| KicadDefs.PinTypesSize | schlib/kicad_defs.py:3-18 | The allowed pin types, the key set of the map, are exactly 11. |
| KicadDefs.PinDirsSize | schlib/kicad_defs.py:20-27 | Exactly 4 directions. |
| KicadDefs.PinStylesSize | schlib/kicad_defs.py:29-40 | Exactly 8 styles. |
| KicadDefs.ShapeFillsSize | schlib/kicad_defs.py:42-48 | Exactly 3 fills. |
| KicadDefs.CaseSensitive | schlib/kicad_defs.py:3-46 | `W`/`w` and `F`/`f` are different values, and a code in the other case is refused. |

## Left out

**I/O and the command line**
- Reading and writing files, directory listings, `os.path`, `argparse` and every `print`. Files are modelled as their text, and directories as a name with the list of their file names.
- The `os.path.isdir` and `os.path.exists` tests. Directory names are taken as given.
- The `-r`/`--real` and `-f`/`--force` options. The JSON remapping file is modelled as the map it loads.
- The `verbose` argument only decides the `-vv` drop in the as-written step; the corrected step keeps every line.
- Interactive answers are a function from library to reply. The same library always gets the same answer, and the user is asked again for a library whose previous answer was blank.

**Numbers and values**
- Floating point. The reader reads a number with a non-zero fraction as the error FractionalNumber. `SexprItem`'s and `build_sexp`'s float branches are not modelled.
- Tuples and dicts in `build_sexp`. `'%s' % exp` treats a tuple as its argument list: a one-element tuple writes its element, and any other tuple raises `TypeError`. A dict is written by Python's `str`. Neither is modelled; `build_sexp` is modelled on lists, strings and ints.
- Non-ASCII case folding in `str.lower()`; only ASCII letters are folded.
- Library `kwargs` values are modelled as their `str` text.

**Text and templates**
- Sexpr.SexprItem: the key is spliced into a `str.format` template, so a key holding `{` or `}` raises or is rewritten (`{{` becomes `{`). The model writes the key literally, and the round-trip lemma asks for a key without braces. The same applies to the keys of Sexpr.SexprDict and SexprBuilding.SexprBuilder.AddOptItem.
- Sexpr.Tokenize, Text.IsSpace and Text.IsDigit: Python 3's `\s` and `\d` also match non-ASCII whitespace and digits; the model takes the ASCII ones only.
- Sexpr.ReprChar: Python 3's `repr` also escapes non-printable non-ASCII characters (such as `\x85`, `\xa0` and `\u2028`); the model passes every non-ASCII character through.

**Large integers**
- Sexpr.NumberValue, Sexpr.BuildLeaf, SexprRoundTrip.NumberValueOfInt and SexprRoundTrip.BuildThenRead: ints are exact. The source reads a number through `float()` and writes an int with `'%.2f'`, so an int beyond 2^53 is rounded to the nearest float; the model does not capture that rounding.

**Types and objects**
- Type checks that raise `TypeError`. Dafny's types make them impossible.
- LibGen.Component.AddAlias: does not model the in-place mutation of the caller's `Description` object. The stored alias is a back-filled copy, and a misspelt `ValueEror` is modelled as the DuplicateAlias failure, because either way the call fails and the aliases are unchanged.
- `Description.toString` for `.dcm` entries and `Component.toString` for `.lib` blocks are called without `lf` in `saveLib`/`saveDcm`. They always use a line break, as the code does.
- Dict iteration order is modelled as the order of the entries given.

**Code outside this model**
- The first, unfinished `SexprBuilder` class (common/sexpr.py:46-76). It is replaced by the second definition of the same name and cannot run.
- `dbg` printing in `parse_sexp`.
- `printError` and the final printing of the checker.
- schlib/schlib.py (`SchLib`, `hasFootprint`, `getFootprint`) is not part of this model. A symbol is its name and its optional footprint text.
- schlib/rules/rule.py (`KLCRule`, `verboseOut`) is not part of this model. Reports are returned as a list.
- The footprint module of rule 10.2 is not part of this model beyond its description.
- make_pretty_table.py, schlib/libstats.py, add-tags.py and libgen/gentest.py are scripts around the core and are not modelled.

## Findings

| source | as written | input that shows it | evidently intended | confidence | as-written member | corrected member |
|---|---|---|---|---|---|---|
| schlib/rules/rule3_9.py:43 | `:` is among the illegal file-name characters | A hidden field 2 `Device:R` | only file-name characters are illegal; the colon is the separator the previous test requires | not executed | Rule3_9.ColonAlwaysIllegal | Rule3_9.WellFormedPasses |
| libgen/libgen.py:82 | the loop appends `" " + fp`, but its variable is `f` and `fp` is undefined | a component with fplist `["SOIC*"]` | `" " + f` | not executed | LibGen.FootprintListFails | LibGen.Component.ToString |
| libgen/libgen.py:36 | the footprint keyword is looked up as `footrint` | `Component(d, footprint="Package_SO:SOIC-8")` | look up `footprint` | not executed | LibGen.FootprintArgIgnored | LibGen.FootprintArg |
| schlib/reassign_footprints.py:103 | the `continue` sits under the `-vv` print, so the line is never added to the output | `-vv`, line `F2 "Resistors:R_0805"` with `Resistors` valid | print and keep the line | not executed | Reassign.ValidLineDropped | Reassign.StepMeaning |
| schlib/reassign_footprints.py:112 | the replacement is guarded by `not fp_lib in fp_lib_names`, so a library found in the table is never replaced | JSON `{"Resistors": "Resistor_SMD"}`, line `F2 "Resistors:R_0805"`, `Resistors` not valid | replace whenever a non-empty new name was found; record it only when new | not executed | Reassign.TableNeverApplied | Reassign.Rewrite |
