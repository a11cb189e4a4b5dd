/**
 * The legacy KiCad symbol-library generator of libgen/libgen.py: component
 * descriptions, components with aliases, and a device library that renders the
 * `.lib` and `.dcm` file texts in sorted order.
 */
module LibGen {
  import opened Wrappers
  import opened Text
  import opened Sorting

  const LIB_HEADER := "EESchema-LIBRARY Version 2.3"
  const LIB_FOOTER := "#End Library"
  const DCM_HEADER := "EESchema-DOCLIB  Version 2.0"
  const DCM_FOOTER := "#End Doc Library"

  datatype LibError =
    | DuplicateAlias(name: string)   // addAlias on a name already among the aliases
    | UndefinedName(name: string)    // a Python NameError

  /** A symbol's documentation record. */
  datatype Description = Description(name: string, description: string, keywords: string, datasheet: string)

  /** `Description.__eq__`: names equal ignoring case. */
  predicate SameName(a: Description, b: Description) {
    Lower(a.name) == Lower(b.name)
  }

  /** Equality of descriptions looks only at the names, letter by letter up to case. */
  lemma SameNameIgnoresCase(a: Description, b: Description)
    ensures SameName(a, b) <==>
              |a.name| == |b.name| && forall i :: 0 <= i < |a.name| ==> LowerChar(a.name[i]) == LowerChar(b.name[i])
  {
    LowerEqual(a.name, b.name);
  }

  /** The six lines of a `.dcm` entry. */
  function EntryLines(d: Description): seq<string> {
    ["#", "$CMP " + d.name, "D " + d.description, "K " + d.keywords, "F " + d.datasheet, "$ENDCMP"]
  }

  /** `Description.toString(lf)`. */
  function DescriptionText(d: Description, lf: string): (r: string)
    ensures r == Join(EntryLines(d), lf) + lf
  {
    var lines := ["#", "$CMP " + d.name, "D " + d.description, "K " + d.keywords, "F " + d.datasheet];
    JoinTrailing(lines, "$ENDCMP", lf);
    assert lines + ["$ENDCMP"] == EntryLines(d);
    Join(lines + ["$ENDCMP" + lf], lf)
  }

  predicate NoNewline(s: string) {
    '\n' !in s
  }

  predicate PlainDescription(d: Description) {
    NoNewline(d.name) && NoNewline(d.description) && NoNewline(d.keywords) && NoNewline(d.datasheet)
  }

  /** With newline-free fields, a `.dcm` entry is exactly six lines, each ended by a newline. */
  lemma DescriptionLines(d: Description)
    requires PlainDescription(d)
    ensures Split(DescriptionText(d, "\n"), '\n') ==
              ["#", "$CMP " + d.name, "D " + d.description, "K " + d.keywords, "F " + d.datasheet, "$ENDCMP", ""]
  {
    var lines := EntryLines(d);
    forall i | 0 <= i < |lines| ensures '\n' !in lines[i] {
      NewlineFree(lines, i, d);
    }
    LinesText(lines);
  }

  lemma NewlineFree(lines: seq<string>, i: int, d: Description)
    requires PlainDescription(d) && lines == EntryLines(d) && 0 <= i < |lines|
    ensures '\n' !in lines[i]
  {
    var tags := ["#", "$CMP ", "D ", "K ", "F ", "$ENDCMP"];
    var fields := ["", d.name, d.description, d.keywords, d.datasheet, ""];
    assert lines[i] == tags[i] + fields[i];
    assert '\n' !in tags[i] && '\n' !in fields[i];
  }

  /** The alias as stored by addAlias: its blank fields filled from the primary description. */
  function BackFill(alias: Description, primary: Description): (r: Description)
    ensures r.name == alias.name
    ensures alias.description != "" ==> r.description == alias.description
    ensures alias.description == "" ==> r.description == primary.description
    ensures alias.keywords != "" ==> r.keywords == alias.keywords
    ensures alias.keywords == "" ==> r.keywords == primary.keywords
    ensures alias.datasheet != "" ==> r.datasheet == alias.datasheet
    ensures alias.datasheet == "" ==> r.datasheet == primary.datasheet
  {
    alias.(
      description := if alias.description == "" then primary.description else alias.description,
      keywords := if alias.keywords == "" then primary.keywords else alias.keywords,
      datasheet := if alias.datasheet == "" then primary.datasheet else alias.datasheet)
  }

  /** Back-filling twice from the same primary changes nothing more. */
  lemma BackFillIdempotent(alias: Description, primary: Description)
    ensures BackFill(BackFill(alias, primary), primary) == BackFill(alias, primary)
  {
    var b := BackFill(alias, primary);
    var bb := BackFill(b, primary);
    assert bb.description == b.description;
    assert bb.keywords == b.keywords;
    assert bb.datasheet == b.datasheet;
  }

  /** `alias in self.aliases`, which compares with `__eq__`. */
  predicate Listed(aliases: seq<Description>, alias: Description) {
    exists i :: 0 <= i < |aliases| && SameName(aliases[i], alias)
  }

  /** No two aliases have the same name up to case. */
  ghost predicate DistinctNames(aliases: seq<Description>) {
    forall i, j :: 0 <= i < j < |aliases| ==> !SameName(aliases[i], aliases[j])
  }

  /** Appending an alias that is not listed, back-filled, keeps the names distinct. */
  lemma AddKeepsDistinct(aliases: seq<Description>, alias: Description, primary: Description)
    requires DistinctNames(aliases) && !Listed(aliases, alias)
    ensures DistinctNames(aliases + [BackFill(alias, primary)])
  {
    var r := aliases + [BackFill(alias, primary)];
    forall i, j | 0 <= i < j < |r| ensures !SameName(r[i], r[j]) {
      if j == |aliases| {
        assert r[i] == aliases[i];
        assert !SameName(aliases[i], alias);
      } else {
        assert r[i] == aliases[i] && r[j] == aliases[j];
      }
    }
  }

  /** `kwargs.get(key, default)`, the keyword values held as their text. */
  function Get(kwargs: map<string, string>, key: string, default: string): (r: string)
    ensures key in kwargs ==> r == kwargs[key]
    ensures key !in kwargs ==> r == default
  {
    if key in kwargs then kwargs[key] else default
  }

  /** The footprint keyword as the constructor reads it: under the misspelled key `footrint`. */
  function FootprintArgAsWritten(kwargs: map<string, string>): Option<string> {
    if "footrint" in kwargs then Some(kwargs["footrint"]) else None
  }

  /**
   * A footprint passed as `footprint=` is lost by the constructor as written, whatever its
   * value: only a (misspelled) `footrint=` keyword would be stored.
   */
  lemma FootprintArgIgnored(kwargs: map<string, string>)
    requires "footprint" in kwargs && "footrint" !in kwargs
    ensures FootprintArgAsWritten(kwargs) == None
    ensures FootprintArg(kwargs) == Some(kwargs["footprint"])
  {
  }

  /** The footprint keyword under its intended key `footprint`. */
  function FootprintArg(kwargs: map<string, string>): (r: Option<string>)
    ensures r.Some? <==> "footprint" in kwargs
    ensures r.Some? ==> r.value == kwargs["footprint"]
  {
    if "footprint" in kwargs then Some(kwargs["footprint"]) else None
  }

  /** The part of a component its text is made from. */
  datatype ComponentRecord = ComponentRecord(
    designator: string,
    description: Description,
    aliases: seq<Description>,
    kwargs: map<string, string>,
    fplist: seq<string>)

  function PrimaryName(r: ComponentRecord): string {
    r.description.name
  }

  function DescriptionName(d: Description): string {
    d.name
  }

  /** The `DEF` line, with the defaults 40, Y, Y, 1, F, N for absent keywords. */
  function DefLine(r: ComponentRecord): string {
    "DEF " + r.description.name + " " + r.designator + " 0 " + Get(r.kwargs, "text_offset", "40")
    + " " + Get(r.kwargs, "draw_pinnumber", "Y") + " " + Get(r.kwargs, "draw_pinname", "Y")
    + " " + Get(r.kwargs, "unit_count", "1") + " " + Get(r.kwargs, "units_locked", "F")
    + " " + Get(r.kwargs, "option", "N")
  }

  function AliasNames(aliases: seq<Description>): (r: seq<string>)
    ensures |r| == |aliases| && forall i :: 0 <= i < |r| ==> r[i] == aliases[i].name
  {
    seq(|aliases|, i requires 0 <= i < |aliases| => aliases[i].name)
  }

  function FpLines(fplist: seq<string>): (r: seq<string>)
    ensures |r| == |fplist| && forall i :: 0 <= i < |r| ==> r[i] == " " + fplist[i]
  {
    seq(|fplist|, i requires 0 <= i < |fplist| => " " + fplist[i])
  }

  function Heading(r: ComponentRecord): seq<string> {
    ["#", "# " + r.description.name, "#", DefLine(r)]
  }

  function AliasPart(r: ComponentRecord): seq<string> {
    if |r.aliases| > 0 then ["ALIAS " + Join(AliasNames(r.aliases), " ")] else []
  }

  function FpPart(r: ComponentRecord): seq<string> {
    if |r.fplist| > 0 then ["$FPLIST"] + FpLines(r.fplist) + ["$ENDFPLIST"] else []
  }

  /** The lines of `Component.toString`, with the footprint loop writing each entry `f`. */
  function ComponentLines(r: ComponentRecord): seq<string> {
    Heading(r) + AliasPart(r) + FpPart(r) + ["DRAW", "ENDDRAW", "ENDDEF"]
  }

  /** `Component.toString(lf)` with the footprint loop corrected to write its loop variable. */
  function ComponentText(r: ComponentRecord, lf: string): string {
    Join(ComponentLines(r), lf) + lf
  }

  /** `Component.toString(lf)` as written: a non-empty footprint list reaches the undefined name `fp`. */
  function ComponentTextAsWritten(r: ComponentRecord, lf: string): Result<string, LibError> {
    if |r.fplist| > 0 then Failure(UndefinedName("fp")) else Success(ComponentText(r, lf))
  }

  /**
   * No component with a footprint filter can be rendered as written, whatever the line
   * ending; corrected, the filters appear in order, one ` filter` line each, between
   * `$FPLIST` and `$ENDFPLIST` right after the heading and alias lines.
   */
  lemma FootprintListFails(r: ComponentRecord, lf: string)
    requires |r.fplist| > 0
    ensures ComponentTextAsWritten(r, lf) == Failure(UndefinedName("fp"))
    ensures var pre := |Heading(r) + AliasPart(r)|;
      && ComponentLines(r)[pre] == "$FPLIST"
      && (forall k :: 0 <= k < |r.fplist| ==> ComponentLines(r)[pre + 1 + k] == " " + r.fplist[k])
      && ComponentLines(r)[pre + 1 + |r.fplist|] == "$ENDFPLIST"
  {
    var pre := Heading(r) + AliasPart(r);
    var block := ["$FPLIST"] + FpLines(r.fplist) + ["$ENDFPLIST"];
    assert ComponentLines(r) == pre + block + ["DRAW", "ENDDRAW", "ENDDEF"];
    forall k | 0 <= k < |r.fplist|
      ensures ComponentLines(r)[|pre| + 1 + k] == " " + r.fplist[k]
    {
      assert block[1 + k] == FpLines(r.fplist)[k];
    }
  }

  /**
   * The frame of a component block: `#`, `# name`, `#` and the `DEF` line first, `DRAW`,
   * `ENDDRAW`, `ENDDEF` last, one line per alias line and footprint filter in between.
   */
  lemma ComponentLayout(r: ComponentRecord)
    ensures |ComponentLines(r)| == 7 + (if |r.aliases| > 0 then 1 else 0) + (if |r.fplist| > 0 then |r.fplist| + 2 else 0)
    ensures ComponentLines(r)[..4] == ["#", "# " + r.description.name, "#", DefLine(r)]
    ensures ComponentLines(r)[|ComponentLines(r)| - 3..] == ["DRAW", "ENDDRAW", "ENDDEF"]
  {
    var lines := ComponentLines(r);
    assert lines[..4] == Heading(r);
    assert lines[|lines| - 3..] == ["DRAW", "ENDDRAW", "ENDDEF"];
  }

  /** The fifth line is the `ALIAS` line, naming the aliases in order, exactly when there are aliases. */
  lemma AliasLine(r: ComponentRecord)
    ensures |r.aliases| > 0 <==> ComponentLines(r)[4] == "ALIAS " + Join(AliasNames(r.aliases), " ")
  {
    var lines := ComponentLines(r);
    var rest := FpPart(r) + ["DRAW", "ENDDRAW", "ENDDEF"];
    assert lines == Heading(r) + AliasPart(r) + FpPart(r) + ["DRAW", "ENDDRAW", "ENDDEF"];
    if |r.aliases| == 0 {
      assert lines[4] == rest[0];
      assert rest[0] == "$FPLIST" || rest[0] == "DRAW";
      assert "ALIAS " <= "ALIAS " + Join(AliasNames(r.aliases), " ");
    }
  }

  /** The `DEF` line with no keywords given. */
  lemma DefaultDefLine(r: ComponentRecord)
    requires r.kwargs == map[]
    ensures DefLine(r) == "DEF " + r.description.name + " " + r.designator + " 0 40 Y Y 1 F N"
  {
  }

  /** A component with fields set in place. */
  class Component {
    var designator: string
    var description: Description
    var aliases: seq<Description>
    var kwargs: map<string, string>
    var fplist: seq<string>
    var footprint: Option<string>

    ghost predicate Valid()
      reads this
    {
      DistinctNames(aliases)
    }

    function Record(): ComponentRecord
      reads this
    {
      ComponentRecord(designator, description, aliases, kwargs, fplist)
    }

    /** `Component(description, **kwargs)`: the designator defaults to `U`. */
    constructor(description: Description, kwargs: map<string, string>)
      ensures Valid()
      ensures this.description == description && this.kwargs == kwargs
      ensures designator == Get(kwargs, "ref", "U")
      ensures aliases == [] && fplist == []
      ensures footprint == FootprintArg(kwargs)
    {
      designator := Get(kwargs, "ref", "U");
      this.description := description;
      aliases := [];
      this.kwargs := kwargs;
      fplist := [];
      footprint := FootprintArg(kwargs);
    }

    /**
     * `addAlias`: a name already among the aliases (up to case) is refused and nothing
     * changes; otherwise the alias, back-filled from the primary description, is appended.
     * The primary name is not compared.
     */
    method AddAlias(alias: Description) returns (r: Result<(), LibError>)
      requires Valid()
      modifies this
      ensures Valid()
      ensures Listed(old(aliases), alias) ==> r == Failure(DuplicateAlias(alias.name)) && aliases == old(aliases)
      ensures !Listed(old(aliases), alias) ==> r.Success? && aliases == old(aliases) + [BackFill(alias, description)]
      ensures designator == old(designator) && description == old(description) && kwargs == old(kwargs)
      ensures fplist == old(fplist) && footprint == old(footprint)
    {
      if Listed(aliases, alias) {
        return Failure(DuplicateAlias(alias.name));
      }
      var filled := alias;
      if filled.description == "" {
        filled := filled.(description := description.description);
      }
      if filled.keywords == "" {
        filled := filled.(keywords := description.keywords);
      }
      if filled.datasheet == "" {
        filled := filled.(datasheet := description.datasheet);
      }
      AddKeepsDistinct(aliases, alias, description);
      aliases := aliases + [filled];
      r := Success(());
    }

    /** `toString(lf)`, building the line list step by step. */
    method ToString(lf: string) returns (s: string)
      ensures s == ComponentText(Record(), lf)
    {
      var r := Record();
      var cmp := ["#", "# " + description.name, "#", DefLine(r)];
      if |aliases| > 0 {
        cmp := cmp + ["ALIAS " + Join(AliasNames(aliases), " ")];
      }
      assert cmp == Heading(r) + AliasPart(r);
      ghost var head := cmp;
      if |fplist| > 0 {
        cmp := cmp + ["$FPLIST"];
        ghost var listed := cmp;
        var i := 0;
        while i < |fplist|
          invariant 0 <= i <= |fplist| && cmp == listed + FpLines(fplist[..i])
        {
          FpLinesSnoc(listed, fplist, i);
          cmp := cmp + [" " + fplist[i]];
          i := i + 1;
        }
        assert fplist[..i] == fplist;
        cmp := cmp + ["$ENDFPLIST"];
        Append4(head, ["$FPLIST"], FpLines(fplist), ["$ENDFPLIST"]);
      }
      assert cmp == head + FpPart(r);
      cmp := cmp + ["DRAW"];
      cmp := cmp + ["ENDDRAW"];
      cmp := cmp + ["ENDDEF"];
      Append4(head + FpPart(r), ["DRAW"], ["ENDDRAW"], ["ENDDEF"]);
      assert ["DRAW"] + ["ENDDRAW"] + ["ENDDEF"] == ["DRAW", "ENDDRAW", "ENDDEF"];
      assert cmp == ComponentLines(r);
      s := Join(cmp, lf) + lf;
    }
  }

  lemma FpLinesSnoc(listed: seq<string>, fs: seq<string>, i: int)
    requires 0 <= i < |fs|
    ensures listed + FpLines(fs[..i + 1]) == listed + FpLines(fs[..i]) + [" " + fs[i]]
  {
    assert FpLines(fs[..i + 1]) == FpLines(fs[..i]) + [" " + fs[i]];
  }

  lemma Append4<T>(a: seq<T>, b: seq<T>, c: seq<T>, d: seq<T>)
    ensures a + b + c + d == a + (b + c + d)
  {
  }

  /** The records of a list of components, in order. */
  function Records(cs: seq<Component>): (r: seq<ComponentRecord>)
    reads set c | c in cs
    ensures |r| == |cs| && forall i :: 0 <= i < |cs| ==> r[i] == cs[i].Record()
  {
    if cs == [] then [] else [cs[0].Record()] + Records(cs[1..])
  }

  function LibBlocks(rs: seq<ComponentRecord>): (r: seq<string>)
    ensures |r| == |rs| && forall i :: 0 <= i < |rs| ==> r[i] == ComponentText(rs[i], "\n")
  {
    seq(|rs|, i requires 0 <= i < |rs| => ComponentText(rs[i], "\n"))
  }

  /** The `.lib` text: header, the components sorted by primary name, footer. */
  function LibFile(rs: seq<ComponentRecord>, lf: string): string {
    LIB_HEADER + lf + Concat(LibBlocks(SortBy(rs, PrimaryName))) + LIB_FOOTER + lf
  }

  /**
   * The `.lib` text holds one block per component, in ascending case-sensitive order of
   * primary name, components with equal names in the order they were added.
   */
  lemma LibFileOrder(rs: seq<ComponentRecord>, lf: string)
    ensures exists s ::
      && SortedBy(s, PrimaryName)
      && multiset(s) == multiset(rs)
      && (forall k :: WithKey(s, PrimaryName, k) == WithKey(rs, PrimaryName, k))
      && LibFile(rs, lf) == LIB_HEADER + lf + Concat(LibBlocks(s)) + LIB_FOOTER + lf
  {
    SortByCorrect(rs, PrimaryName);
    var s := SortBy(rs, PrimaryName);
    assert LibFile(rs, lf) == LIB_HEADER + lf + Concat(LibBlocks(s)) + LIB_FOOTER + lf;
  }

  /** The descriptions of the `.dcm` file: each component's, then its aliases, in order. */
  function Entries(rs: seq<ComponentRecord>): seq<Description>
    decreases |rs|
  {
    if rs == [] then []
    else Entries(rs[..|rs| - 1]) + [rs[|rs| - 1].description] + rs[|rs| - 1].aliases
  }

  function AliasCount(rs: seq<ComponentRecord>): nat
    decreases |rs|
  {
    if rs == [] then 0 else AliasCount(rs[..|rs| - 1]) + |rs[|rs| - 1].aliases|
  }

  /** One `.dcm` entry per component and one per alias. */
  lemma {:induction false} EntriesCover(rs: seq<ComponentRecord>)
    ensures |Entries(rs)| == |rs| + AliasCount(rs)
    ensures forall i :: 0 <= i < |rs| ==> rs[i].description in Entries(rs)
    ensures forall i, j :: 0 <= i < |rs| && 0 <= j < |rs[i].aliases| ==> rs[i].aliases[j] in Entries(rs)
    decreases |rs|
  {
    if rs != [] {
      var init := rs[..|rs| - 1];
      var last := rs[|rs| - 1];
      EntriesCover(init);
      var e := Entries(rs);
      assert e == Entries(init) + [last.description] + last.aliases;
      forall i | 0 <= i < |rs| ensures rs[i].description in e {
        if i < |rs| - 1 {
          assert rs[i] == init[i];
        } else {
          assert e[|Entries(init)|] == last.description;
        }
      }
      forall i, j | 0 <= i < |rs| && 0 <= j < |rs[i].aliases| ensures rs[i].aliases[j] in e {
        if i < |rs| - 1 {
          assert rs[i] == init[i];
          assert init[i].aliases[j] in Entries(init);
        } else {
          assert e[|Entries(init)| + 1 + j] == last.aliases[j];
        }
      }
    }
  }

  function DcmBlocks(ds: seq<Description>): (r: seq<string>)
    ensures |r| == |ds| && forall i :: 0 <= i < |ds| ==> r[i] == DescriptionText(ds[i], "\n")
  {
    seq(|ds|, i requires 0 <= i < |ds| => DescriptionText(ds[i], "\n"))
  }

  /** The `.dcm` text: header, all descriptions and aliases sorted by name, footer. */
  function DcmFile(rs: seq<ComponentRecord>, lf: string): string {
    DCM_HEADER + lf + Concat(DcmBlocks(SortBy(Entries(rs), DescriptionName))) + DCM_FOOTER + lf
  }

  /** The `.dcm` text holds the entries of all components and aliases, sorted by name. */
  lemma DcmFileOrder(rs: seq<ComponentRecord>, lf: string)
    ensures exists s ::
      && SortedBy(s, DescriptionName)
      && multiset(s) == multiset(Entries(rs))
      && (forall k :: WithKey(s, DescriptionName, k) == WithKey(Entries(rs), DescriptionName, k))
      && DcmFile(rs, lf) == DCM_HEADER + lf + Concat(DcmBlocks(s)) + DCM_FOOTER + lf
  {
    SortByCorrect(Entries(rs), DescriptionName);
    var s := SortBy(Entries(rs), DescriptionName);
    assert DcmFile(rs, lf) == DCM_HEADER + lf + Concat(DcmBlocks(s)) + DCM_FOOTER + lf;
  }

  lemma ConcatSnoc(parts: seq<string>, x: string)
    ensures Concat(parts + [x]) == Concat(parts) + x
  {
    ConcatAppend(parts, [x]);
    assert Concat([x]) == x + Concat([]);
  }

  lemma ConcatPrefixSnoc(start: string, parts: seq<string>, i: int)
    requires 0 <= i < |parts|
    ensures start + Concat(parts[..i + 1]) == start + Concat(parts[..i]) + parts[i]
  {
    assert parts[..i + 1] == parts[..i] + [parts[i]];
    ConcatSnoc(parts[..i], parts[i]);
  }

  /** The `saveLib` loop: each component's block written after the text so far. */
  method WriteComponents(start: string, sorted: seq<ComponentRecord>) returns (text: string)
    ensures text == start + Concat(LibBlocks(sorted))
  {
    text := start;
    ghost var blocks := LibBlocks(sorted);
    var i := 0;
    while i < |sorted|
      invariant 0 <= i <= |sorted| && text == start + Concat(blocks[..i])
    {
      ConcatPrefixSnoc(start, blocks, i);
      text := text + ComponentText(sorted[i], "\n");
      i := i + 1;
    }
    assert blocks[..i] == blocks;
  }

  /** The `saveDcm` output loop: each description's entry written after the text so far. */
  method WriteDescriptions(start: string, descriptions: seq<Description>) returns (text: string)
    ensures text == start + Concat(DcmBlocks(descriptions))
  {
    text := start;
    ghost var blocks := DcmBlocks(descriptions);
    var k := 0;
    while k < |descriptions|
      invariant 0 <= k <= |descriptions| && text == start + Concat(blocks[..k])
    {
      ConcatPrefixSnoc(start, blocks, k);
      text := text + DescriptionText(descriptions[k], "\n");
      k := k + 1;
    }
    assert blocks[..k] == blocks;
  }

  /** The device library: a name and the components added to it, in order. */
  class DeviceLib {
    var name: string
    var components: seq<Component>

    constructor(name: string)
      ensures this.name == name && components == []
    {
      this.name := name;
      components := [];
    }

    method AddComponent(c: Component)
      modifies this
      ensures components == old(components) + [c] && name == old(name)
    {
      components := components + [c];
    }

    /** The text `saveLib` writes; each component block uses `\n`, whatever `lf` is. */
    method LibText(lf: string) returns (text: string)
      ensures text == LibFile(Records(components), lf)
    {
      text := LIB_HEADER + lf;
      var sorted := SortBy(Records(components), PrimaryName);
      text := WriteComponents(text, sorted);
      text := text + LIB_FOOTER + lf;
    }

    /** The loop of `saveDcm` that lists each component's description followed by its aliases. */
    method Gather() returns (cmp: seq<Description>)
      ensures cmp == Entries(Records(components))
    {
      ghost var rs := Records(components);
      cmp := [];
      var i := 0;
      while i < |components|
        invariant 0 <= i <= |components| && cmp == Entries(rs[..i])
      {
        var c := components[i];
        assert rs[..i + 1][..i] == rs[..i];
        cmp := cmp + [c.description];
        var j := 0;
        while j < |c.aliases|
          invariant 0 <= j <= |c.aliases| && cmp == Entries(rs[..i]) + [c.description] + c.aliases[..j]
        {
          cmp := cmp + [c.aliases[j]];
          j := j + 1;
        }
        assert c.aliases[..j] == c.aliases;
        i := i + 1;
      }
      assert rs[..i] == rs;
    }

    /** The text `saveDcm` writes: descriptions gathered component by component, then sorted. */
    method DcmText(lf: string) returns (text: string)
      ensures text == DcmFile(Records(components), lf)
    {
      text := DCM_HEADER + lf;
      var cmp := Gather();
      var descriptions := SortBy(cmp, DescriptionName);
      text := WriteDescriptions(text, descriptions);
      text := text + DCM_FOOTER + lf;
    }
  }
}
