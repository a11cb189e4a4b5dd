/**
 * Rule 3.9 of schlib/rules/rule3_9.py: the default footprint field (field 2) of a
 * symbol is hidden and holds a `Library:Footprint` reference without illegal
 * file-name characters.
 */
module Rule3_9 {
  import opened Text
  import opened FootprintRef

  const RULE_NAME := "Rule 3.9"
  const RULE_TITLE := "Default component footprint is appropriately set."

  datatype Verbosity = Normal | High
  datatype Severity = Info | Warning | Error

  /** One report of `verboseOut`. */
  datatype Diagnostic = Diagnostic(verbosity: Verbosity, severity: Severity, message: string)

  /** A symbol field: its text and its visibility flag. */
  datatype Field = Field(name: string, visibility: string)

  /** The characters the rule refuses, as written: `:` among them. */
  const ILLEGAL_AS_WRITTEN := "\\/*?:\"<>|"

  /** The file-name characters the rule evidently means to refuse: the same without `:`. */
  const ILLEGAL := "\\/*?\"<>|"

  /** The field text without one surrounding pair of quotes (`fp_name[1:-1]`). */
  function Unquote(s: string): (r: string)
    ensures |r| == if StartsWith(s, "\"") && EndsWith(s, "\"") then (if |s| >= 2 then |s| - 2 else 0) else |s|
  {
    if StartsWith(s, "\"") && EndsWith(s, "\"") then (if |s| >= 2 then s[1..|s| - 1] else "") else s
  }

  /**
   * Unquote takes off exactly one pair of surrounding quotes; a lone `"` becomes empty
   * text, and text not both starting and ending with a quote is kept as it is.
   */
  lemma UnquoteMeaning(s: string)
    ensures StartsWith(s, "\"") && EndsWith(s, "\"") && |s| >= 2 ==> "\"" + Unquote(s) + "\"" == s
    ensures StartsWith(s, "\"") && EndsWith(s, "\"") && |s| < 2 ==> Unquote(s) == ""
    ensures !(StartsWith(s, "\"") && EndsWith(s, "\"")) ==> Unquote(s) == s
  {
    if StartsWith(s, "\"") && EndsWith(s, "\"") && |s| >= 2 {
      assert s[0] == '"' && s[|s| - 1] == '"';
      assert "\"" + s[1..|s| - 1] + "\"" == s;
    }
  }

  function Describe(name: string, what: string): string {
    "Footprint field '" + name + "' " + what
  }

  predicate BadFormat(name: string) {
    Count(name, ':') != 1 || StartsWith(name, ":") || EndsWith(name, ":")
  }

  predicate HasIllegal(name: string, illegal: string) {
    exists k :: 0 <= k < |illegal| && illegal[k] in name
  }

  /** The diagnostics for a non-empty footprint text, in the order the checks run. */
  function Reports(name: string, visibility: string, illegal: string): seq<Diagnostic> {
    VisibleReport(name, visibility) + FormatReport(name) + IllegalReport(name, illegal)
  }

  function VisibleReport(name: string, visibility: string): seq<Diagnostic> {
    if visibility == "V" then [Diagnostic(High, Warning, Describe(name, "should be set to invisible."))] else []
  }

  function FormatReport(name: string): seq<Diagnostic> {
    if BadFormat(name) then [Diagnostic(High, Error, Describe(name, "should be of the format Library:Footprint"))] else []
  }

  function IllegalReport(name: string, illegal: string): seq<Diagnostic> {
    if HasIllegal(name, illegal) then [Diagnostic(High, Error, Describe(name, "contains illegal filename characters"))] else []
  }

  /** The footprint text the rule looks at, if the symbol has a footprint field. */
  function FootprintText(fields: seq<Field>): string
    requires |fields| >= 3
  {
    Unquote(fields[2].name)
  }

  /** What `check` reports: the diagnostics, and failure exactly when there is one. */
  function Outcome(fields: seq<Field>, illegal: string): (bool, seq<Diagnostic>) {
    if |fields| < 3 || FootprintText(fields) == "" then (false, [])
    else
      var ds := Reports(FootprintText(fields), fields[2].visibility, illegal);
      (ds != [], ds)
  }

  /**
   * `check` fails exactly when field 2 holds text that is visible, badly formed or uses
   * an illegal character; all its reports are HIGH, warnings only for visibility.
   */
  lemma OutcomeMeaning(fields: seq<Field>, illegal: string)
    ensures Outcome(fields, illegal).0 <==>
              |fields| >= 3 && FootprintText(fields) != "" &&
              (fields[2].visibility == "V" || !WellFormed(FootprintText(fields)) || HasIllegal(FootprintText(fields), illegal))
    ensures |Outcome(fields, illegal).1| <= 3
    ensures forall d :: d in Outcome(fields, illegal).1 ==> d.verbosity == High && d.severity != Info
    ensures forall d :: d in Outcome(fields, illegal).1 ==> (d.severity == Warning <==> d == Outcome(fields, illegal).1[0] && fields[2].visibility == "V")
  {
    if |fields| >= 3 && FootprintText(fields) != "" {
      ColonCountForm(FootprintText(fields));
    }
  }

  /** As written, every well-formed, hidden `Library:Footprint` reference fails on its own colon. */
  lemma ColonAlwaysIllegal(fields: seq<Field>)
    requires |fields| >= 3 && fields[2].visibility != "V"
    requires WellFormed(FootprintText(fields)) && !HasIllegal(FootprintText(fields), ILLEGAL)
    ensures Outcome(fields, ILLEGAL_AS_WRITTEN) ==
              (true, [Diagnostic(High, Error, Describe(FootprintText(fields), "contains illegal filename characters"))])
  {
    var name := FootprintText(fields);
    ColonCountForm(name);
    var i :| ColonAt(name, i);
    assert ILLEGAL_AS_WRITTEN[4] == ':' && name[i] == ':';
    assert HasIllegal(name, ILLEGAL_AS_WRITTEN);
    assert name != "" && !BadFormat(name);
    assert Reports(name, fields[2].visibility, ILLEGAL_AS_WRITTEN) ==
             [Diagnostic(High, Error, Describe(name, "contains illegal filename characters"))];
  }

  /** With `:` left out of the illegal set, a hidden, well-formed, clean reference passes. */
  lemma WellFormedPasses(fields: seq<Field>)
    requires |fields| >= 3 && fields[2].visibility != "V"
    requires WellFormed(FootprintText(fields)) && !HasIllegal(FootprintText(fields), ILLEGAL)
    ensures Outcome(fields, ILLEGAL) == (false, [])
  {
    ColonCountForm(FootprintText(fields));
  }

  /** `check`, with the illegal set corrected: a flag set step by step and the reports in order. */
  method Check(fields: seq<Field>) returns (fail: bool, diags: seq<Diagnostic>)
    ensures (fail, diags) == Outcome(fields, ILLEGAL)
  {
    fail := false;
    diags := [];
    if |fields| >= 3 {
      var fp := fields[2];
      var name := fp.name;
      if StartsWith(name, "\"") && EndsWith(name, "\"") {
        name := if |name| >= 2 then name[1..|name| - 1] else "";
      }
      assert name == FootprintText(fields);
      if |name| > 0 {
        fail, diags := CheckText(name, fp.visibility);
        assert Outcome(fields, ILLEGAL) == (diags != [], diags);
      } else {
        assert Outcome(fields, ILLEGAL) == (false, []);
      }
    }
  }

  /** The three tests `check` runs on non-empty footprint text, each adding its report. */
  method CheckText(name: string, visibility: string) returns (fail: bool, diags: seq<Diagnostic>)
    ensures diags == Reports(name, visibility, ILLEGAL)
    ensures fail <==> diags != []
  {
    fail := false;
    diags := [];
    if visibility == "V" {
      fail := true;
      diags := diags + [Diagnostic(High, Warning, Describe(name, "should be set to invisible."))];
    }
    ghost var visible := diags;
    assert visible == VisibleReport(name, visibility) && (fail <==> visible != []);
    if BadFormat(name) {
      fail := true;
      diags := diags + [Diagnostic(High, Error, Describe(name, "should be of the format Library:Footprint"))];
    }
    ghost var formatted := diags;
    assert formatted == visible + FormatReport(name) && (fail <==> formatted != []);
    var illegal := IllegalIn(name, ILLEGAL);
    if illegal {
      fail := true;
      diags := diags + [Diagnostic(High, Error, Describe(name, "contains illegal filename characters"))];
    }
  }

  /** `any([i in name for i in illegal])`. */
  method IllegalIn(name: string, illegal: string) returns (found: bool)
    ensures found <==> HasIllegal(name, illegal)
  {
    found := false;
    var k := 0;
    while k < |illegal|
      invariant 0 <= k <= |illegal|
      invariant found <==> exists j :: 0 <= j < k && illegal[j] in name
    {
      if illegal[k] in name {
        found := true;
      }
      k := k + 1;
    }
  }

  /** `fix`: nothing is changed; only a notice is reported. */
  method Fix(fields: seq<Field>) returns (diags: seq<Diagnostic>)
    ensures diags == [Diagnostic(Normal, Info, "FIX: not supported")]
  {
    diags := [Diagnostic(Normal, Info, "FIX: not supported")];
  }
}
