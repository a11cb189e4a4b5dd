/**
 * check_symbol_footprints.py: every symbol's footprint reference is classified
 * against the footprint libraries found on disk, and each symbol with a problem is
 * recorded, per symbol library, in the map of its first problem.
 */
module FootprintCheck {
  import opened Wrappers
  import opened Text
  import opened FootprintRef

  /** A symbol: its name and its footprint text, absent when it has no footprint. */
  datatype Symbol = Symbol(name: string, footprint: Option<string>)

  /** The outcome for one symbol: one of the four error maps, or none. */
  datatype Kind = Empty | Pattern | Nickname | FpName | Valid

  /** An error map: per symbol library, `[symbol name, footprint text]` in the order found. */
  type ErrorMap = map<string, seq<(string, string)>>

  /** The footprint libraries: nickname to footprint names. */
  type LibraryMap = map<string, seq<string>>

  /** `addError`: a new library key gets an empty list first; the pair goes at the end. */
  function Added(m: ErrorMap, lib: string, entry: (string, string)): (r: ErrorMap)
    ensures lib in r && r[lib] == (if lib in m then m[lib] else []) + [entry]
    ensures forall k :: k != lib ==> (k in r <==> k in m) && (k in m ==> r[k] == m[k])
  {
    m[lib := (if lib in m then m[lib] else []) + [entry]]
  }

  /** The text recorded for a symbol: `''` when it has no footprint. */
  function FootprintText(s: Symbol): string {
    if s.footprint.None? then "" else s.footprint.value
  }

  /** The classification loop's tests, in order, each ending the symbol's turn with `continue`. */
  function Classify(fp: Option<string>, libs: LibraryMap): Kind {
    if fp.None? then Empty
    else
      var parts := Split(fp.value, ':');
      if !(|parts| == 2 && |parts[0]| > 0 && |parts[1]| > 0) then Pattern
      else if parts[0] !in libs then Nickname
      else if parts[1] !in libs[parts[0]] then FpName
      else Valid
  }

  /**
   * The priority order empty > pattern > nickname > name: a symbol is in the first class
   * whose test it fails, and valid when its reference names a footprint of a known library.
   */
  lemma ClassifyMeaning(fp: Option<string>, libs: LibraryMap)
    ensures Classify(fp, libs) == Empty <==> fp.None?
    ensures Classify(fp, libs) == Pattern <==> fp.Some? && !WellFormed(fp.value)
    ensures Classify(fp, libs) == Nickname <==>
              fp.Some? && exists i :: ColonAt(fp.value, i) && fp.value[..i] !in libs
    ensures Classify(fp, libs) == FpName <==>
              fp.Some? && exists i :: ColonAt(fp.value, i) && fp.value[..i] in libs && fp.value[i + 1..] !in libs[fp.value[..i]]
    ensures Classify(fp, libs) == Valid <==>
              fp.Some? && exists i :: ColonAt(fp.value, i) && fp.value[..i] in libs && fp.value[i + 1..] in libs[fp.value[..i]]
  {
    if fp.Some? {
      SplitForm(fp.value);
      if WellFormed(fp.value) {
        var i :| ColonAt(fp.value, i);
        SplitAt(fp.value, i);
        forall j | ColonAt(fp.value, j) ensures j == i {
          SplitAt(fp.value, j);
        }
      }
    }
  }

  /** The entries one library's symbols add to the map of class k, in symbol order. */
  function Entries(symbols: seq<Symbol>, libs: LibraryMap, k: Kind): (r: seq<(string, string)>)
    ensures |r| <= |symbols|
    decreases |symbols|
  {
    if symbols == [] then []
    else
      var last := symbols[|symbols| - 1];
      Entries(symbols[..|symbols| - 1], libs, k)
      + (if Classify(last.footprint, libs) == k then [(last.name, FootprintText(last))] else [])
  }

  /** Each symbol is counted in exactly one class. */
  lemma {:induction false} Partition(symbols: seq<Symbol>, libs: LibraryMap)
    ensures |Entries(symbols, libs, Empty)| + |Entries(symbols, libs, Pattern)| + |Entries(symbols, libs, Nickname)|
            + |Entries(symbols, libs, FpName)| + |Entries(symbols, libs, Valid)| == |symbols|
    decreases |symbols|
  {
    if symbols != [] {
      Partition(symbols[..|symbols| - 1], libs);
    }
  }

  /** The map of class k after one library's symbols are checked. */
  function Recorded(m: ErrorMap, lib: string, symbols: seq<Symbol>, libs: LibraryMap, k: Kind): ErrorMap
    decreases |symbols|
  {
    if symbols == [] then m
    else
      var last := symbols[|symbols| - 1];
      var prev := Recorded(m, lib, symbols[..|symbols| - 1], libs, k);
      if Classify(last.footprint, libs) == k then Added(prev, lib, (last.name, FootprintText(last))) else prev
  }

  lemma RecordedStep(m: ErrorMap, lib: string, symbols: seq<Symbol>, i: int, libs: LibraryMap, k: Kind)
    requires 0 <= i < |symbols|
    ensures Recorded(m, lib, symbols[..i + 1], libs, k) ==
              if Classify(symbols[i].footprint, libs) == k
              then Added(Recorded(m, lib, symbols[..i], libs, k), lib, (symbols[i].name, FootprintText(symbols[i])))
              else Recorded(m, lib, symbols[..i], libs, k)
  {
    assert symbols[..i + 1][..i] == symbols[..i];
  }

  /** Checking a library appends its symbols of class k, in order, under its own key, and touches no other key. */
  lemma {:induction false} RecordedMeaning(m: ErrorMap, lib: string, symbols: seq<Symbol>, libs: LibraryMap, k: Kind)
    ensures var r := Recorded(m, lib, symbols, libs, k);
      && (lib in r <==> lib in m || Entries(symbols, libs, k) != [])
      && (lib in r ==> r[lib] == (if lib in m then m[lib] else []) + Entries(symbols, libs, k))
      && (forall key :: key != lib ==> (key in r <==> key in m) && (key in m ==> r[key] == m[key]))
    decreases |symbols|
  {
    if symbols != [] {
      var init := symbols[..|symbols| - 1];
      RecordedMeaning(m, lib, init, libs, k);
      var e := Entries(init, libs, k);
      var last := symbols[|symbols| - 1];
      if Classify(last.footprint, libs) == k {
        var prev := Recorded(m, lib, init, libs, k);
        assert (if lib in prev then prev[lib] else []) == (if lib in m then m[lib] else []) + e;
        assert (if lib in m then m[lib] else []) + e + [(last.name, FootprintText(last))]
            == (if lib in m then m[lib] else []) + (e + [(last.name, FootprintText(last))]);
      } else {
        assert Entries(symbols, libs, k) == e + [];
        assert e + [] == e;
      }
    }
  }

  /** The four module-level error maps, updated in place. */
  class Report {
    var empty: ErrorMap
    var pattern: ErrorMap
    var nickname: ErrorMap
    var fpname: ErrorMap

    constructor()
      ensures empty == map[] && pattern == map[] && nickname == map[] && fpname == map[]
    {
      empty := map[];
      pattern := map[];
      nickname := map[];
      fpname := map[];
    }

    /** The map a class is recorded in; valid symbols are recorded nowhere. */
    function Errors(k: Kind): ErrorMap
      reads this
    {
      match k
      case Empty => empty
      case Pattern => pattern
      case Nickname => nickname
      case FpName => fpname
      case Valid => map[]
    }

    /** `addError(lib, sym, fp, err_dict)` on the map of class k. */
    method AddError(k: Kind, lib: string, sym: string, fp: string)
      requires k != Valid
      modifies this
      ensures empty == if k == Empty then Added(old(empty), lib, (sym, fp)) else old(empty)
      ensures pattern == if k == Pattern then Added(old(pattern), lib, (sym, fp)) else old(pattern)
      ensures nickname == if k == Nickname then Added(old(nickname), lib, (sym, fp)) else old(nickname)
      ensures fpname == if k == FpName then Added(old(fpname), lib, (sym, fp)) else old(fpname)
    {
      match k
      case Empty => empty := Added(empty, lib, (sym, fp));
      case Pattern => pattern := Added(pattern, lib, (sym, fp));
      case Nickname => nickname := Added(nickname, lib, (sym, fp));
      case FpName => fpname := Added(fpname, lib, (sym, fp));
    }

    /** The classification loop over one symbol library's components. */
    method CheckLibrary(lib: string, symbols: seq<Symbol>, libs: LibraryMap)
      modifies this
      ensures forall k :: k != Valid ==> Errors(k) == Recorded(old(Errors(k)), lib, symbols, libs, k)
    {
      for i := 0 to |symbols|
        invariant empty == Recorded(old(empty), lib, symbols[..i], libs, Empty)
        invariant pattern == Recorded(old(pattern), lib, symbols[..i], libs, Pattern)
        invariant nickname == Recorded(old(nickname), lib, symbols[..i], libs, Nickname)
        invariant fpname == Recorded(old(fpname), lib, symbols[..i], libs, FpName)
      {
        var c := symbols[i];
        RecordedStep(old(empty), lib, symbols, i, libs, Empty);
        RecordedStep(old(pattern), lib, symbols, i, libs, Pattern);
        RecordedStep(old(nickname), lib, symbols, i, libs, Nickname);
        RecordedStep(old(fpname), lib, symbols, i, libs, FpName);
        if c.footprint.None? {
          AddError(Empty, lib, c.name, "");
          continue;
        }
        var fp := c.footprint.value;
        var parts := Split(fp, ':');
        var correct := |parts| == 2 && |parts[0]| > 0 && |parts[1]| > 0;
        if !correct {
          AddError(Pattern, lib, c.name, fp);
          continue;
        }
        var fpNickname, fpName := parts[0], parts[1];
        if fpNickname !in libs {
          AddError(Nickname, lib, c.name, fp);
          continue;
        }
        var fpList := libs[fpNickname];
        if fpName !in fpList {
          AddError(FpName, lib, c.name, fp);
          continue;
        }
      }
      assert symbols[..|symbols|] == symbols;
    }
  }

  /** A footprint library directory as listed: its name and the names of its files. */
  datatype Dir = Dir(name: string, files: seq<string>)

  /** The last path component with `.pretty` removed wherever it occurs. */
  function NicknameOf(dir: string): string {
    var parts := Split(dir, '/');
    Replace(parts[|parts| - 1], ".pretty", "")
  }

  /** `[f.replace('.kicad_mod', '') for f in files if f.endswith('.kicad_mod')]`. */
  function FootprintNames(files: seq<string>): (r: seq<string>)
    ensures |r| <= |files|
    decreases |files|
  {
    if files == [] then []
    else
      var last := files[|files| - 1];
      FootprintNames(files[..|files| - 1]) + (if EndsWith(last, ".kicad_mod") then [Replace(last, ".kicad_mod", "")] else [])
  }

  /** The nickname map after the directories are read in order; a later directory with the same nickname wins. */
  function LibraryMapOf(dirs: seq<Dir>): LibraryMap
    decreases |dirs|
  {
    if dirs == [] then map[]
    else
      var last := dirs[|dirs| - 1];
      var prev := LibraryMapOf(dirs[..|dirs| - 1]);
      if EndsWith(last.name, ".pretty") then prev[NicknameOf(last.name) := FootprintNames(last.files)] else prev
  }

  /** d is a `.pretty` directory with nickname k. */
  predicate Named(d: Dir, k: string) {
    EndsWith(d.name, ".pretty") && NicknameOf(d.name) == k
  }

  /** Some `.pretty` directory of dirs has nickname k. */
  ghost predicate SomeNamed(dirs: seq<Dir>, k: string) {
    exists i :: 0 <= i < |dirs| && Named(dirs[i], k)
  }

  lemma SomeNamedSnoc(dirs: seq<Dir>, d: Dir, k: string)
    ensures SomeNamed(dirs + [d], k) <==> SomeNamed(dirs, k) || Named(d, k)
  {
    var ext := dirs + [d];
    if SomeNamed(dirs, k) {
      var i :| 0 <= i < |dirs| && Named(dirs[i], k);
      assert ext[i] == dirs[i];
    }
    if Named(d, k) {
      assert ext[|dirs|] == d;
    }
    if SomeNamed(ext, k) {
      var i :| 0 <= i < |ext| && Named(ext[i], k);
      if i < |dirs| {
        assert dirs[i] == ext[i];
      }
    }
  }

  /** One more directory adds its nickname to the map, if it is a `.pretty` one. */
  lemma LibraryMapSnoc(dirs: seq<Dir>, k: string)
    requires dirs != []
    ensures k in LibraryMapOf(dirs) <==> k in LibraryMapOf(dirs[..|dirs| - 1]) || Named(dirs[|dirs| - 1], k)
  {
  }

  lemma {:induction false} LibraryMapKey(dirs: seq<Dir>, k: string)
    ensures k in LibraryMapOf(dirs) <==> SomeNamed(dirs, k)
    decreases |dirs|
  {
    if dirs != [] {
      var n := |dirs| - 1;
      LibraryMapKey(dirs[..n], k);
      LibraryMapSnoc(dirs, k);
      SomeNamedSnoc(dirs[..n], dirs[n], k);
      assert dirs[..n] + [dirs[n]] == dirs;
    }
  }

  /** A nickname is in the map exactly when some `.pretty` directory has it. */
  lemma LibraryMapKeys(dirs: seq<Dir>)
    ensures forall k :: k in LibraryMapOf(dirs) <==> exists i :: 0 <= i < |dirs| && Named(dirs[i], k)
  {
    forall k {
      LibraryMapKey(dirs, k);
    }
  }

  /** Directory i is the last `.pretty` directory with nickname k. */
  predicate LastWith(dirs: seq<Dir>, i: int, k: string) {
    0 <= i < |dirs| && Named(dirs[i], k) && forall j :: i < j < |dirs| ==> !Named(dirs[j], k)
  }

  /** A later directory without nickname k leaves the last one with k in place. */
  lemma LastWithSnoc(dirs: seq<Dir>, d: Dir, i: int, k: string)
    requires LastWith(dirs, i, k) && !Named(d, k)
    ensures LastWith(dirs + [d], i, k)
  {
    var ext := dirs + [d];
    forall j | i < j < |ext| ensures !Named(ext[j], k) {
      if j < |dirs| {
        assert ext[j] == dirs[j];
      }
    }
  }

  lemma {:induction false} LibraryMapValue(dirs: seq<Dir>, k: string)
    requires k in LibraryMapOf(dirs)
    ensures exists i :: LastWith(dirs, i, k) && LibraryMapOf(dirs)[k] == FootprintNames(dirs[i].files)
    decreases |dirs|
  {
    var n := |dirs| - 1;
    var init := dirs[..n];
    if Named(dirs[n], k) {
      assert LastWith(dirs, n, k);
    } else {
      LibraryMapValue(init, k);
      var i :| LastWith(init, i, k) && LibraryMapOf(init)[k] == FootprintNames(init[i].files);
      LastWithSnoc(init, dirs[n], i, k);
      assert init + [dirs[n]] == dirs;
      assert dirs[i] == init[i];
    }
  }

  /** Each nickname maps to the footprint names of the last directory with that nickname. */
  lemma LibraryMapValues(dirs: seq<Dir>)
    ensures forall k :: k in LibraryMapOf(dirs) ==>
              exists i :: LastWith(dirs, i, k) && LibraryMapOf(dirs)[k] == FootprintNames(dirs[i].files)
  {
    forall k | k in LibraryMapOf(dirs) {
      LibraryMapValue(dirs, k);
    }
  }

  /** A plain directory name `n.pretty` has nickname n. */
  lemma NicknameStrips(n: string)
    requires '/' !in n
    requires forall i :: 0 <= i < |n| ==> !OccursAt(n + ".pretty", ".pretty", i)
    ensures NicknameOf(n + ".pretty") == n
  {
    var s := n + ".pretty";
    assert '/' !in s by {
      assert forall i :: 0 <= i < |s| ==> s[i] == (if i < |n| then n[i] else ".pretty"[i - |n|]);
    }
    CountZero(s, '/');
    assert |Split(s, '/')| == 1;
    JoinSplit(s, '/');
    assert Split(s, '/')[0] == s;
    assert n + ".pretty" + "" == s;
    ReplaceFirst(n, ".pretty", "", "");
    assert n + ".pretty" + "" == s;
    assert Replace("", ".pretty", "") == "";
    assert n + "" + "" == n;
  }

  /** The map of footprint directories, built in a loop as the script does. */
  method BuildLibraryMap(dirs: seq<Dir>) returns (m: LibraryMap)
    ensures m == LibraryMapOf(dirs)
  {
    m := map[];
    for i := 0 to |dirs|
      invariant m == LibraryMapOf(dirs[..i])
    {
      assert dirs[..i + 1][..i] == dirs[..i];
      if !EndsWith(dirs[i].name, ".pretty") {
        continue;
      }
      var footprints := FootprintNames(dirs[i].files);
      var nickname := NicknameOf(dirs[i].name);
      m := m[nickname := footprints];
    }
    assert dirs[..|dirs|] == dirs;
  }
}
