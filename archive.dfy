/**
 * What a package exporter writes and how it decides, module by module,
 * what to write.
 *
 * An archive is an ordered list of records, each a path (a list of
 * segments, joined with `/` on disk) and what is stored there. Module
 * sources live at the module's dotted name turned into a path; resources at
 * the package path followed by the resource name; the exporter's manifest
 * under `.data`.
 *
 * Every module the exporter is asked for, or discovers as a dependency of
 * a module it bundles, gets one decision: the root of the name is externed
 * implicitly when it is `torch` or a standard-library module; otherwise the
 * first registered rule whose glob group matches the name decides (extern
 * or mock); otherwise the module's source is bundled ("interned") and its
 * own dependencies are processed in turn. A module that has already been
 * provided is not processed again.
 *
 * The host environment (what `importlib` would find) is a parameter: a map
 * from module name to whether it is a package, whether it is a
 * standard-library module, and the modules its source imports.
 */
module Archive {
  import opened Wrappers
  import opened Strings
  import opened Glob
  import opened Mangling

  // ----- records -----

  /** Where a module's stored source comes from. */
  datatype Code =
    | HostSource          // the module's own file, read from the host
    | GivenSource(text: string)  // `save_source_string` with explicit text
    | MockImpl            // the stub written for a mocked module
    | MockSupport         // the `_mock` helper module the stubs import

  datatype Blob =
    | Source(moduleName: string, isPackage: bool, code: Code)
    | Text(text: string)
    | Binary(bytes: seq<bv8>)
    | ExternList(names: seq<string>)  // `.data/extern_modules`
    | VersionTag                      // `.data/version`

  datatype Record = Record(path: seq<string>, blob: Blob)

  /** `name.replace('.', '/') + ('/__init__.py' if is_package else '.py')`, as segments. */
  function SourcePath(name: string, isPackage: bool): (p: seq<string>)
    ensures |p| == |Split(name, '.')| + (if isPackage then 1 else 0)
    ensures p[..|p| - 1] == Split(name, '.')[..|Split(name, '.')| - (if isPackage then 0 else 1)]
  {
    var segs := Split(name, '.');
    if isPackage then segs + ["__init__.py"]
    else segs[..|segs| - 1] + [segs[|segs| - 1] + ".py"]
  }

  /** `package.replace('.', '/') + '/' + resource`, as segments. */
  function ResourcePath(package: string, resource: string): (p: seq<string>)
    ensures |p| > |Split(package, '.')|
    ensures p[..|Split(package, '.')|] == Split(package, '.')
  {
    Split(package, '.') + Split(resource, '/')
  }

  const DATA_DIR: string := ".data"
  const EXTERN_PATH: seq<string> := [DATA_DIR, "extern_modules"]
  const VERSION_PATH: seq<string> := [DATA_DIR, "version"]

  /** A module's source never lands on a manifest path: its last segment ends in `.py`. */
  lemma SourcePathNotManifest(name: string, isPackage: bool)
    ensures SourcePath(name, isPackage) != EXTERN_PATH && SourcePath(name, isPackage) != VERSION_PATH
  {
    var p := SourcePath(name, isPackage);
    var last := p[|p| - 1];
    assert last == "__init__.py" || last == Split(name, '.')[|Split(name, '.')| - 1] + ".py";
    assert |last| > 0 && last[|last| - 1] == 'y';
    assert EXTERN_PATH[1][|EXTERN_PATH[1]| - 1] == 's' && VERSION_PATH[1][|VERSION_PATH[1]| - 1] == 'n';
  }

  /** The last segment of a dotted name. */
  function LastSegment(name: string): (r: string)
    ensures '.' !in r
  {
    Split(name, '.')[|Split(name, '.')| - 1]
  }

  /**
   * Distinct modules are stored at distinct paths, unless the last segment
   * of one of them is `__init__` (a plain module `a.__init__` and the
   * package `a` would share `a/__init__.py`).
   */
  lemma SourcePathInjective(a: string, p: bool, b: string, q: bool)
    requires LastSegment(a) != "__init__" && LastSegment(b) != "__init__"
    requires SourcePath(a, p) == SourcePath(b, q)
    ensures a == b && p == q
  {
    var sa, sb := Split(a, '.'), Split(b, '.');
    var path := SourcePath(a, p);
    var last := path[|path| - 1];
    if p && !q {
      InitFile(LastSegment(b), last);
    } else if q && !p {
      InitFile(LastSegment(a), last);
    } else if p {
      assert sa == path[..|path| - 1] == sb;
      SplitInjective(a, b, '.');
    } else {
      assert sa[..|sa| - 1] == path[..|path| - 1] == sb[..|sb| - 1];
      DotPyInjective(LastSegment(a), LastSegment(b));
      assert sa == sa[..|sa| - 1] + [LastSegment(a)];
      assert sb == sb[..|sb| - 1] + [LastSegment(b)];
      SplitInjective(a, b, '.');
    }
  }

  /** Only the segment `__init__` is stored as `__init__.py`. */
  lemma InitFile(segment: string, file: string)
    requires file == "__init__.py" && file == segment + ".py"
    ensures segment == "__init__"
  {
    assert segment == file[..|segment|];
  }

  lemma DotPyInjective(x: string, y: string)
    requires x + ".py" == y + ".py"
    ensures x == y
  {
    assert x == (x + ".py")[..|x|];
    assert y == (y + ".py")[..|y|];
  }

  /** The name under which the mock helper module is stored. */
  const MOCK_SUPPORT: string := "_mock"

  /** The helper module is a single top-level file. */
  lemma MockSupportPath()
    ensures SourcePath(MOCK_SUPPORT, false) == ["_mock.py"]
  {
    SplitWhole(MOCK_SUPPORT, '.');
    assert Split(MOCK_SUPPORT, '.')[..0] == [];
    assert MOCK_SUPPORT + ".py" == "_mock.py";
  }

  // ----- the host environment -----

  datatype HostModule = HostModule(isPackage: bool, stdlib: bool, deps: seq<string>)

  type Host = map<string, HostModule>

  /**
   * The imports of a source that the host can import (`_module_exists`), in
   * their order: `save_source_string` keeps only these and drops the others
   * without error, so an optional import the host lacks stops nothing.
   */
  function Importable(host: Host, deps: seq<string>): (r: seq<string>)
    ensures forall d :: d in r <==> d in deps && d in host
    ensures |r| <= |deps|
  {
    if deps == [] then []
    else
      var last := deps[|deps| - 1];
      assert forall d :: d in deps <==> d in deps[..|deps| - 1] || d == last;
      Importable(host, deps[..|deps| - 1]) + (if last in host then [last] else [])
  }

  /**
   * The exporter's `_import_module`: a name the host cannot import fails
   * with module-not-found; when that name is mangled (it was loaded from a
   * package), the failure says that such modules cannot be re-exported.
   */
  function HostImport(host: Host, name: string): (r: Result<HostModule, Error>)
    ensures r.Ok? <==> name in host
    ensures r.Ok? ==> r.value == host[name]
    ensures r.Err? && IsMangled(name) ==> r.error == NotExportable(name)
    ensures r.Err? && !IsMangled(name) ==> r.error == ModuleNotFound(name)
  {
    if name in host then Ok(host[name])
    else if IsMangled(name) then Err(NotExportable(name))
    else Err(ModuleNotFound(name))
  }

  // ----- decisions -----

  datatype Action = Extern | Mock

  /** One `extern(...)` or `mock(...)` call: its glob group and what to do on a match. */
  datatype Rule = Rule(group: GlobGroup, action: Action)

  datatype Decision =
    | ExternRoot(root: string)   // the whole top-level package is external
    | ByRule(action: Action)     // the first matching rule decides
    | Intern                     // bundle the source

  /** Modules never externed implicitly, even though they are part of the standard library. */
  const DISALLOWED_MODULES: set<string> := {"sys", "io"}

  /** `module_name.split('.', maxsplit=1)[0]`. */
  function Root(name: string): (r: string)
    ensures '.' !in r
    ensures r == Split(name, '.')[0]
  {
    PartitionHead(name, '.');
    Partition(name, '.').0
  }

  /** The index of the first rule, in registration order, whose group matches `name`. */
  function FirstMatch(rules: seq<Rule>, name: string): (r: Option<nat>)
    ensures r.Some? ==> r.value < |rules| && Matches(rules[r.value].group, name)
    ensures r.Some? ==> forall j :: 0 <= j < r.value ==> !Matches(rules[j].group, name)
    ensures r.None? <==> forall j :: 0 <= j < |rules| ==> !Matches(rules[j].group, name)
    decreases |rules|
  {
    if rules == [] then None
    else if Matches(rules[0].group, name) then Some(0)
    else
      match FirstMatch(rules[1..], name)
      case None =>
        assert forall j :: 1 <= j < |rules| ==> rules[j] == rules[1..][j - 1];
        None
      case Some(i) =>
        assert forall j :: 1 <= j <= i ==> rules[j] == rules[1..][j - 1];
        Some(i + 1)
  }

  /** `_can_implicitly_extern` applied to a root that the host can import. */
  predicate ImplicitlyExtern(host: Host, root: string)
  {
    root == "torch" || (root !in DISALLOWED_MODULES && root in host && host[root].stdlib)
  }

  /**
   * The decision `require_module` takes for `name`: the root first (which
   * must be importable unless it is `torch` or disallowed), then the rules,
   * then interning.
   */
  function Classify(rules: seq<Rule>, host: Host, name: string): (r: Result<Decision, Error>)
    ensures r.Err? <==>
      Root(name) != "torch" && Root(name) !in DISALLOWED_MODULES && Root(name) !in host
    ensures r.Err? ==> r.error == HostImport(host, Root(name)).error
    ensures r.Ok? && r.value.ExternRoot? <==> r.Ok? && ImplicitlyExtern(host, Root(name))
    ensures r.Ok? && r.value.ExternRoot? ==> r.value.root == Root(name)
    ensures r.Ok? && r.value.ByRule? ==>
      exists i :: FirstMatch(rules, name) == Some(i) && rules[i].action == r.value.action
    ensures r.Ok? && r.value.Intern? ==> !ImplicitlyExtern(host, Root(name)) && FirstMatch(rules, name).None?
  {
    var root := Root(name);
    if root == "torch" then Ok(ExternRoot(root))
    else if root !in DISALLOWED_MODULES && root !in host then Err(HostImport(host, root).error)
    else if root !in DISALLOWED_MODULES && host[root].stdlib then Ok(ExternRoot(root))
    else
      match FirstMatch(rules, name)
      case Some(i) => Ok(ByRule(rules[i].action))
      case None => Ok(Intern)
  }

  // ----- the exporter's state and its single steps -----

  /** What an exporter has accumulated: records written, names provided, externs declared. */
  datatype State = State(records: seq<Record>, provided: set<string>, externs: seq<string>)

  /** `save_source_string`'s write: the record at the module's path, and the name is provided. */
  function WriteSource(s: State, name: string, isPackage: bool, code: Code): (s': State)
    ensures s'.records == s.records + [Record(SourcePath(name, isPackage), Source(name, isPackage, code))]
    ensures s'.provided == s.provided + {name} && s'.externs == s.externs
  {
    State(s.records + [Record(SourcePath(name, isPackage), Source(name, isPackage, code))],
          s.provided + {name}, s.externs)
  }

  /**
   * `save_extern_module`: listed once among the externs; the name is not
   * added to the provided names, it counts as provided only through
   * `AlreadyProvided`.
   */
  function SaveExtern(s: State, name: string): (s': State)
    ensures s'.records == s.records && s'.provided == s.provided
    ensures name in s'.externs
    ensures s'.externs == if name in s.externs then s.externs else s.externs + [name]
  {
    State(s.records, s.provided, if name in s.externs then s.externs else s.externs + [name])
  }

  /**
   * `save_mock_module`: the `_mock` helper is written once, then the name
   * must be importable from the host (to learn whether it is a package) and
   * its stub source is written.
   */
  function SaveMock(s: State, host: Host, name: string): (r: (State, Option<Error>))
    ensures r.1.None? <==> name in host
    ensures r.1.Some? ==> r.1.value == HostImport(host, name).error
    ensures MOCK_SUPPORT in r.0.provided && r.0.externs == s.externs
    ensures r.1.None? ==> name in r.0.provided
  {
    var s1 := if MOCK_SUPPORT in s.provided then s else WriteSource(s, MOCK_SUPPORT, false, MockSupport);
    if name !in host then (s1, Some(HostImport(host, name).error))
    else (WriteSource(s1, name, host[name].isPackage, MockImpl), None)
  }

  /** `s` extends `t`: records and externs only appended, provided only grown. */
  predicate Extends(s: State, t: State) {
    |t.records| <= |s.records| && s.records[..|t.records|] == t.records &&
    |t.externs| <= |s.externs| && s.externs[..|t.externs|] == t.externs &&
    t.provided <= s.provided
  }

  lemma ExtendsTransitive(a: State, b: State, c: State)
    requires Extends(b, a) && Extends(c, b)
    ensures Extends(c, a)
  {
    assert c.records[..|a.records|] == c.records[..|b.records|][..|a.records|];
    assert c.externs[..|a.externs|] == c.externs[..|b.externs|][..|a.externs|];
  }

  /** `name` is a declared extern or lies below one, so the host provides it. */
  predicate ExternCovers(externs: seq<string>, name: string) {
    exists k :: 0 <= k < |externs| && (name == externs[k] || StartsWith(name, externs[k] + "."))
  }

  /**
   * `_module_is_already_provided`: the name was provided, or it is a declared
   * extern or lies below one.
   */
  predicate AlreadyProvided(s: State, name: string) {
    name in s.provided || ExternCovers(s.externs, name)
  }

  /** An extern covers its own name and every name below it. */
  lemma ExternCoversBelow(externs: seq<string>, e: string, rest: string)
    requires e in externs
    ensures ExternCovers(externs, e)
    ensures rest != "" ==> ExternCovers(externs, e + "." + rest)
  {
    var k :| 0 <= k < |externs| && externs[k] == e;
    if rest != "" {
      var name := e + "." + rest;
      assert name[..|e + "."|] == e + ".";
    }
  }

  /** A name is the root before its first dot, or that root, a dot, and the rest. */
  lemma RootThenRest(name: string)
    ensures name == Root(name) || (name != Root(name) && StartsWith(name, Root(name) + "."))
  {
    var (first, found, last) := Partition(name, '.');
    if found {
      assert name == first + "." + last;
      assert name[..|first + "."|] == first + ".";
    }
  }

  /** What an extern decision declares covers the name that was decided. */
  lemma ExternDecisionCovers(rules: seq<Rule>, host: Host, externs: seq<string>, name: string, e: string)
    requires Classify(rules, host, name) == Ok(ExternRoot(e)) ||
             (Classify(rules, host, name) == Ok(ByRule(Extern)) && e == name)
    requires e in externs
    ensures ExternCovers(externs, name)
  {
    if e == name {
      ExternCoversBelow(externs, name, "");
    } else {
      RootThenRest(name);
      var rest := name[|e| + 1..];
      assert name == e + "." + rest;
      ExternCoversBelow(externs, e, rest);
    }
  }

  /** Externs are only appended, so a covered name stays covered. */
  lemma ExternCoversMonotone(s: State, t: State, name: string)
    requires Extends(t, s) && ExternCovers(s.externs, name)
    ensures ExternCovers(t.externs, name)
  {
    var k :| 0 <= k < |s.externs| && (name == s.externs[k] || StartsWith(name, s.externs[k] + "."));
    assert t.externs[k] == t.externs[..|s.externs|][k];
  }

  /** A state's records keep their places in any state extending it. */
  lemma ExtendsAt(s: State, t: State, j: nat)
    requires Extends(t, s) && j < |s.records|
    ensures t.records[j] == s.records[j]
  {
    assert t.records[j] == t.records[..|s.records|][j];
  }

  /**
   * The dependency walk of `require_module_if_not_provided`, run over a
   * work list in the order the recursive exporter visits names: the head is
   * skipped when already provided or covered by a declared extern, otherwise
   * classified and acted on; a
   * bundled module's own importable dependencies go to the front of the list. The
   * result is the final state and the error that stopped the walk, if any;
   * the records written before an error stay written.
   */
  function Walk(rules: seq<Rule>, host: Host, s: State, work: seq<string>): (r: (State, Option<Error>))
    decreases host.Keys - s.provided, |work|
  {
    if work == [] then (s, None)
    else
      var name := work[0];
      if AlreadyProvided(s, name) then Walk(rules, host, s, work[1..])
      else
        match Classify(rules, host, name)
        case Err(e) => (s, Some(e))
        case Ok(ExternRoot(root)) =>
          Walk(rules, host, SaveExtern(s, root), work[1..])
        case Ok(ByRule(Extern)) =>
          Walk(rules, host, SaveExtern(s, name), work[1..])
        case Ok(ByRule(Mock)) =>
          var (s1, err) := SaveMock(s, host, name);
          if err.Some? then (s1, err)
          else
            ProvideShrinks(host, s.provided, s1.provided, name);
            Walk(rules, host, s1, work[1..])
        case Ok(Intern) =>
          if name !in host then (s, Some(HostImport(host, name).error))
          else
            var s1 := WriteSource(s, name, host[name].isPackage, HostSource);
            ProvideShrinks(host, s.provided, s1.provided, name);
            Walk(rules, host, s1, Importable(host, host[name].deps) + work[1..])
  }

  /** Providing a host module not provided before leaves strictly less to provide. */
  lemma ProvideShrinks(host: Host, before: set<string>, after: set<string>, name: string)
    requires name in host && name !in before && before + {name} <= after
    ensures host.Keys - after < host.Keys - before
  {
    assert name in host.Keys - before;
  }

  // ----- the exporter's operations, on states -----

  /** `save_source_string(name, text, is_package)`: write it, then process the modules its text imports that the host has. */
  function AfterSaveSource(rules: seq<Rule>, host: Host, s: State, name: string, text: string,
                           isPackage: bool, deps: seq<string>): (State, Option<Error>)
  {
    Walk(rules, host, WriteSource(s, name, isPackage, GivenSource(text)), Importable(host, deps))
  }

  /** `save_module(name)`: the host must know it; its source is written and its importable imports processed. */
  function AfterSaveModule(rules: seq<Rule>, host: Host, s: State, name: string): (State, Option<Error>)
  {
    if name !in host then (s, Some(HostImport(host, name).error))
    else Walk(rules, host, WriteSource(s, name, host[name].isPackage, HostSource), Importable(host, host[name].deps))
  }

  /** An import the host cannot import, wherever it stands, is dropped from the walked list. */
  lemma {:induction false} ImportableSkips(host: Host, a: seq<string>, d: string, b: seq<string>)
    requires d !in host
    ensures Importable(host, a + [d] + b) == Importable(host, a + b)
    decreases |b|
  {
    if b == [] {
      assert a + [d] + b == a + [d] && (a + [d])[..|a|] == a && a + b == a;
    } else {
      var b' := b[..|b| - 1];
      ImportableSkips(host, a, d, b');
      assert (a + [d] + b)[..|a + [d] + b| - 1] == a + [d] + b';
      assert (a + b)[..|a + b| - 1] == a + b';
    }
  }

  /**
   * Saving a source with an extra import the host cannot import ends in the
   * same state and the same outcome as without it: the import is skipped,
   * it never fails the save.
   */
  lemma UnimportableImportIgnored(rules: seq<Rule>, host: Host, s: State, name: string, text: string,
                                  isPackage: bool, a: seq<string>, d: string, b: seq<string>)
    requires d !in host
    ensures AfterSaveSource(rules, host, s, name, text, isPackage, a + [d] + b) ==
            AfterSaveSource(rules, host, s, name, text, isPackage, a + b)
  {
    ImportableSkips(host, a, d, b);
  }

  /** `require_module(name)`: act on the decision for `name`, provided or not. */
  function AfterRequire(rules: seq<Rule>, host: Host, s: State, name: string): (State, Option<Error>)
  {
    match Classify(rules, host, name)
    case Err(e) => (s, Some(e))
    case Ok(ExternRoot(root)) => (SaveExtern(s, root), None)
    case Ok(ByRule(Extern)) => (SaveExtern(s, name), None)
    case Ok(ByRule(Mock)) => SaveMock(s, host, name)
    case Ok(Intern) => AfterSaveModule(rules, host, s, name)
  }

  /** The records a closed exporter holds: everything written, then the manifest. */
  function Finished(s: State): (records: seq<Record>)
    ensures |records| == |s.records| + 2 && records[..|s.records|] == s.records
    ensures records[|s.records|] == Record(EXTERN_PATH, ExternList(s.externs))
    ensures records[|s.records| + 1] == Record(VERSION_PATH, VersionTag)
  {
    s.records + [Record(EXTERN_PATH, ExternList(s.externs)), Record(VERSION_PATH, VersionTag)]
  }

  /** Closing keeps every record in its place. */
  lemma FinishedAt(s: State, j: nat)
    requires j < |s.records|
    ensures Finished(s)[j] == s.records[j]
  {
    assert Finished(s)[j] == Finished(s)[..|s.records|][j];
  }

  // ----- what the walk guarantees -----

  /** The walk only appends records and externs and only adds provided names. */
  lemma {:induction false} WalkExtends(rules: seq<Rule>, host: Host, s: State, work: seq<string>)
    ensures Extends(Walk(rules, host, s, work).0, s)
    decreases host.Keys - s.provided, |work|
  {
    if work != [] {
      var name := work[0];
      if AlreadyProvided(s, name) {
        WalkExtends(rules, host, s, work[1..]);
      } else {
        match Classify(rules, host, name)
        case Err(e) =>
        case Ok(ExternRoot(root)) =>
          WalkExtends(rules, host, SaveExtern(s, root), work[1..]);
          ExtendsTransitive(s, SaveExtern(s, root), Walk(rules, host, s, work).0);
        case Ok(ByRule(Extern)) =>
          WalkExtends(rules, host, SaveExtern(s, name), work[1..]);
          ExtendsTransitive(s, SaveExtern(s, name), Walk(rules, host, s, work).0);
        case Ok(ByRule(Mock)) =>
          var (s1, err) := SaveMock(s, host, name);
          if err.None? {
            ProvideShrinks(host, s.provided, s1.provided, name);
            WalkExtends(rules, host, s1, work[1..]);
            ExtendsTransitive(s, s1, Walk(rules, host, s, work).0);
          }
        case Ok(Intern) =>
          if name in host {
            var s1 := WriteSource(s, name, host[name].isPackage, HostSource);
            ProvideShrinks(host, s.provided, s1.provided, name);
            WalkExtends(rules, host, s1, Importable(host, host[name].deps) + work[1..]);
            ExtendsTransitive(s, s1, Walk(rules, host, s, work).0);
          }
      }
    }
  }

  /** A record the walk may write: it carries out the decision the rules take for its module. */
  predicate SoundRecord(rules: seq<Rule>, host: Host, r: Record)
  {
    r.blob.Source? &&
    var name := r.blob.moduleName;
    r.path == SourcePath(name, r.blob.isPackage) &&
    match r.blob.code
    case HostSource =>
      Classify(rules, host, name) == Ok(Intern) && name in host && r.blob.isPackage == host[name].isPackage
    case MockImpl =>
      Classify(rules, host, name) == Ok(ByRule(Mock)) && name in host && r.blob.isPackage == host[name].isPackage
    case MockSupport => name == MOCK_SUPPORT && !r.blob.isPackage
    case GivenSource(_) => false
  }

  /** A name the walk may extern: the rules extern it, or it is an implicitly externed root. */
  predicate SoundExtern(rules: seq<Rule>, host: Host, e: string)
  {
    Classify(rules, host, e) == Ok(ExternRoot(e)) || Classify(rules, host, e) == Ok(ByRule(Extern))
  }

  /** Everything `t` added on top of `s` is sound. */
  predicate SoundAddition(rules: seq<Rule>, host: Host, s: State, t: State)
  {
    Extends(t, s) &&
    (forall k :: |s.records| <= k < |t.records| ==> SoundRecord(rules, host, t.records[k])) &&
    (forall k :: |s.externs| <= k < |t.externs| ==> SoundExtern(rules, host, t.externs[k]))
  }

  lemma SoundAdditionTransitive(rules: seq<Rule>, host: Host, a: State, b: State, c: State)
    requires SoundAddition(rules, host, a, b) && SoundAddition(rules, host, b, c)
    ensures SoundAddition(rules, host, a, c)
  {
    ExtendsTransitive(a, b, c);
    forall k | |a.records| <= k < |c.records|
      ensures SoundRecord(rules, host, c.records[k])
    {
      if k < |b.records| {
        assert c.records[k] == c.records[..|b.records|][k];
      }
    }
    forall k | |a.externs| <= k < |c.externs|
      ensures SoundExtern(rules, host, c.externs[k])
    {
      if k < |b.externs| {
        assert c.externs[k] == c.externs[..|b.externs|][k];
      }
    }
  }

  /** An implicitly externed root is classified as its own root. */
  lemma RootOfRoot(rules: seq<Rule>, host: Host, name: string)
    requires Classify(rules, host, name) == Ok(ExternRoot(Root(name)))
    ensures SoundExtern(rules, host, Root(name))
  {
    var root := Root(name);
    PartitionAt(root, "", '.');
    if '.' !in root {
      assert Partition(root, '.') == (root, false, "");
    }
  }

  lemma ExternStepSound(rules: seq<Rule>, host: Host, s: State, e: string)
    requires SoundExtern(rules, host, e)
    ensures SoundAddition(rules, host, s, SaveExtern(s, e))
  {
    var t := SaveExtern(s, e);
    assert t.records[..|s.records|] == s.records;
  }

  /** Writing one sound source record is a sound addition. */
  lemma WriteSourceSound(rules: seq<Rule>, host: Host, s: State, name: string, isPackage: bool, code: Code)
    requires SoundRecord(rules, host, Record(SourcePath(name, isPackage), Source(name, isPackage, code)))
    ensures SoundAddition(rules, host, s, WriteSource(s, name, isPackage, code))
  {
    var t := WriteSource(s, name, isPackage, code);
    assert t.records[..|s.records|] == s.records;
    assert t.records[|s.records|] == Record(SourcePath(name, isPackage), Source(name, isPackage, code));
  }

  lemma MockStepSound(rules: seq<Rule>, host: Host, s: State, name: string)
    requires Classify(rules, host, name) == Ok(ByRule(Mock))
    ensures SoundAddition(rules, host, s, SaveMock(s, host, name).0)
  {
    var s1 := if MOCK_SUPPORT in s.provided then s else WriteSource(s, MOCK_SUPPORT, false, MockSupport);
    if MOCK_SUPPORT !in s.provided {
      WriteSourceSound(rules, host, s, MOCK_SUPPORT, false, MockSupport);
    } else {
      assert s.records[..|s.records|] == s.records && s.externs[..|s.externs|] == s.externs;
    }
    if name in host {
      WriteSourceSound(rules, host, s1, name, host[name].isPackage, MockImpl);
      SoundAdditionTransitive(rules, host, s, s1, WriteSource(s1, name, host[name].isPackage, MockImpl));
    }
  }

  lemma InternStepSound(rules: seq<Rule>, host: Host, s: State, name: string)
    requires Classify(rules, host, name) == Ok(Intern) && name in host
    ensures SoundAddition(rules, host, s, WriteSource(s, name, host[name].isPackage, HostSource))
  {
    WriteSourceSound(rules, host, s, name, host[name].isPackage, HostSource);
  }

  /**
   * Soundness: every record and every extern the walk adds carries out the
   * decision the rules and the host take for that name, and the walk never
   * bundles source that came from elsewhere.
   */
  lemma {:induction false} WalkSound(rules: seq<Rule>, host: Host, s: State, work: seq<string>)
    ensures SoundAddition(rules, host, s, Walk(rules, host, s, work).0)
    decreases host.Keys - s.provided, |work|
  {
    if work != [] {
      var name := work[0];
      if AlreadyProvided(s, name) {
        WalkSound(rules, host, s, work[1..]);
      } else {
        match Classify(rules, host, name)
        case Err(e) =>
        case Ok(ExternRoot(root)) =>
          var s1 := SaveExtern(s, root);
          RootOfRoot(rules, host, name);
          ExternStepSound(rules, host, s, root);
          WalkSound(rules, host, s1, work[1..]);
          SoundAdditionTransitive(rules, host, s, s1, Walk(rules, host, s, work).0);
        case Ok(ByRule(Extern)) =>
          var s1 := SaveExtern(s, name);
          ExternStepSound(rules, host, s, name);
          WalkSound(rules, host, s1, work[1..]);
          SoundAdditionTransitive(rules, host, s, s1, Walk(rules, host, s, work).0);
        case Ok(ByRule(Mock)) =>
          var (s1, err) := SaveMock(s, host, name);
          MockStepSound(rules, host, s, name);
          if err.None? {
            ProvideShrinks(host, s.provided, s1.provided, name);
            WalkSound(rules, host, s1, work[1..]);
            SoundAdditionTransitive(rules, host, s, s1, Walk(rules, host, s, work).0);
          }
        case Ok(Intern) =>
          if name in host {
            var s1 := WriteSource(s, name, host[name].isPackage, HostSource);
            InternStepSound(rules, host, s, name);
            ProvideShrinks(host, s.provided, s1.provided, name);
            WalkSound(rules, host, s1, Importable(host, host[name].deps) + work[1..]);
            SoundAdditionTransitive(rules, host, s, s1, Walk(rules, host, s, work).0);
          }
      }
    }
  }

  // ----- each module at most once -----

  /**
   * `t` wrote every source record it added on top of `s` for a module not
   * provided in `s`, provided it, and wrote no module twice.
   */
  predicate FreshSources(s: State, t: State)
  {
    Extends(t, s) &&
    forall k :: |s.records| <= k < |t.records| && t.records[k].blob.Source? ==>
      t.records[k].blob.moduleName !in s.provided && t.records[k].blob.moduleName in t.provided &&
      forall k' :: k < k' < |t.records| && t.records[k'].blob.Source? ==>
        t.records[k'].blob.moduleName != t.records[k].blob.moduleName
  }

  lemma FreshSourcesTransitive(a: State, b: State, c: State)
    requires FreshSources(a, b) && FreshSources(b, c)
    ensures FreshSources(a, c)
  {
    ExtendsTransitive(a, b, c);
    forall k | |a.records| <= k < |c.records| && c.records[k].blob.Source?
      ensures c.records[k].blob.moduleName !in a.provided && c.records[k].blob.moduleName in c.provided
      ensures forall k' :: k < k' < |c.records| && c.records[k'].blob.Source? ==>
        c.records[k'].blob.moduleName != c.records[k].blob.moduleName
    {
      if k < |b.records| {
        assert c.records[k] == b.records[k] by {
          assert c.records[k] == c.records[..|b.records|][k];
        }
        forall k' | k < k' < |c.records| && c.records[k'].blob.Source?
          ensures c.records[k'].blob.moduleName != c.records[k].blob.moduleName
        {
          if k' < |b.records| {
            assert c.records[k'] == c.records[..|b.records|][k'];
          }
        }
      }
    }
  }

  lemma WriteSourceFresh(s: State, name: string, isPackage: bool, code: Code)
    requires name !in s.provided
    ensures FreshSources(s, WriteSource(s, name, isPackage, code))
  {
    var t := WriteSource(s, name, isPackage, code);
    assert t.records[..|s.records|] == s.records;
  }

  lemma ExternFresh(s: State, name: string)
    ensures FreshSources(s, SaveExtern(s, name))
  {
    var t := SaveExtern(s, name);
    assert t.records[..|s.records|] == s.records;
  }

  lemma MockFresh(host: Host, s: State, name: string)
    requires MOCK_SUPPORT !in host && name !in s.provided
    ensures FreshSources(s, SaveMock(s, host, name).0)
  {
    var s1 := if MOCK_SUPPORT in s.provided then s else WriteSource(s, MOCK_SUPPORT, false, MockSupport);
    if MOCK_SUPPORT !in s.provided {
      WriteSourceFresh(s, MOCK_SUPPORT, false, MockSupport);
    } else {
      assert s.records[..|s.records|] == s.records && s.externs[..|s.externs|] == s.externs;
    }
    if name in host {
      WriteSourceFresh(s1, name, host[name].isPackage, MockImpl);
      FreshSourcesTransitive(s, s1, WriteSource(s1, name, host[name].isPackage, MockImpl));
    }
  }

  /**
   * The walk visits each module at most once: it writes the source of no
   * module twice, and never of one provided before it started. (A host
   * module named like the mock helper would be written twice, as the
   * exporter would do; it is excluded.)
   */
  lemma {:induction false} WalkFresh(rules: seq<Rule>, host: Host, s: State, work: seq<string>)
    requires MOCK_SUPPORT !in host
    ensures FreshSources(s, Walk(rules, host, s, work).0)
    decreases host.Keys - s.provided, |work|
  {
    if work == [] {
      assert s.records[..|s.records|] == s.records && s.externs[..|s.externs|] == s.externs;
    } else {
      var name := work[0];
      if AlreadyProvided(s, name) {
        WalkFresh(rules, host, s, work[1..]);
      } else {
        match Classify(rules, host, name)
        case Err(e) =>
          assert s.records[..|s.records|] == s.records && s.externs[..|s.externs|] == s.externs;
        case Ok(ExternRoot(root)) =>
          var s1 := SaveExtern(s, root);
          ExternFresh(s, root);
          WalkFresh(rules, host, s1, work[1..]);
          FreshSourcesTransitive(s, s1, Walk(rules, host, s, work).0);
        case Ok(ByRule(Extern)) =>
          var s1 := SaveExtern(s, name);
          ExternFresh(s, name);
          WalkFresh(rules, host, s1, work[1..]);
          FreshSourcesTransitive(s, s1, Walk(rules, host, s, work).0);
        case Ok(ByRule(Mock)) =>
          var (s1, err) := SaveMock(s, host, name);
          MockFresh(host, s, name);
          if err.None? {
            ProvideShrinks(host, s.provided, s1.provided, name);
            WalkFresh(rules, host, s1, work[1..]);
            FreshSourcesTransitive(s, s1, Walk(rules, host, s, work).0);
          }
        case Ok(Intern) =>
          if name in host {
            var s1 := WriteSource(s, name, host[name].isPackage, HostSource);
            WriteSourceFresh(s, name, host[name].isPackage, HostSource);
            ProvideShrinks(host, s.provided, s1.provided, name);
            WalkFresh(rules, host, s1, Importable(host, host[name].deps) + work[1..]);
            FreshSourcesTransitive(s, s1, Walk(rules, host, s, work).0);
          } else {
            assert s.records[..|s.records|] == s.records && s.externs[..|s.externs|] == s.externs;
          }
      }
    }
  }

  // ----- nothing reachable is forgotten -----

  /** On top of `s`, `t` wrote the source record of `name` with the given origin. */
  predicate Wrote(s: State, t: State, name: string, isPackage: bool, code: Code)
  {
    exists k :: |s.records| <= k < |t.records| &&
      t.records[k] == Record(SourcePath(name, isPackage), Source(name, isPackage, code))
  }

  /**
   * What `t` holds on top of `s` carries out the decision for `name`: a
   * declared extern covers it (which is how an extern decision, by a rule or
   * implicit for the root, is carried out, and why a name below an extern
   * needs nothing more), or it is mocked and its stub was written, or it is
   * interned and its host source was written, or it is the mock helper and
   * the helper was written.
   */
  predicate CarriedOut(rules: seq<Rule>, host: Host, s: State, t: State, name: string)
  {
    ExternCovers(t.externs, name) ||
    (name in host && Classify(rules, host, name) == Ok(ByRule(Mock)) &&
     Wrote(s, t, name, host[name].isPackage, MockImpl)) ||
    (name in host && Classify(rules, host, name) == Ok(Intern) &&
     Wrote(s, t, name, host[name].isPackage, HostSource)) ||
    (name == MOCK_SUPPORT && Wrote(s, t, name, false, MockSupport))
  }

  /** A name is accounted for when it was provided before the walk or the walk carried out its decision. */
  predicate Accounted(rules: seq<Rule>, host: Host, s: State, t: State, name: string)
  {
    name in s.provided || CarriedOut(rules, host, s, t, name)
  }

  /** Every name `t` provides on top of `s` has had its decision carried out. */
  predicate ProvidedCarriedOut(rules: seq<Rule>, host: Host, s: State, t: State)
  {
    forall n :: n in t.provided && n !in s.provided ==> CarriedOut(rules, host, s, t, n)
  }

  /** A record holding a module's source as read from the host. */
  predicate FromHost(r: Record) {
    r.blob.Source? && r.blob.code == HostSource
  }

  /** Every module `t` bundled from the host on top of `s` has all its dependencies accounted for. */
  predicate DepsAccounted(rules: seq<Rule>, host: Host, s: State, t: State)
  {
    forall k ::
      (|s.records| <= k < |t.records| && FromHost(t.records[k]) && t.records[k].blob.moduleName in host) ==>
      forall d :: d in host[t.records[k].blob.moduleName].deps && d in host ==> Accounted(rules, host, s, t, d)
  }

  lemma ExtendsReflexive(s: State)
    ensures Extends(s, s)
  {
    assert s.records[..|s.records|] == s.records && s.externs[..|s.externs|] == s.externs;
  }

  /** What is carried out stays carried out as the state grows. */
  lemma CarriedOutGrows(rules: seq<Rule>, host: Host, s: State, t1: State, t: State, name: string)
    requires Extends(t, t1) && CarriedOut(rules, host, s, t1, name)
    ensures CarriedOut(rules, host, s, t, name)
  {
    if ExternCovers(t1.externs, name) {
      ExternCoversMonotone(t1, t, name);
    } else {
      var code := if name == MOCK_SUPPORT && Wrote(s, t1, name, false, MockSupport) then MockSupport
                  else if Classify(rules, host, name) == Ok(ByRule(Mock)) then MockImpl else HostSource;
      var isPackage := if code == MockSupport then false else host[name].isPackage;
      var k :| |s.records| <= k < |t1.records| &&
        t1.records[k] == Record(SourcePath(name, isPackage), Source(name, isPackage, code));
      assert t.records[k] == t.records[..|t1.records|][k];
    }
  }

  /** What was carried out on top of a later state was carried out on top of an earlier one. */
  lemma CarriedOutEarlier(rules: seq<Rule>, host: Host, s: State, s1: State, t: State, name: string)
    requires |s.records| <= |s1.records| && CarriedOut(rules, host, s1, t, name)
    ensures CarriedOut(rules, host, s, t, name)
  {
  }

  /** A name accounted for by the rest of the walk is accounted for by the whole walk. */
  lemma AccountedEarlier(rules: seq<Rule>, host: Host, s: State, s1: State, t: State, name: string)
    requires Extends(s1, s) && Extends(t, s1)
    requires ProvidedCarriedOut(rules, host, s, t) && Accounted(rules, host, s1, t, name)
    ensures Accounted(rules, host, s, t, name)
  {
    if name !in s1.provided {
      CarriedOutEarlier(rules, host, s, s1, t, name);
    }
  }

  /**
   * One step of the walk from `s` to `s1`, then the rest of the walk over
   * `rest` to `t`: if the step carried out the head's decision (or the head
   * was provided before), and the rest covers the tail and the dependencies
   * of whatever the step bundled, the whole walk is complete.
   */
  lemma StepComplete(rules: seq<Rule>, host: Host, s: State, s1: State, t: State,
                     work: seq<string>, rest: seq<string>)
    requires work != [] && Extends(s1, s) && Extends(t, s1)
    requires work[0] in s.provided || CarriedOut(rules, host, s, s1, work[0])
    requires ProvidedCarriedOut(rules, host, s, s1)
    requires forall k :: (|s.records| <= k < |s1.records| && FromHost(s1.records[k]) &&
                          s1.records[k].blob.moduleName in host) ==>
      forall d :: d in host[s1.records[k].blob.moduleName].deps && d in host ==> d in rest
    requires forall n :: n in work[1..] ==> n in rest
    requires forall n :: n in rest ==> Accounted(rules, host, s1, t, n)
    requires DepsAccounted(rules, host, s1, t) && ProvidedCarriedOut(rules, host, s1, t)
    ensures forall n :: n in work ==> Accounted(rules, host, s, t, n)
    ensures DepsAccounted(rules, host, s, t) && ProvidedCarriedOut(rules, host, s, t)
  {
    ExtendsReflexive(t);
    ExtendsTransitive(s, s1, t);
    forall n | n in t.provided && n !in s.provided
      ensures CarriedOut(rules, host, s, t, n)
    {
      if n in s1.provided {
        CarriedOutGrows(rules, host, s, s1, t, n);
      } else {
        CarriedOutEarlier(rules, host, s, s1, t, n);
      }
    }
    forall n | n in work
      ensures Accounted(rules, host, s, t, n)
    {
      if n == work[0] {
        if n !in s.provided {
          CarriedOutGrows(rules, host, s, s1, t, n);
        }
      } else {
        assert n in work[1..];
        AccountedEarlier(rules, host, s, s1, t, n);
      }
    }
    forall k, d | |s.records| <= k < |t.records| && FromHost(t.records[k]) && t.records[k].blob.moduleName in host &&
      d in host[t.records[k].blob.moduleName].deps && d in host
      ensures Accounted(rules, host, s, t, d)
    {
      if k < |s1.records| {
        assert t.records[k] == s1.records[k] by {
          assert t.records[k] == t.records[..|s1.records|][k];
        }
      }
      AccountedEarlier(rules, host, s, s1, t, d);
    }
  }

  /** The step that skips a name already provided or covered by an extern. */
  lemma SkipStepDone(rules: seq<Rule>, host: Host, s: State, name: string)
    requires AlreadyProvided(s, name)
    ensures Extends(s, s) && ProvidedCarriedOut(rules, host, s, s)
    ensures name in s.provided || CarriedOut(rules, host, s, s, name)
  {
    ExtendsReflexive(s);
  }

  /** The step that externs `e` for the head `name` carries out its decision. */
  lemma ExternStepDone(rules: seq<Rule>, host: Host, s: State, name: string, e: string)
    requires Classify(rules, host, name) == Ok(ExternRoot(e)) ||
             (Classify(rules, host, name) == Ok(ByRule(Extern)) && e == name)
    ensures var s1 := SaveExtern(s, e);
      Extends(s1, s) && s1.records == s.records &&
      CarriedOut(rules, host, s, s1, name) && ProvidedCarriedOut(rules, host, s, s1)
  {
    var s1 := SaveExtern(s, e);
    ExternFresh(s, e);
    ExternDecisionCovers(rules, host, s1.externs, name, e);
    ExternCoversBelow(s1.externs, e, "");
  }

  /** The step that mocks the head `name` writes its stub (and the helper, the first time). */
  lemma MockStepDone(rules: seq<Rule>, host: Host, s: State, name: string)
    requires name in host && Classify(rules, host, name) == Ok(ByRule(Mock))
    ensures var s1 := SaveMock(s, host, name).0;
      Extends(s1, s) &&
      CarriedOut(rules, host, s, s1, name) && ProvidedCarriedOut(rules, host, s, s1) &&
      forall k :: |s.records| <= k < |s1.records| ==> !FromHost(s1.records[k])
  {
    var s0 := if MOCK_SUPPORT in s.provided then s else WriteSource(s, MOCK_SUPPORT, false, MockSupport);
    var s1 := WriteSource(s0, name, host[name].isPackage, MockImpl);
    assert SaveMock(s, host, name).0 == s1;
    HelperWritten(s, s0);
    StubWritten(s, s0, name, host[name].isPackage);
    StubCarriedOut(rules, host, s, s1, name);
    forall n | n in s1.provided && n !in s.provided
      ensures CarriedOut(rules, host, s, s1, n)
    {
      if n != name {
        assert n in s0.provided;
        assert n in s.provided + {MOCK_SUPPORT};
        HelperCarriedOut(rules, host, s, s1);
      }
    }
  }

  lemma StubCarriedOut(rules: seq<Rule>, host: Host, s: State, t: State, name: string)
    requires name in host && Classify(rules, host, name) == Ok(ByRule(Mock))
    requires Wrote(s, t, name, host[name].isPackage, MockImpl)
    ensures CarriedOut(rules, host, s, t, name)
  {
  }

  lemma HelperCarriedOut(rules: seq<Rule>, host: Host, s: State, t: State)
    requires Wrote(s, t, MOCK_SUPPORT, false, MockSupport)
    ensures CarriedOut(rules, host, s, t, MOCK_SUPPORT)
  {
  }

  /** The mock helper, when it is written, is written right after `s`. */
  lemma HelperWritten(s: State, s0: State)
    requires s0 == if MOCK_SUPPORT in s.provided then s else WriteSource(s, MOCK_SUPPORT, false, MockSupport)
    ensures Extends(s0, s) && s0.provided <= s.provided + {MOCK_SUPPORT}
    ensures forall k :: |s.records| <= k < |s0.records| ==>
      s0.records[k] == Record(SourcePath(MOCK_SUPPORT, false), Source(MOCK_SUPPORT, false, MockSupport))
    ensures MOCK_SUPPORT !in s.provided ==> Wrote(s, s0, MOCK_SUPPORT, false, MockSupport)
  {
    ExtendsReflexive(s);
    if MOCK_SUPPORT !in s.provided {
      assert s0.records[..|s.records|] == s.records;
      assert s0.records[|s.records|] == Record(SourcePath(MOCK_SUPPORT, false), Source(MOCK_SUPPORT, false, MockSupport));
    }
  }

  /** The stub is written after the helper; the helper stays written. */
  lemma StubWritten(s: State, s0: State, name: string, isPackage: bool)
    requires Extends(s0, s)
    requires forall k :: |s.records| <= k < |s0.records| ==>
      s0.records[k] == Record(SourcePath(MOCK_SUPPORT, false), Source(MOCK_SUPPORT, false, MockSupport))
    ensures var s1 := WriteSource(s0, name, isPackage, MockImpl);
      Extends(s1, s) && Wrote(s, s1, name, isPackage, MockImpl) &&
      (Wrote(s, s0, MOCK_SUPPORT, false, MockSupport) ==> Wrote(s, s1, MOCK_SUPPORT, false, MockSupport)) &&
      forall k :: |s.records| <= k < |s1.records| ==> !FromHost(s1.records[k])
  {
    var s1 := WriteSource(s0, name, isPackage, MockImpl);
    assert s1.records[..|s0.records|] == s0.records;
    ExtendsTransitive(s, s0, s1);
    assert s1.records[|s0.records|] == Record(SourcePath(name, isPackage), Source(name, isPackage, MockImpl));
  }

  /** The step that interns the head `name` writes its host source and queues nothing but its dependencies. */
  lemma InternStepDone(rules: seq<Rule>, host: Host, s: State, name: string)
    requires name in host && Classify(rules, host, name) == Ok(Intern)
    ensures var s1 := WriteSource(s, name, host[name].isPackage, HostSource);
      Extends(s1, s) &&
      CarriedOut(rules, host, s, s1, name) && ProvidedCarriedOut(rules, host, s, s1) &&
      forall k :: |s.records| <= k < |s1.records| ==> s1.records[k].blob.moduleName == name
  {
    var s1 := WriteSource(s, name, host[name].isPackage, HostSource);
    assert s1.records[..|s.records|] == s.records;
    assert s1.records[|s.records|] == Record(SourcePath(name, host[name].isPackage), Source(name, host[name].isPackage, HostSource));
  }

  /**
   * What completeness asks of a walk from `s` over `work`: when it succeeds,
   * every name it was given was provided before or has had its decision
   * carried out, and so has every dependency of every module it bundled and
   * every name it provided.
   */
  predicate CompleteWalk(rules: seq<Rule>, host: Host, s: State, work: seq<string>)
  {
    var (t, err) := Walk(rules, host, s, work);
    err.None? ==>
      (forall n :: n in work ==> Accounted(rules, host, s, t, n)) &&
      DepsAccounted(rules, host, s, t) && ProvidedCarriedOut(rules, host, s, t)
  }

  /** Completeness of the dependency walk. */
  lemma {:induction false} WalkComplete(rules: seq<Rule>, host: Host, s: State, work: seq<string>)
    ensures CompleteWalk(rules, host, s, work)
    decreases host.Keys - s.provided, |work|, 1
  {
    if work != [] {
      var name := work[0];
      if AlreadyProvided(s, name) {
        assert Walk(rules, host, s, work) == Walk(rules, host, s, work[1..]);
        WalkComplete(rules, host, s, work[1..]);
        WalkExtends(rules, host, s, work[1..]);
        SkipStepDone(rules, host, s, name);
        if Walk(rules, host, s, work).1.None? {
          StepComplete(rules, host, s, s, Walk(rules, host, s, work).0, work, work[1..]);
        }
      } else {
        match Classify(rules, host, name)
        case Err(e) =>
        case Ok(ExternRoot(root)) =>
          ExternCaseComplete(rules, host, s, work, root);
        case Ok(ByRule(Extern)) =>
          ExternCaseComplete(rules, host, s, work, name);
        case Ok(ByRule(Mock)) =>
          var (s1, err1) := SaveMock(s, host, name);
          if err1.None? {
            ProvideShrinks(host, s.provided, s1.provided, name);
            MockCaseComplete(rules, host, s, work);
          }
        case Ok(Intern) =>
          if name in host {
            ProvideShrinks(host, s.provided, s.provided + {name}, name);
            InternCaseComplete(rules, host, s, work);
          }
      }
    }
  }

  /** The walk's step that externs `e` (the head of the work list or its root). */
  lemma {:induction false} ExternCaseComplete(rules: seq<Rule>, host: Host, s: State, work: seq<string>, e: string)
    requires work != [] && !AlreadyProvided(s, work[0])
    requires Classify(rules, host, work[0]) == Ok(ExternRoot(e)) ||
             (Classify(rules, host, work[0]) == Ok(ByRule(Extern)) && e == work[0])
    ensures CompleteWalk(rules, host, s, work)
    decreases host.Keys - s.provided, |work|, 0
  {
    var s1 := SaveExtern(s, e);
    assert Walk(rules, host, s, work) == Walk(rules, host, s1, work[1..]);
    WalkComplete(rules, host, s1, work[1..]);
    WalkExtends(rules, host, s1, work[1..]);
    ExternStepDone(rules, host, s, work[0], e);
    if Walk(rules, host, s1, work[1..]).1.None? {
      StepComplete(rules, host, s, s1, Walk(rules, host, s1, work[1..]).0, work, work[1..]);
    }
  }

  /** The walk's step that mocks the head of the work list. */
  lemma {:induction false} MockCaseComplete(rules: seq<Rule>, host: Host, s: State, work: seq<string>)
    requires work != [] && !AlreadyProvided(s, work[0]) && work[0] in host
    requires Classify(rules, host, work[0]) == Ok(ByRule(Mock))
    requires host.Keys - SaveMock(s, host, work[0]).0.provided < host.Keys - s.provided
    ensures CompleteWalk(rules, host, s, work)
    decreases host.Keys - s.provided, |work|, 0
  {
    var s1 := SaveMock(s, host, work[0]).0;
    assert Walk(rules, host, s, work) == Walk(rules, host, s1, work[1..]);
    WalkComplete(rules, host, s1, work[1..]);
    WalkExtends(rules, host, s1, work[1..]);
    MockStepDone(rules, host, s, work[0]);
    if Walk(rules, host, s1, work[1..]).1.None? {
      StepComplete(rules, host, s, s1, Walk(rules, host, s1, work[1..]).0, work, work[1..]);
    }
  }

  /** The walk's step that bundles the head of the work list and queues its dependencies. */
  lemma {:induction false} InternCaseComplete(rules: seq<Rule>, host: Host, s: State, work: seq<string>)
    requires work != [] && !AlreadyProvided(s, work[0]) && work[0] in host
    requires Classify(rules, host, work[0]) == Ok(Intern)
    requires host.Keys - (s.provided + {work[0]}) < host.Keys - s.provided
    ensures CompleteWalk(rules, host, s, work)
    decreases host.Keys - s.provided, |work|, 0
  {
    var name := work[0];
    var s1 := WriteSource(s, name, host[name].isPackage, HostSource);
    var rest := Importable(host, host[name].deps) + work[1..];
    assert Walk(rules, host, s, work) == Walk(rules, host, s1, rest);
    WalkComplete(rules, host, s1, rest);
    WalkExtends(rules, host, s1, rest);
    InternStepDone(rules, host, s, name);
    if Walk(rules, host, s1, rest).1.None? {
      assert forall n :: n in work[1..] ==> n in rest;
      assert forall d :: d in host[name].deps && d in host ==> d in rest;
      StepComplete(rules, host, s, s1, Walk(rules, host, s1, rest).0, work, rest);
    }
  }
}
