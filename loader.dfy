/**
 * `PackageImporter`: how a finished archive is seen when it is loaded.
 *
 * The importer reads the extern list the exporter wrote under `.data`,
 * draws a fresh mangler, and from then on resolves dotted names against
 * the archive's records: a name an extern covers (the name itself or one
 * of its dotted prefixes was declared extern) is handed to the host's
 * import system; a name that is a directory of the archive is a package
 * (with its `__init__.py` as source, if there is one); a name whose `.py`
 * file is stored is a plain module; anything else is not found. Modules
 * loaded from the archive carry this importer's mangled name, never the
 * name the host knows them by.
 */
module Loader {
  import opened Wrappers
  import opened Strings
  import opened Mangling
  import opened Archive

  /** A module object as the test can tell them apart. */
  datatype ModuleRef =
    | HostRef(name: string)  // the host's own module object
    | Packaged(name: string, mangled: string, isPackage: bool, source: Option<Blob>)

  // ----- reading records -----

  /** `dir` is a proper prefix of `path`: the path lies inside that directory. */
  predicate Inside(dir: seq<string>, path: seq<string>) {
    |dir| < |path| && path[..|dir|] == dir
  }

  /** A source path inside the directory of `name` belongs to `name` itself or to a module below it. */
  lemma InsideBelow(name: string, other: string, isPackage: bool)
    requires Inside(Split(name, '.'), SourcePath(other, isPackage))
    ensures other == name || StartsWith(other, name + ".")
  {
    var segs, own := Split(name, '.'), Split(other, '.');
    var path := SourcePath(other, isPackage);
    assert segs == path[..|path| - 1][..|segs|];
    assert segs == own[..|segs|];
    if |segs| == |own| {
      assert own == segs;
      SplitInjective(name, other, '.');
    } else {
      var below := own[|segs|..];
      assert own == segs + below;
      JoinAppend(segs, below, '.');
      JoinSplit(name, '.');
      JoinSplit(other, '.');
      assert other == name + "." + Join(below, '.');
      assert other[..|name + "."|] == name + ".";
    }
  }

  /** Some record of the archive lies inside `dir`. */
  predicate IsDirectory(records: seq<Record>, dir: seq<string>) {
    exists k :: 0 <= k < |records| && Inside(dir, records[k].path)
  }

  /**
   * The index of the record stored at `path`: the one written last, as a
   * zip directory with a repeated name yields its later entry.
   */
  function LastAt(records: seq<Record>, path: seq<string>): (r: Option<nat>)
    ensures r.None? <==> forall k :: 0 <= k < |records| ==> records[k].path != path
    ensures r.Some? ==> r.value < |records| && records[r.value].path == path
    ensures r.Some? ==> forall j :: r.value < j < |records| ==> records[j].path != path
    decreases |records|
  {
    if records == [] then None
    else if records[|records| - 1].path == path then Some(|records| - 1)
    else LastAt(records[..|records| - 1], path)
  }

  /** The blob stored at `path`, if any. */
  function Lookup(records: seq<Record>, path: seq<string>): (r: Option<Blob>)
    ensures r.None? <==> forall k :: 0 <= k < |records| ==> records[k].path != path
  {
    match LastAt(records, path)
    case None => None
    case Some(k) => Some(records[k].blob)
  }

  /** A record no later record overwrites is the one read back. */
  lemma {:induction false} LookupLast(records: seq<Record>, k: nat, path: seq<string>)
    requires k < |records| && records[k].path == path
    requires forall j :: k < j < |records| ==> records[j].path != path
    ensures Lookup(records, path) == Some(records[k].blob)
    decreases |records|
  {
    if k < |records| - 1 {
      var earlier := records[..|records| - 1];
      assert forall j :: k < j < |earlier| ==> earlier[j] == records[j];
      LookupLast(earlier, k, path);
    }
  }

  /** `_read_extern`: the names listed in `.data/extern_modules`. */
  function ReadExterns(records: seq<Record>): (r: Result<seq<string>, Error>)
    ensures r.Err? ==> r.error == MissingRecord(EXTERN_PATH)
  {
    match Lookup(records, EXTERN_PATH)
    case Some(ExternList(names)) => Ok(names)
    case _ => Err(MissingRecord(EXTERN_PATH))
  }

  // ----- an opened archive -----

  /** What a `PackageImporter` resolves against; fixed once it is opened. */
  datatype Loaded = Loaded(records: seq<Record>, externs: seq<string>, host: Host, mangler: PackageMangler)

  /**
   * `import_module(name)` of a package importer. The empty name is refused
   * as Python's import system refuses it; an extern is imported from the
   * host under its own name; a directory is a package, whose source is its
   * `__init__.py` if stored; a stored `.py` file is a plain module.
   */
  function Resolve(v: Loaded, name: string): (r: Result<ModuleRef, Error>)
    ensures r.Err? ==> r.error in {EmptyModuleName, ModuleNotFound(name)}
    ensures r.Ok? && r.value.HostRef? <==> name != "" && ExternCovers(v.externs, name) && name in v.host
    ensures r.Ok? && r.value.HostRef? ==> r.value.name == name
    ensures r.Ok? && r.value.Packaged? ==>
      name != "" && r.value.name == name && r.value.mangled == v.mangler.Mangle(name).value &&
      IsMangled(r.value.mangled) && Demangle(r.value.mangled) == name
    ensures r.Ok? && r.value.Packaged? ==>
      IsDirectory(v.records, Split(name, '.')) || Lookup(v.records, SourcePath(name, false)).Some?
    ensures (name != "" && !ExternCovers(v.externs, name) && !IsDirectory(v.records, Split(name, '.')) &&
             Lookup(v.records, SourcePath(name, false)).None?) ==> r == Err(ModuleNotFound(name))
  {
    if name == "" then Err(EmptyModuleName)
    else if ExternCovers(v.externs, name) then
      if name in v.host then Ok(HostRef(name)) else Err(ModuleNotFound(name))
    else
      var mangled := v.mangler.Mangle(name).value;
      var segs := Split(name, '.');
      if IsDirectory(v.records, segs) then
        Ok(Packaged(name, mangled, true, Lookup(v.records, segs + ["__init__.py"])))
      else
        match Lookup(v.records, SourcePath(name, false))
        case Some(b) => Ok(Packaged(name, mangled, false, Some(b)))
        case None => Err(ModuleNotFound(name))
  }

  /** A module whose source is a mock stub. */
  predicate IsStub(m: ModuleRef) {
    m.Packaged? && m.source.Some? && m.source.value.Source? && m.source.value.code == MockImpl
  }

  /**
   * Calling `m.attr(...)`: every attribute of a stub is a mocked object whose
   * call fails, naming the attribute under the module's (mangled) name. What
   * other modules' attributes do is their own code, which is not modelled.
   */
  function CallAttribute(m: ModuleRef, attr: string): (r: Option<Error>)
    ensures r.Some? <==> IsStub(m)
    ensures r.Some? ==> r.value == MockedOut(m.mangled + "." + attr)
  {
    if IsStub(m) then Some(MockedOut(m.mangled + "." + attr)) else None
  }

  /** Opening an archive: its extern list must be present. */
  function Open(records: seq<Record>, host: Host, m: PackageMangler): (r: Result<Loaded, Error>)
    ensures r.Ok? ==> r.value.records == records && r.value.host == host && r.value.mangler == m
  {
    var externs :- ReadExterns(records);
    Ok(Loaded(records, externs, host, m))
  }

  /**
   * The object the test imports through: a fixed view of the archive and
   * the `modules` cache of everything imported so far, so that importing
   * one name twice yields the same module object.
   */
  class PackageImporter {
    const view: Loaded
    var modules: map<string, ModuleRef>

    /** Every cached module is what resolution gives for its name. */
    ghost predicate Valid()
      reads this
    {
      forall n :: n in modules ==> Resolve(view, n) == Ok(modules[n])
    }

    constructor (records: seq<Record>, externs: seq<string>, host: Host, counter: MangleIndex)
      requires counter.Valid()
      modifies counter
      ensures Valid() && modules == map[]
      ensures view.records == records && view.externs == externs && view.host == host
      ensures view.mangler.index == old(counter.next) && view.mangler.index !in old(counter.issued)
      ensures counter.Valid() && counter.issued == old(counter.issued) + {view.mangler.index}
    {
      var m := new PackageMangler(counter);
      view := Loaded(records, externs, host, m);
      modules := map[];
    }

    /** `import_module(name)`: the cached module if there is one, else resolve and cache it. */
    method ImportModule(name: string) returns (r: Result<ModuleRef, Error>)
      requires Valid()
      modifies this`modules
      ensures Valid()
      ensures r == Resolve(view, name)
      ensures r.Ok? ==> name in modules && modules[name] == r.value
      ensures forall n :: n in old(modules) ==> n in modules && modules[n] == old(modules)[n]
    {
      if name in modules {
        return Ok(modules[name]);
      }
      r := Resolve(view, name);
      if r.Ok? {
        modules := modules[name := r.value];
      }
    }
  }

  /** `PackageImporter(archive)`: read the extern list, then build the importer around it. */
  method OpenImporter(records: seq<Record>, host: Host, counter: MangleIndex)
    returns (r: Result<PackageImporter, Error>)
    requires counter.Valid()
    modifies counter
    ensures counter.Valid()
    ensures ReadExterns(records).Err? ==> r == Err(ReadExterns(records).error)
    ensures r.Ok? ==> ReadExterns(records) == Ok(r.value.view.externs) && r.value.Valid() &&
                      r.value.view.records == records && r.value.view.host == host &&
                      r.value.view.mangler.index !in old(counter.issued)
  {
    var externs := ReadExterns(records);
    if externs.Err? {
      return Err(externs.error);
    }
    var importer := new PackageImporter(records, externs.value, host, counter);
    return Ok(importer);
  }

  // ----- what loading guarantees -----

  /** Packaged modules of two importers never share a name, nor share one with a host module. */
  lemma {:induction false} UniqueModuleNames(v: Loaded, w: Loaded, x: string, y: string)
    requires v.mangler.index != w.mangler.index
    requires Resolve(v, x).Ok? && Resolve(v, x).value.Packaged?
    requires Resolve(w, y).Ok? && Resolve(w, y).value.Packaged?
    ensures Resolve(v, x).value.mangled != Resolve(w, y).value.mangled
    ensures Resolve(v, x).value.mangled != x
  {
    DistinctManglersNeverCollide(v.mangler, w.mangler, x, y);
    if Resolve(v, x).value.mangled == x {
      DemangledIsMangledIff(v.mangler, x);
    }
  }

  /** The manifest `close` writes is what the importer reads back. */
  lemma {:induction false} FinishedExterns(s: State)
    ensures ReadExterns(Finished(s)) == Ok(s.externs)
  {
    var records := Finished(s);
    assert records[|records| - 1].path == VERSION_PATH != EXTERN_PATH;
    assert records[..|records| - 1][|records| - 2] == Record(EXTERN_PATH, ExternList(s.externs));
  }

  /** Every state the exporter can reach opens. */
  lemma OpenFinished(s: State, host: Host, m: PackageMangler)
    ensures Open(Finished(s), host, m) == Ok(Loaded(Finished(s), s.externs, host, m))
  {
    FinishedExterns(s);
  }

  /**
   * `test_extern`, `test_extern_glob` and `test_saving_string`: once
   * `require_module` has externed a module (by a rule, or because its root is
   * `torch` or part of the standard library), the loaded archive hands that
   * module out as the host's own object.
   */
  lemma {:induction false} RequiredExternLoadsFromHost(rules: seq<Rule>, host: Host, s: State,
                                                       name: string, m: PackageMangler)
    requires name != "" && name in host
    requires Classify(rules, host, name) == Ok(ByRule(Extern)) ||
             Classify(rules, host, name) == Ok(ExternRoot(Root(name)))
    ensures var t := AfterRequire(rules, host, s, name);
      t.1.None? &&
      Resolve(Loaded(Finished(t.0), t.0.externs, host, m), name) == Ok(HostRef(name))
  {
    var t := AfterRequire(rules, host, s, name).0;
    var e := if Classify(rules, host, name) == Ok(ByRule(Extern)) then name else Root(name);
    ExternDecisionCovers(rules, host, t.externs, name, e);
  }


  /** The path of a module's source lies inside the directory of its segments exactly when it is a package. */
  lemma SourcePathInside(name: string, isPackage: bool)
    ensures Inside(Split(name, '.'), SourcePath(name, isPackage)) <==> isPackage
  {
  }

  /** No source or manifest path lies inside the directory of another module's own segments, unless it is a package's. */
  lemma {:induction false} ManifestNotInside(name: string)
    ensures !Inside(Split(name, '.'), EXTERN_PATH) && !Inside(Split(name, '.'), VERSION_PATH)
  {
    var segs := Split(name, '.');
    if |segs| < 2 {
      assert segs[0] != DATA_DIR by {
        assert '.' in DATA_DIR;
      }
    }
  }

  /**
   * A module whose source is stored at its path resolves to that source,
   * unless an extern covers it or (for a plain module) its name is also a
   * directory of the archive.
   */
  lemma ResolveStored(v: Loaded, name: string, isPackage: bool, b: Blob)
    requires name != "" && !ExternCovers(v.externs, name)
    requires Lookup(v.records, SourcePath(name, isPackage)) == Some(b)
    requires !isPackage ==> !IsDirectory(v.records, Split(name, '.'))
    ensures Resolve(v, name) == Ok(Packaged(name, v.mangler.Mangle(name).value, isPackage, Some(b)))
  {
    if isPackage {
      var k := LastAt(v.records, SourcePath(name, true)).value;
      SourcePathInside(name, true);
      assert Inside(Split(name, '.'), v.records[k].path);
    }
  }

  /** What `require_module` of a mocked host module leaves: the helper once, then the stub. */
  lemma MockedState(rules: seq<Rule>, host: Host, s: State, name: string)
    requires name in host && Classify(rules, host, name) == Ok(ByRule(Mock))
    ensures var s1 := if MOCK_SUPPORT in s.provided then s else WriteSource(s, MOCK_SUPPORT, false, MockSupport);
      AfterRequire(rules, host, s, name) == (WriteSource(s1, name, host[name].isPackage, MockImpl), None)
  {
  }

  /** After the stub is written, it is what the module's path reads back. */
  lemma {:induction false} StubStored(s1: State, name: string, isPackage: bool)
    ensures Lookup(Finished(WriteSource(s1, name, isPackage, MockImpl)), SourcePath(name, isPackage))
              == Some(Source(name, isPackage, MockImpl))
  {
    var t := WriteSource(s1, name, isPackage, MockImpl);
    var records := Finished(t);
    var n := |t.records| - 1;
    assert records[n] == t.records[n] == Record(SourcePath(name, isPackage), Source(name, isPackage, MockImpl));
    SourcePathNotManifest(name, isPackage);
    LookupLast(records, n, SourcePath(name, isPackage));
  }

  /** Two record lists neither of which makes `dir` a directory do not make it one together. */
  lemma NoDirectoryAppend(a: seq<Record>, b: seq<Record>, dir: seq<string>)
    requires !IsDirectory(a, dir) && !IsDirectory(b, dir)
    ensures !IsDirectory(a + b, dir)
  {
    forall k | 0 <= k < |a + b|
      ensures !Inside(dir, (a + b)[k].path)
    {
      if k < |a| {
        assert (a + b)[k] == a[k];
      } else {
        assert (a + b)[k] == b[k - |a|];
      }
    }
  }

  /** Writing the helper and the stub of a plain module makes no directory of the module's name. */
  lemma {:induction false} StubNoDirectory(s: State, s1: State, name: string)
    requires s1 == if MOCK_SUPPORT in s.provided then s else WriteSource(s, MOCK_SUPPORT, false, MockSupport)
    requires !IsDirectory(s.records, Split(name, '.'))
    ensures !IsDirectory(Finished(WriteSource(s1, name, false, MockImpl)), Split(name, '.'))
  {
    var segs := Split(name, '.');
    if MOCK_SUPPORT !in s.provided {
      MockSupportPath();
      var helper := [Record(SourcePath(MOCK_SUPPORT, false), Source(MOCK_SUPPORT, false, MockSupport))];
      assert !Inside(segs, helper[0].path);
      NoDirectoryAppend(s.records, helper, segs);
      assert s1.records == s.records + helper;
    }
    var t := WriteSource(s1, name, false, MockImpl);
    var stub := [Record(SourcePath(name, false), Source(name, false, MockImpl))];
    SourcePathInside(name, false);
    assert !Inside(segs, stub[0].path);
    NoDirectoryAppend(s1.records, stub, segs);
    assert t.records == s1.records + stub;
    var manifest := [Record(EXTERN_PATH, ExternList(t.externs)), Record(VERSION_PATH, VersionTag)];
    ManifestNotInside(name);
    assert !Inside(segs, manifest[0].path) && !Inside(segs, manifest[1].path);
    NoDirectoryAppend(t.records, manifest, segs);
    assert Finished(t) == t.records + manifest;
  }

  /**
   * `test_mock` and `test_mock_glob`: a module `require_module` mocked loads
   * as a stub, under the importer's mangled name, and calling any of its
   * attributes fails as mocked out. The module must not already be covered
   * by an extern, and (for a plain module) no earlier record may make its
   * name a directory.
   */
  lemma RequiredMockLoadsAsStub(rules: seq<Rule>, host: Host, s: State,
                                name: string, m: PackageMangler, attr: string)
    requires name != "" && name in host
    requires Classify(rules, host, name) == Ok(ByRule(Mock))
    requires !ExternCovers(s.externs, name)
    requires !host[name].isPackage ==> !IsDirectory(s.records, Split(name, '.'))
    ensures var t := AfterRequire(rules, host, s, name);
      var r := Resolve(Loaded(Finished(t.0), t.0.externs, host, m), name);
      t.1.None? && r.Ok? && IsStub(r.value) &&
      r.value == Packaged(name, m.Mangle(name).value, host[name].isPackage,
                          Some(Source(name, host[name].isPackage, MockImpl))) &&
      CallAttribute(r.value, attr) == Some(MockedOut(m.Mangle(name).value + "." + attr))
  {
    var s1 := if MOCK_SUPPORT in s.provided then s else WriteSource(s, MOCK_SUPPORT, false, MockSupport);
    var t := AfterRequire(rules, host, s, name).0;
    MockedState(rules, host, s, name);
    StubStored(s1, name, host[name].isPackage);
    if !host[name].isPackage {
      StubNoDirectory(s, s1, name);
    }
    ResolveStored(Loaded(Finished(t), t.externs, host, m), name, host[name].isPackage,
                  Source(name, host[name].isPackage, MockImpl));
  }

  /**
   * `test_extern`, `test_mock` and `test_single_ordered_importer`: a module
   * `save_module` bundled loads from the archive, under the importer's
   * mangled name, never as the host's object, as long as no extern covers it.
   */
  lemma {:induction false} SavedModuleLoadsPackaged(rules: seq<Rule>, host: Host, s: State,
                                                    name: string, m: PackageMangler)
    requires name != "" && name in host
    requires var t := AfterSaveModule(rules, host, s, name).0; !ExternCovers(t.externs, name)
    ensures var t := AfterSaveModule(rules, host, s, name).0;
      var r := Resolve(Loaded(Finished(t), t.externs, host, m), name);
      r.Ok? && r.value.Packaged? && r.value.mangled == m.Mangle(name).value &&
      r.value != HostRef(name)
  {
    var isPackage := host[name].isPackage;
    var s1 := WriteSource(s, name, isPackage, HostSource);
    var t := AfterSaveModule(rules, host, s, name).0;
    WalkExtends(rules, host, s1, Importable(host, host[name].deps));
    var records := Finished(t);
    var k := |s1.records| - 1;
    assert records[k] == t.records[k] == s1.records[k];
    assert records[k].path == SourcePath(name, isPackage);
    var segs := Split(name, '.');
    if !IsDirectory(records, segs) {
      SourcePathInside(name, isPackage);
      assert !Inside(segs, records[k].path);
    }
  }

  // ----- what the dependency walk leaves for the importer -----

  /**
   * A host laid out as Python lays out source files: no module's last
   * segment is `__init__`, and no module's file lies inside the directory
   * of a plain (non-package) module.
   */
  predicate FileLayout(host: Host) {
    (forall n :: n in host ==> LastSegment(n) != "__init__") &&
    (forall a, b :: a in host && b in host && !host[a].isPackage ==>
       !Inside(Split(a, '.'), SourcePath(b, host[b].isPackage)))
  }

  lemma MockSupportLast()
    ensures LastSegment(MOCK_SUPPORT) == MOCK_SUPPORT != "__init__"
  {
    SplitWhole(MOCK_SUPPORT, '.');
  }

  /** A record the walk may write names a module whose last segment is not `__init__`. */
  lemma SoundRecordNotInit(rules: seq<Rule>, host: Host, r: Record)
    requires FileLayout(host) && SoundRecord(rules, host, r)
    ensures LastSegment(r.blob.moduleName) != "__init__"
  {
    MockSupportLast();
  }

  /** A record the walk may write lies outside the directory of a plain host module. */
  lemma SoundRecordOutsidePlain(rules: seq<Rule>, host: Host, d: string, r: Record)
    requires FileLayout(host) && d in host && !host[d].isPackage && SoundRecord(rules, host, r)
    ensures !Inside(Split(d, '.'), r.path)
  {
    MockSupportPath();
  }

  /** Two records the walk may write, for different modules, lie at different paths. */
  lemma SoundRecordsApart(rules: seq<Rule>, host: Host, r: Record, r': Record)
    requires FileLayout(host) && SoundRecord(rules, host, r) && SoundRecord(rules, host, r')
    requires r.blob.moduleName != r'.blob.moduleName
    ensures r.path != r'.path
  {
    SoundRecordNotInit(rules, host, r);
    SoundRecordNotInit(rules, host, r');
    if r.path == r'.path {
      SourcePathInjective(r.blob.moduleName, r.blob.isPackage, r'.blob.moduleName, r'.blob.isPackage);
    }
  }

  /** Two source records the walk wrote are for different modules, so at different paths. */
  lemma WrittenApart(rules: seq<Rule>, host: Host, s0: State, t: State, k: nat, j: nat)
    requires FileLayout(host) && SoundAddition(rules, host, s0, t) && FreshSources(s0, t)
    requires |s0.records| <= k < j < |t.records|
    ensures t.records[j].path != t.records[k].path
  {
    var r, r' := t.records[k], t.records[j];
    assert SoundRecord(rules, host, r) && SoundRecord(rules, host, r');
    assert r'.blob.moduleName != r.blob.moduleName;
    SoundRecordsApart(rules, host, r, r');
  }

  /** A record the walk wrote is a source record at its module's source path. */
  lemma WrittenSourcePath(rules: seq<Rule>, host: Host, s0: State, t: State, k: nat)
    requires SoundAddition(rules, host, s0, t)
    requires |s0.records| <= k < |t.records|
    ensures t.records[k].blob.Source?
    ensures t.records[k].path == SourcePath(t.records[k].blob.moduleName, t.records[k].blob.isPackage)
  {
    assert SoundRecord(rules, host, t.records[k]);
  }

  /** The manifest records `close` appends are not at the path of any module's source. */
  lemma SourceNotManifest(t: State, r: Record, j: nat)
    requires r.blob.Source? && r.path == SourcePath(r.blob.moduleName, r.blob.isPackage)
    requires |t.records| <= j < |Finished(t)|
    ensures Finished(t)[j].path != r.path
  {
    SourcePathNotManifest(r.blob.moduleName, r.blob.isPackage);
  }

  /**
   * A source record the walk wrote is what its path reads back in the
   * closed archive: nothing written after it is stored at that path.
   */
  lemma WalkedSourceLast(rules: seq<Rule>, host: Host, s0: State, t: State, k: nat)
    requires FileLayout(host) && MOCK_SUPPORT !in host
    requires SoundAddition(rules, host, s0, t) && FreshSources(s0, t)
    requires |s0.records| <= k < |t.records|
    ensures Lookup(Finished(t), t.records[k].path) == Some(t.records[k].blob)
  {
    var records := Finished(t);
    var r := t.records[k];
    WrittenSourcePath(rules, host, s0, t, k);
    forall j | k < j < |records|
      ensures records[j].path != r.path
    {
      if j < |t.records| {
        FinishedAt(t, j);
        WrittenApart(rules, host, s0, t, k, j);
      } else {
        SourceNotManifest(t, r, j);
      }
    }
    FinishedAt(t, k);
    LookupLast(records, k, r.path);
  }

  /** The walk makes no directory of a plain host module's name. */
  lemma WalkedNoDirectory(rules: seq<Rule>, host: Host, s0: State, t: State, d: string)
    requires FileLayout(host) && d in host && !host[d].isPackage
    requires SoundAddition(rules, host, s0, t)
    requires !IsDirectory(s0.records, Split(d, '.'))
    ensures !IsDirectory(Finished(t), Split(d, '.'))
  {
    var segs := Split(d, '.');
    forall j | 0 <= j < |Finished(t)|
      ensures !Inside(segs, Finished(t)[j].path)
    {
      if j < |s0.records| {
        EarlierOutside(s0, t, segs, j);
      } else if j < |t.records| {
        WrittenOutsidePlain(rules, host, s0, t, d, j);
      } else {
        ManifestNotInside(d);
      }
    }
  }

  /** A record that was already in the archive before the walk lies outside a directory it did not have. */
  lemma EarlierOutside(s0: State, t: State, dir: seq<string>, j: nat)
    requires Extends(t, s0) && !IsDirectory(s0.records, dir) && j < |s0.records|
    ensures !Inside(dir, Finished(t)[j].path)
  {
    FinishedAt(t, j);
    ExtendsAt(s0, t, j);
  }

  /** A record the walk wrote lies outside the directory of a plain host module. */
  lemma WrittenOutsidePlain(rules: seq<Rule>, host: Host, s0: State, t: State, d: string, j: nat)
    requires FileLayout(host) && d in host && !host[d].isPackage
    requires SoundAddition(rules, host, s0, t)
    requires |s0.records| <= j < |t.records|
    ensures !Inside(Split(d, '.'), Finished(t)[j].path)
  {
    FinishedAt(t, j);
    SoundRecordOutsidePlain(rules, host, d, t.records[j]);
  }

  /**
   * `test_extern_glob` and `test_saving_string`: a module that source saved
   * with `save_source_string` imports, and that the rules extern (or whose
   * root is `torch` or a standard-library module), loads as the host's own
   * object, whether the walk externed it or an earlier extern covers it.
   */
  lemma {:induction false} WalkedExternLoadsFromHost(rules: seq<Rule>, host: Host, s: State, name: string,
                                                     text: string, isPackage: bool, deps: seq<string>,
                                                     d: string, m: PackageMangler)
    requires d in deps && d != "" && d in host && d != MOCK_SUPPORT
    requires d !in s.provided + {name} || ExternCovers(s.externs, d)
    requires Classify(rules, host, d) == Ok(ByRule(Extern)) || Classify(rules, host, d) == Ok(ExternRoot(Root(d)))
    ensures var t := AfterSaveSource(rules, host, s, name, text, isPackage, deps);
      t.1.None? ==> Resolve(Loaded(Finished(t.0), t.0.externs, host, m), d) == Ok(HostRef(d))
  {
    var s0 := WriteSource(s, name, isPackage, GivenSource(text));
    var work := Importable(host, deps);
    var t := Walk(rules, host, s0, work).0;
    WalkComplete(rules, host, s0, work);
    WalkExtends(rules, host, s0, work);
    if ExternCovers(s.externs, d) {
      ExternCoversMonotone(s0, t, d);
    }
  }

  /**
   * `test_mock_glob`: a module that source saved with `save_source_string`
   * imports, and that the rules mock, loads as a stub under the importer's
   * mangled name, and calling any of its attributes fails as mocked out,
   * unless an extern covers it by the end. A plain module must not already
   * be a directory of the archive.
   */
  lemma {:induction false} WalkedMockLoadsAsStub(rules: seq<Rule>, host: Host, s: State, name: string,
                                                 text: string, isPackage: bool, deps: seq<string>,
                                                 d: string, m: PackageMangler, attr: string)
    requires FileLayout(host) && MOCK_SUPPORT !in host
    requires d in deps && d != "" && d in host && d !in s.provided + {name}
    requires Classify(rules, host, d) == Ok(ByRule(Mock))
    requires !host[d].isPackage ==>
      !IsDirectory(s.records, Split(d, '.')) && !Inside(Split(d, '.'), SourcePath(name, isPackage))
    ensures var (t, err) := AfterSaveSource(rules, host, s, name, text, isPackage, deps);
      var r := Resolve(Loaded(Finished(t), t.externs, host, m), d);
      err.None? && !ExternCovers(t.externs, d) ==>
        r == Ok(Packaged(d, m.Mangle(d).value, host[d].isPackage, Some(Source(d, host[d].isPackage, MockImpl)))) &&
        IsStub(r.value) && CallAttribute(r.value, attr) == Some(MockedOut(m.Mangle(d).value + "." + attr))
  {
    var s0 := WriteSource(s, name, isPackage, GivenSource(text));
    var work := Importable(host, deps);
    var (t, err) := Walk(rules, host, s0, work);
    if err.None? && !ExternCovers(t.externs, d) {
      var isP := host[d].isPackage;
      WalkedStubLast(rules, host, s0, work, d);
      if !isP {
        var own := [Record(SourcePath(name, isPackage), Source(name, isPackage, GivenSource(text)))];
        assert !Inside(Split(d, '.'), own[0].path);
        NoDirectoryAppend(s.records, own, Split(d, '.'));
        assert s0.records == s.records + own;
        WalkSound(rules, host, s0, work);
        WalkedNoDirectory(rules, host, s0, t, d);
      }
      ResolveStored(Loaded(Finished(t), t.externs, host, m), d, isP, Source(d, isP, MockImpl));
    }
  }

  /** The stub the walk wrote for a mocked name is what its path reads back in the closed archive. */
  lemma WalkedStubLast(rules: seq<Rule>, host: Host, s0: State, work: seq<string>, d: string)
    requires FileLayout(host) && MOCK_SUPPORT !in host
    requires d in work && d in host && d !in s0.provided
    requires Classify(rules, host, d) == Ok(ByRule(Mock))
    ensures var (t, err) := Walk(rules, host, s0, work);
      err.None? && !ExternCovers(t.externs, d) ==>
        Lookup(Finished(t), SourcePath(d, host[d].isPackage)) == Some(Source(d, host[d].isPackage, MockImpl))
  {
    var (t, err) := Walk(rules, host, s0, work);
    if err.None? && !ExternCovers(t.externs, d) {
      var isP := host[d].isPackage;
      var stub := Record(SourcePath(d, isP), Source(d, isP, MockImpl));
      WalkedStub(rules, host, s0, work, d);
      var k :| |s0.records| <= k < |t.records| && t.records[k] == stub;
      WalkSound(rules, host, s0, work);
      WalkFresh(rules, host, s0, work);
      WalkedSourceLast(rules, host, s0, t, k);
    }
  }

  /** A mocked name on the work list, not provided before, gets its stub unless an extern covers it by the end. */
  lemma WalkedStub(rules: seq<Rule>, host: Host, s0: State, work: seq<string>, d: string)
    requires d in work && d in host && d != MOCK_SUPPORT && d !in s0.provided
    requires Classify(rules, host, d) == Ok(ByRule(Mock))
    ensures var (t, err) := Walk(rules, host, s0, work);
      err.None? && !ExternCovers(t.externs, d) ==> Wrote(s0, t, d, host[d].isPackage, MockImpl)
  {
    WalkComplete(rules, host, s0, work);
  }

  /** The source path of a module other than `name`, and not below it, is neither `name`'s file nor inside its directory. */
  lemma StoredElsewhere(name: string, other: string, isPackage: bool)
    requires LastSegment(name) != "__init__" && LastSegment(other) != "__init__"
    requires other != name && !StartsWith(other, name + ".")
    ensures SourcePath(other, isPackage) != SourcePath(name, false)
    ensures !Inside(Split(name, '.'), SourcePath(other, isPackage))
  {
    if SourcePath(other, isPackage) == SourcePath(name, false) {
      SourcePathInjective(other, isPackage, name, false);
    }
    if Inside(Split(name, '.'), SourcePath(other, isPackage)) {
      InsideBelow(name, other, isPackage);
    }
  }

  /** `n` is not provided, nothing provided lies below it, and the record is for a provided module. */
  lemma ProvidedRecordElsewhere(rules: seq<Rule>, host: Host, provided: set<string>, n: string, r: Record)
    requires FileLayout(host) && SoundRecord(rules, host, r) && r.blob.moduleName in provided
    requires LastSegment(n) != "__init__" && n !in provided
    requires forall p :: p in provided ==> !StartsWith(p, n + ".")
    ensures r.path != SourcePath(n, false) && !Inside(Split(n, '.'), r.path)
  {
    SoundRecordNotInit(rules, host, r);
    StoredElsewhere(n, r.blob.moduleName, r.blob.isPackage);
  }

  /** No record the walk wrote is the file of, or lies inside the directory of, a name it never provided nor anything below. */
  lemma WalkedElsewhere(rules: seq<Rule>, host: Host, s0: State, t: State, n: string)
    requires FileLayout(host) && SoundAddition(rules, host, s0, t) && FreshSources(s0, t)
    requires LastSegment(n) != "__init__" && n !in t.provided
    requires forall p :: p in t.provided ==> !StartsWith(p, n + ".")
    ensures forall j :: |s0.records| <= j < |t.records| ==>
      t.records[j].path != SourcePath(n, false) && !Inside(Split(n, '.'), t.records[j].path)
  {
    forall j | |s0.records| <= j < |t.records|
      ensures t.records[j].path != SourcePath(n, false) && !Inside(Split(n, '.'), t.records[j].path)
    {
      ProvidedRecordElsewhere(rules, host, t.provided, n, t.records[j]);
    }
  }

  /** When no record is the file of `n` or lies inside its directory, neither does any of the closed archive. */
  lemma ClosedAvoids(before: seq<Record>, t: State, n: string)
    requires |before| <= |t.records| && t.records[..|before|] == before
    requires forall j :: 0 <= j < |before| ==>
      before[j].path != SourcePath(n, false) && !Inside(Split(n, '.'), before[j].path)
    requires forall j :: |before| <= j < |t.records| ==>
      t.records[j].path != SourcePath(n, false) && !Inside(Split(n, '.'), t.records[j].path)
    ensures !IsDirectory(Finished(t), Split(n, '.')) && Lookup(Finished(t), SourcePath(n, false)).None?
  {
    var records := Finished(t);
    forall j | 0 <= j < |records|
      ensures records[j].path != SourcePath(n, false) && !Inside(Split(n, '.'), records[j].path)
    {
      if j < |before| {
        FinishedAt(t, j);
        assert t.records[j] == t.records[..|before|][j];
      } else if j < |t.records| {
        FinishedAt(t, j);
      } else {
        SourcePathNotManifest(n, false);
        ManifestNotInside(n);
      }
    }
  }

  /**
   * `test_pickle` and `test_single_ordered_importer`: after `save_module`, a
   * name that was never provided, that no extern covers and that has nothing
   * provided below it is not found in the archive, unless the exporter held
   * its file or its directory before.
   */
  lemma {:induction false} UnsavedModuleNotFound(rules: seq<Rule>, host: Host, s: State, name: string,
                                                 n: string, m: PackageMangler)
    requires FileLayout(host) && MOCK_SUPPORT !in host
    requires n != "" && LastSegment(n) != "__init__"
    requires !IsDirectory(s.records, Split(n, '.')) && Lookup(s.records, SourcePath(n, false)).None?
    ensures var (t, err) := AfterSaveModule(rules, host, s, name);
      (err.None? && n !in t.provided && !ExternCovers(t.externs, n) &&
       forall p :: p in t.provided ==> !StartsWith(p, n + ".")) ==>
      Resolve(Loaded(Finished(t), t.externs, host, m), n) == Err(ModuleNotFound(n))
  {
    var (t, err) := AfterSaveModule(rules, host, s, name);
    if err.None? && n !in t.provided && !ExternCovers(t.externs, n) &&
       forall p :: p in t.provided ==> !StartsWith(p, n + ".") {
      var s0 := WriteSource(s, name, host[name].isPackage, HostSource);
      WalkSound(rules, host, s0, Importable(host, host[name].deps));
      WalkFresh(rules, host, s0, Importable(host, host[name].deps));
      WalkExtends(rules, host, s0, Importable(host, host[name].deps));
      WalkedElsewhere(rules, host, s0, t, n);
      forall j | 0 <= j < |s0.records|
        ensures s0.records[j].path != SourcePath(n, false) && !Inside(Split(n, '.'), s0.records[j].path)
      {
        if j == |s.records| {
          assert name in t.provided;
          StoredElsewhere(n, name, host[name].isPackage);
        } else {
          assert s0.records[j] == s.records[j];
        }
      }
      ClosedAvoids(s0.records, t, n);
    }
  }
}
