/**
 * The extern-glob test: rules `extern(['package_a.*', 'module_*'])`, then
 * `save_module('package_a')`, then a source saved with
 * `save_source_string` that imports `package_a.subpackage` and `module_a`.
 * The archive it closes serves both imports from the host.
 */
module WalkExamples {
  import opened Wrappers
  import opened Strings
  import opened Glob
  import opened Mangling
  import opened Archive
  import opened Loader
  import GlobExamples

  const PACKAGE_A := Segment(["package_a"])
  const MODULE_STAR := Segment(["module_", ""])   // `module_*`
  const EXTERN_GLOB := GlobGroup([[PACKAGE_A, GlobExamples.STAR], [MODULE_STAR]], [], '.')
  const RULES := [Rule(EXTERN_GLOB, Extern)]

  // ----- the rule -----

  lemma ComponentPackageA() ensures CompileComponent("package_a") == Ok(PACKAGE_A) {
    GlobExamples.SplitAs("package_a", '*', ["package_a"]);
  }

  /** A component free of `**` compiles to its pieces between the `*`s. */
  lemma SegmentComponent(c: string, pieces: seq<string>)
    requires !HasDoubleStar(c) && Split(c, '*') == pieces
    ensures CompileComponent(c) == Ok(Segment(pieces))
  {
  }

  lemma ComponentModuleStar() ensures CompileComponent("module_*") == Ok(MODULE_STAR) {
    GlobExamples.SplitAs("module_*", '*', ["module_", ""]);
    assert !HasDoubleStar("module_*");
    SegmentComponent("module_*", ["module_", ""]);
  }

  lemma ComponentsPackageAStar()
    ensures CompileComponents(["package_a", "*"]) == Ok([PACKAGE_A, GlobExamples.STAR])
  {
    ComponentPackageA();
    GlobExamples.ComponentStar();
    GlobExamples.ComponentsAre(["package_a", "*"], [PACKAGE_A, GlobExamples.STAR]);
  }

  /** A pattern of one component compiles to that component. */
  lemma OneComponent(c: string, x: Component)
    requires CompileComponent(c) == Ok(x)
    ensures CompileComponents([c]) == Ok([x])
  {
    GlobExamples.ComponentsAre([c], [x]);
  }

  lemma ComponentsModuleStar() ensures CompileComponents(["module_*"]) == Ok([MODULE_STAR]) {
    ComponentModuleStar();
    OneComponent("module_*", MODULE_STAR);
  }

  lemma PatternPackageAStar()
    ensures Compile("package_a.*", '.') == Ok([PACKAGE_A, GlobExamples.STAR])
  {
    GlobExamples.SplitAs("package_a.*", '.', ["package_a", "*"]);
    ComponentsPackageAStar();
  }

  lemma PatternModuleStar() ensures Compile("module_*", '.') == Ok([MODULE_STAR]) {
    GlobExamples.SplitAs("module_*", '.', ["module_*"]);
    ComponentsModuleStar();
  }

  /** `extern(['package_a.*', 'module_*'])` registers the group of the two patterns. */
  lemma ExternGlobGroup()
    ensures NewGlobGroup(Many(["package_a.*", "module_*"]), Many([]), '.') == Ok(EXTERN_GLOB)
  {
    PatternPackageAStar();
    PatternModuleStar();
    GroupOfTwo("package_a.*", [PACKAGE_A, GlobExamples.STAR], "module_*", [MODULE_STAR]);
  }

  /** A group of two include patterns and no exclude pattern. */
  lemma GroupOfTwo(a: string, p: Pattern, b: string, q: Pattern)
    requires Compile(a, '.') == Ok(p) && Compile(b, '.') == Ok(q)
    ensures NewGlobGroup(Many([a, b]), Many([]), '.') == Ok(GlobGroup([p, q], [], '.'))
  {
    var r := CompileAll([a, b], '.');
    assert r.Ok? && r.value[0] == p && r.value[1] == q;
    assert r.value == [p, q];
  }

  // ----- the test's names -----

  /**
   * The test's module names, each given by its dot-separated segments:
   * `package_a`, `package_a.subpackage`, `module_a` and the saved source
   * `test_module`. Each list of segments belongs to one string only
   * (`OneSegmentName`, `SubpackageName`), and the test's strings have them
   * (`SplitWhole`, `SplitSubpackage`).
   */
  predicate TestNames(pkg: string, sub: string, mod: string, saved: string) {
    Split(pkg, '.') == ["package_a"] && Split(sub, '.') == ["package_a", "subpackage"] &&
    Split(mod, '.') == ["module_a"] && Split(saved, '.') == ["test_module"]
  }

  lemma SplitSubpackage() ensures Split("package_a.subpackage", '.') == ["package_a", "subpackage"] {
    GlobExamples.SplitAs("package_a.subpackage", '.', ["package_a", "subpackage"]);
  }

  /** A one-segment name is the one string that is its segment. */
  lemma OneSegmentName(name: string, literal: string)
    requires '.' !in literal && Split(name, '.') == [literal]
    ensures name == literal
  {
    SplitWhole(literal, '.');
    SplitInjective(name, literal, '.');
  }

  /** `package_a.subpackage` is the one string with its two segments. */
  lemma SubpackageName(sub: string)
    requires Split(sub, '.') == ["package_a", "subpackage"]
    ensures sub == "package_a.subpackage"
  {
    SplitSubpackage();
    SplitInjective(sub, "package_a.subpackage", '.');
  }

  /** The test's imports differ from each other, from the saved names, from the empty name and from the mock helper. */
  lemma TestNamesDistinct(pkg: string, sub: string, mod: string, saved: string)
    requires TestNames(pkg, sub, mod, saved)
    ensures sub != mod && sub != pkg && sub != saved && mod != pkg && mod != saved
    ensures sub != "" && mod != "" && sub != MOCK_SUPPORT && mod != MOCK_SUPPORT
  {
    assert ["module_a"] != ["test_module"] by { assert "module_a"[0] != "test_module"[0]; }
    assert ["module_a"] != ["package_a"] by { assert "module_a"[0] != "package_a"[0]; }
    assert Split("", '.') == [""];
    MockSupportLast();
    SplitWhole(MOCK_SUPPORT, '.');
    assert ["module_a"] != [MOCK_SUPPORT] by { assert "module_a"[0] != MOCK_SUPPORT[0]; }
  }

  // ----- what the rule matches -----

  /** A group of two include patterns and none excluded matches what either pattern matches. */
  lemma TwoIncludes(p: Pattern, q: Pattern, candidate: string, segs: seq<string>)
    requires Split(candidate, '.') == segs
    ensures Matches(GlobGroup([p, q], [], '.'), candidate) <==> MatchSegments(p, segs) || MatchSegments(q, segs)
  {
    assert [p, q][1..] == [q] && [q][1..] == [];
    assert !AnyMatches([], segs);
    assert AnyMatches([q], segs) == MatchSegments(q, segs);
    assert AnyMatches([p, q], segs) == (MatchSegments(p, segs) || AnyMatches([q], segs));
  }

  lemma SegmentsSubpackage() ensures MatchSegments([PACKAGE_A, GlobExamples.STAR], ["package_a", "subpackage"]) {
    GlobExamples.StarMatchesAny("subpackage");
    SegmentwiseMatch([PACKAGE_A, GlobExamples.STAR], ["package_a", "subpackage"]);
  }

  /** `module_*` matches a one-segment name exactly when it starts with `module_`. */
  lemma SegmentsModuleStar(segment: string)
    ensures MatchSegments([MODULE_STAR], [segment]) <==> StartsWith(segment, "module_")
  {
    OneStarSegment("module_", "", segment);
    SegmentwiseMatch([MODULE_STAR], [segment]);
  }

  /** `package_a.*` needs two segments. */
  lemma SegmentsPackageAOne(segment: string)
    ensures !MatchSegments([PACKAGE_A, GlobExamples.STAR], [segment])
  {
    SegmentwiseMatch([PACKAGE_A, GlobExamples.STAR], [segment]);
  }

  /** `package_a.subpackage` matches `package_a.*`. */
  lemma SubpackageMatches(sub: string)
    requires Split(sub, '.') == ["package_a", "subpackage"]
    ensures Matches(EXTERN_GLOB, sub)
  {
    SegmentsSubpackage();
    TwoIncludes([PACKAGE_A, GlobExamples.STAR], [MODULE_STAR], sub, ["package_a", "subpackage"]);
  }

  /** `module_a` matches `module_*`. */
  lemma ModuleAMatches(mod: string)
    requires Split(mod, '.') == ["module_a"]
    ensures Matches(EXTERN_GLOB, mod)
  {
    SegmentsModuleStar("module_a");
    assert StartsWith("module_a", "module_");
    TwoIncludes([PACKAGE_A, GlobExamples.STAR], [MODULE_STAR], mod, ["module_a"]);
  }

  /** `package_a` itself has one segment, so `package_a.*` misses it, and it does not start with `module_`. */
  lemma PackageANotMatched(pkg: string)
    requires Split(pkg, '.') == ["package_a"]
    ensures !Matches(EXTERN_GLOB, pkg)
  {
    SegmentsPackageAOne("package_a");
    SegmentsModuleStar("package_a");
    assert "package_a"[0] != "module_"[0];
    TwoIncludes([PACKAGE_A, GlobExamples.STAR], [MODULE_STAR], pkg, ["package_a"]);
  }

  // ----- the decisions -----

  /** The host of the test: it knows the three modules, and neither root is in the standard library. */
  predicate TestHost(host: Host, sub: string, mod: string) {
    "package_a" in host && !host["package_a"].stdlib && sub in host &&
    "module_a" in host && !host["module_a"].stdlib && mod in host
  }

  /** A name whose root the host knows outside the standard library, and that the rule matches, is externed. */
  lemma ExternedByRule(host: Host, name: string, root: string)
    requires Root(name) == root
    requires root in host && !host[root].stdlib && root != "torch" && root !in DISALLOWED_MODULES
    requires Matches(EXTERN_GLOB, name)
    ensures Classify(RULES, host, name) == Ok(ByRule(Extern))
  {
  }

  /** A name whose root the host knows outside the standard library, and that the rule misses, is bundled. */
  lemma InternedByDefault(host: Host, name: string, root: string)
    requires Root(name) == root
    requires root in host && !host[root].stdlib && root != "torch" && root !in DISALLOWED_MODULES
    requires !Matches(EXTERN_GLOB, name)
    ensures Classify(RULES, host, name) == Ok(Intern)
  {
    assert RULES[1..] == [];
  }

  /** The rule externs both imports and leaves `package_a` itself to be bundled. */
  lemma ExternGlobDecisions(host: Host, pkg: string, sub: string, mod: string, saved: string)
    requires TestNames(pkg, sub, mod, saved) && TestHost(host, sub, mod)
    ensures Classify(RULES, host, sub) == Ok(ByRule(Extern))
    ensures Classify(RULES, host, mod) == Ok(ByRule(Extern))
    ensures Classify(RULES, host, pkg) == Ok(Intern)
  {
    SubpackageExterned(host, sub);
    ModuleAExterned(host, mod);
    PackageAInterned(host, pkg);
  }

  lemma SubpackageExterned(host: Host, sub: string)
    requires Split(sub, '.') == ["package_a", "subpackage"] && "package_a" in host && !host["package_a"].stdlib
    ensures Classify(RULES, host, sub) == Ok(ByRule(Extern))
  {
    SubpackageMatches(sub);
    ExternedByRule(host, sub, "package_a");
  }

  lemma ModuleAExterned(host: Host, mod: string)
    requires Split(mod, '.') == ["module_a"] && "module_a" in host && !host["module_a"].stdlib
    ensures Classify(RULES, host, mod) == Ok(ByRule(Extern))
  {
    ModuleAMatches(mod);
    ExternedByRule(host, mod, "module_a");
  }

  lemma PackageAInterned(host: Host, pkg: string)
    requires Split(pkg, '.') == ["package_a"] && "package_a" in host && !host["package_a"].stdlib
    ensures Classify(RULES, host, pkg) == Ok(Intern)
  {
    PackageANotMatched(pkg);
    InternedByDefault(host, pkg, "package_a");
  }

  // ----- the test -----

  /** A name the rules extern that a successful walk provided is covered by an extern. */
  lemma WalkedExternCovered(rules: seq<Rule>, host: Host, s0: State, work: seq<string>, d: string)
    requires d !in s0.provided && d != MOCK_SUPPORT
    requires Classify(rules, host, d) == Ok(ByRule(Extern))
    ensures var (t, err) := Walk(rules, host, s0, work);
      err.None? && d in t.provided ==> ExternCovers(t.externs, d)
  {
    var (t, err) := Walk(rules, host, s0, work);
    if err.None? && d in t.provided {
      WalkComplete(rules, host, s0, work);
      assert CarriedOut(rules, host, s0, t, d);
    }
  }

  /**
   * `test_extern_glob`: once `save_module('package_a')` and the saving of
   * `test_module` succeed, the closed archive serves `module_a` and
   * `package_a.subpackage` as the host's own modules.
   */
  lemma {:induction false} ExternGlobImportsFromHost(host: Host, pkg: string, sub: string, mod: string,
                                                     saved: string, text: string, m: PackageMangler)
    requires TestNames(pkg, sub, mod, saved) && TestHost(host, sub, mod)
    ensures var (s, err) := AfterSaveModule(RULES, host, State([], {}, []), pkg);
      var (t, err') := AfterSaveSource(RULES, host, s, saved, text, false, [sub, mod]);
      var v := Loaded(Finished(t), t.externs, host, m);
      err.None? && err'.None? ==>
        Resolve(v, mod) == Ok(HostRef(mod)) && Resolve(v, sub) == Ok(HostRef(sub))
  {
    ExternGlobDecisions(host, pkg, sub, mod, saved);
    TestNamesDistinct(pkg, sub, mod, saved);
    SavedImportLoadsFromHost(RULES, host, pkg, saved, text, [sub, mod], mod, m);
    SavedImportLoadsFromHost(RULES, host, pkg, saved, text, [sub, mod], sub, m);
  }

  /**
   * After `save_module(pkg)` and the saving of a source that imports `d`,
   * an import the rules extern loads as the host's module.
   */
  lemma SavedImportLoadsFromHost(rules: seq<Rule>, host: Host, pkg: string, saved: string, text: string,
                                 imports: seq<string>, d: string, m: PackageMangler)
    requires d in imports && d != "" && d in host && d != MOCK_SUPPORT && d != pkg && d != saved
    requires Classify(rules, host, d) == Ok(ByRule(Extern))
    ensures var (s, err) := AfterSaveModule(rules, host, State([], {}, []), pkg);
      var (t, err') := AfterSaveSource(rules, host, s, saved, text, false, imports);
      err.None? && err'.None? ==> Resolve(Loaded(Finished(t), t.externs, host, m), d) == Ok(HostRef(d))
  {
    var (s, err) := AfterSaveModule(rules, host, State([], {}, []), pkg);
    if err.None? {
      var s0 := WriteSource(State([], {}, []), pkg, host[pkg].isPackage, HostSource);
      WalkedExternCovered(rules, host, s0, Importable(host, host[pkg].deps), d);
      WalkedExternLoadsFromHost(rules, host, s, saved, text, false, imports, d, m);
    }
  }
}
