/**
 * `test_resource_reader`, on the archive its seven `save_text` calls and
 * `close` produce:
 *
 *   one/a.txt  one/b.txt  one/c.txt  one/three/d.txt  one/three/e.txt
 *   two/f.txt  two/g.txt
 */
module ResourceExamples {
  import opened Wrappers
  import opened Strings
  import opened Mangling
  import opened Archive
  import opened Loader
  import opened Resources
  import opened Exporter

  /**
   * The closed archive: the seven records at the paths `save_text` gives them
   * (lemmas PathOne, PathTwo and PathOneThree), then the manifest, with
   * nothing externed.
   */
  function Closed(): seq<Record> {
    [ Record(["one", "a.txt"], Text("hello, a!")),
      Record(["one", "b.txt"], Text("hello, b!")),
      Record(["one", "c.txt"], Text("hello, c!")),
      Record(["one", "three", "d.txt"], Text("hello, d!")),
      Record(["one", "three", "e.txt"], Text("hello, e!")),
      Record(["two", "f.txt"], Text("hello, f!")),
      Record(["two", "g.txt"], Text("hello, g!")),
      Record(EXTERN_PATH, ExternList([])),
      Record(VERSION_PATH, VersionTag) ]
  }

  lemma PathOne(resource: string)
    requires '/' !in resource
    ensures ResourcePath("one", resource) == ["one", resource]
  {
    SplitWhole("one", '.');
    SplitWhole(resource, '/');
  }

  lemma PathTwo(resource: string)
    requires '/' !in resource
    ensures ResourcePath("two", resource) == ["two", resource]
  {
    SplitWhole("two", '.');
    SplitWhole(resource, '/');
  }

  lemma SplitOneThree()
    ensures Split("one.three", '.') == ["one", "three"]
  {
    assert "one.three" == "one" + ['.'] + "three";
    SplitCons("one", "three", '.');
    SplitWhole("three", '.');
  }

  lemma PathOneThree(resource: string)
    requires '/' !in resource
    ensures ResourcePath("one.three", resource) == ["one", "three", resource]
  {
    SplitOneThree();
    SplitWhole(resource, '/');
  }

  /** A text record saved into `one.three` lands at that package's directory. */
  lemma InOneThree(resource: string, text: string, r: Record)
    requires '/' !in resource && r == Record(["one", "three", resource], Text(text))
    ensures Record(ResourcePath("one.three", resource), Text(text)) == r
  {
    PathOneThree(resource);
  }

  /** The test's three `save_text` calls into package `one`. */
  method SaveIntoOne(exporter: PackageExporter)
    modifies exporter`records
    ensures exporter.records == old(exporter.records) + [Closed()[0], Closed()[1], Closed()[2]]
  {
    exporter.SaveText("one", "a.txt", "hello, a!");
    exporter.SaveText("one", "b.txt", "hello, b!");
    exporter.SaveText("one", "c.txt", "hello, c!");
    ThreeAppended(old(exporter.records), Record(ResourcePath("one", "a.txt"), Text("hello, a!")), Record(ResourcePath("one", "b.txt"), Text("hello, b!")), Record(ResourcePath("one", "c.txt"), Text("hello, c!")));
    SavedA();
    SavedB();
    SavedC();
  }

  /** The test's two `save_text` calls into package `one.three`. */
  method SaveIntoOneThree(exporter: PackageExporter)
    modifies exporter`records
    ensures exporter.records == old(exporter.records) + [Closed()[3], Closed()[4]]
  {
    exporter.SaveText("one.three", "d.txt", "hello, d!");
    exporter.SaveText("one.three", "e.txt", "hello, e!");
    TwoAppended(old(exporter.records), Record(ResourcePath("one.three", "d.txt"), Text("hello, d!")), Record(ResourcePath("one.three", "e.txt"), Text("hello, e!")));
    SavedD();
    SavedE();
  }

  /** The test's two `save_text` calls into package `two`. */
  method SaveIntoTwo(exporter: PackageExporter)
    modifies exporter`records
    ensures exporter.records == old(exporter.records) + [Closed()[5], Closed()[6]]
  {
    exporter.SaveText("two", "f.txt", "hello, f!");
    exporter.SaveText("two", "g.txt", "hello, g!");
    TwoAppended(old(exporter.records), Record(ResourcePath("two", "f.txt"), Text("hello, f!")), Record(ResourcePath("two", "g.txt"), Text("hello, g!")));
    SavedF();
    SavedG();
  }

  /**
   * The test's exporter: the seven `save_text` calls in the test's order,
   * then `close`. What it writes is exactly the archive the lemmas below read.
   */
  method WriteTestArchive(host: Host) returns (archive: seq<Record>)
    ensures archive == Closed()
  {
    var exporter := new PackageExporter(host);
    SaveIntoOne(exporter);
    SaveIntoOneThree(exporter);
    SaveIntoTwo(exporter);
    archive := exporter.Close();
    ClosedInParts();
  }

  lemma ThreeAppended(s: seq<Record>, a: Record, b: Record, c: Record)
    ensures s + [a] + [b] + [c] == s + [a, b, c]
  {
  }

  lemma TwoAppended(s: seq<Record>, a: Record, b: Record)
    ensures s + [a] + [b] == s + [a, b]
  {
  }

  /** The archive is its three packages' records followed by the manifest. */
  lemma ClosedInParts()
    ensures [] + [Closed()[0], Closed()[1], Closed()[2]] + [Closed()[3], Closed()[4]] +
            [Closed()[5], Closed()[6]] + [Record(EXTERN_PATH, ExternList([])), Record(VERSION_PATH, VersionTag)]
            == Closed()
  {
  }

  /** `save_text('one', 'a.txt', ...)` writes record 0 of the archive. */
  lemma SavedA()
    ensures Record(ResourcePath("one", "a.txt"), Text("hello, a!")) == Closed()[0]
  {
    PathOne("a.txt");
  }

  /** `save_text('one', 'b.txt', ...)` writes record 1 of the archive. */
  lemma SavedB()
    ensures Record(ResourcePath("one", "b.txt"), Text("hello, b!")) == Closed()[1]
  {
    PathOne("b.txt");
  }

  /** `save_text('one', 'c.txt', ...)` writes record 2 of the archive. */
  lemma SavedC()
    ensures Record(ResourcePath("one", "c.txt"), Text("hello, c!")) == Closed()[2]
  {
    PathOne("c.txt");
  }

  /** `save_text('one.three', 'd.txt', ...)` writes record 3 of the archive. */
  lemma SavedD()
    ensures Record(ResourcePath("one.three", "d.txt"), Text("hello, d!")) == Closed()[3]
  {
    InOneThree("d.txt", "hello, d!", Closed()[3]);
  }

  /** `save_text('one.three', 'e.txt', ...)` writes record 4 of the archive. */
  lemma SavedE()
    ensures Record(ResourcePath("one.three", "e.txt"), Text("hello, e!")) == Closed()[4]
  {
    InOneThree("e.txt", "hello, e!", Closed()[4]);
  }

  /** `save_text('two', 'f.txt', ...)` writes record 5 of the archive. */
  lemma SavedF()
    ensures Record(ResourcePath("two", "f.txt"), Text("hello, f!")) == Closed()[5]
  {
    PathTwo("f.txt");
  }

  /** `save_text('two', 'g.txt', ...)` writes record 6 of the archive. */
  lemma SavedG()
    ensures Record(ResourcePath("two", "g.txt"), Text("hello, g!")) == Closed()[6]
  {
    PathTwo("g.txt");
  }

  /** The importer opened on the archive. */
  function Opened(host: Host, m: PackageMangler): Loaded {
    Loaded(Closed(), [], host, m)
  }

  lemma OpensWithoutExterns(host: Host, m: PackageMangler)
    ensures Open(Closed(), host, m) == Ok(Opened(host, m))
  {
    LookupLast(Closed(), 7, EXTERN_PATH);
  }

  // ----- listing steps -----

  /** The manifest lies under `.data`, so no package directory holds it. */
  lemma ManifestNotUnder(dir: seq<string>)
    requires dir != [] && dir[0] != DATA_DIR
    ensures !Under(dir, EXTERN_PATH) && !Under(dir, VERSION_PATH)
  {
    if |dir| <= 2 {
      assert EXTERN_PATH[..|dir|][0] == DATA_DIR;
      assert VERSION_PATH[..|dir|][0] == DATA_DIR;
    }
  }

  /** The manifest adds nothing to a package's listing. */
  lemma {:induction false} ManifestListsNothing(dir: seq<string>, seen: set<string>)
    requires dir != [] && dir[0] != DATA_DIR
    ensures ContentsFrom(Closed()[7..], dir, seen) == []
  {
    ManifestNotUnder(dir);
    assert Closed()[7..][1..] == Closed()[8..];
  }

  /** Below `one/three`, package `one` lists `three` once. */
  lemma {:induction false} ContentsOneDeeper()
    ensures ContentsFrom(Closed()[3..], ["one"], {}) == ["three"]
  {
    var records := Closed();
    ManifestListsNothing(["one"], {"three"});
    assert records[5..][1..] == records[6..];
    assert records[6..][1..] == records[7..];
    assert ContentsFrom(records[5..], ["one"], {"three"}) == [];
    assert records[3..][1..] == records[4..];
    assert records[4..][1..] == records[5..];
  }

  /** Directory `one` holds `a.txt`, `b.txt`, `c.txt` and the subdirectory `three`. */
  lemma {:induction false} ListingOne()
    ensures ContentsFrom(Closed(), ["one"], {}) == ["a.txt", "b.txt", "c.txt", "three"]
  {
    var records := Closed();
    ContentsOneDeeper();
    assert records[1..][1..] == records[2..];
    assert records[2..][1..] == records[3..];
  }

  /** Directory `two` holds `f.txt` and `g.txt`, after the records of `one`. */
  lemma {:induction false} ListingTwoTail()
    ensures ContentsFrom(Closed()[3..], ["two"], {}) == ["f.txt", "g.txt"]
  {
    var records := Closed();
    ManifestListsNothing(["two"], {});
    assert records[5..][1..] == records[6..];
    assert records[6..][1..] == records[7..];
    SkipOutside(records, 4, ["two"], {});
    SkipOutside(records, 3, ["two"], {});
  }

  /** Directory `two` holds `f.txt` and `g.txt`. */
  lemma {:induction false} ListingTwo()
    ensures ContentsFrom(Closed(), ["two"], {}) == ["f.txt", "g.txt"]
  {
    var records := Closed();
    ListingTwoTail();
    SkipOutside(records, 2, ["two"], {});
    SkipOutside(records, 1, ["two"], {});
    SkipOutside(records, 0, ["two"], {});
    assert records[0..] == records;
  }

  /** Directory `one/three` holds `d.txt` and `e.txt`, and nothing of `two` or the manifest. */
  lemma {:induction false} ListingOneThreeTail()
    ensures ContentsFrom(Closed()[3..], ["one", "three"], {}) == ["d.txt", "e.txt"]
  {
    var records := Closed();
    var dir := ["one", "three"];
    ManifestListsNothing(dir, {});
    SkipOutside(records, 6, dir, {});
    SkipOutside(records, 5, dir, {});
    assert records[3..][1..] == records[4..];
    assert records[4..][1..] == records[5..];
  }

  /** `one/c.txt` does not lie in directory `one/three`. */
  lemma OutsideOneThree(i: nat)
    requires i < 3
    ensures !Under(["one", "three"], Closed()[i].path)
  {
    assert Closed()[i].path[1][0] != 't';
  }

  /** Directory `one/three` holds `d.txt` and `e.txt`. */
  lemma {:induction false} ListingOneThree()
    ensures ContentsFrom(Closed(), ["one", "three"], {}) == ["d.txt", "e.txt"]
  {
    var records := Closed();
    var dir := ["one", "three"];
    ListingOneThreeTail();
    OutsideOneThree(2);
    SkipOutside(records, 2, dir, {});
    OutsideOneThree(1);
    SkipOutside(records, 1, dir, {});
    OutsideOneThree(0);
    SkipOutside(records, 0, dir, {});
    assert records[0..] == records;
  }

  // ----- where the stored paths lie -----

  lemma OneIsDirectory()
    ensures IsDirectory(Closed(), ["one"])
  {
    assert Inside(["one"], Closed()[0].path);
  }

  lemma TwoIsDirectory()
    ensures IsDirectory(Closed(), ["two"])
  {
    assert Inside(["two"], Closed()[5].path);
  }

  lemma OneThreeIsDirectory()
    ensures IsDirectory(Closed(), ["one", "three"])
  {
    assert Inside(["one", "three"], Closed()[3].path);
  }

  lemma AbsentIsNoDirectory()
    ensures !IsDirectory(Closed(), ["nonexistent_package"])
  {
    forall k | 0 <= k < |Closed()|
      ensures !Inside(["nonexistent_package"], Closed()[k].path)
    {
      assert |Closed()[k].path[0]| != |"nonexistent_package"|;
    }
  }

  lemma AStoredFirst()
    ensures LastAt(Closed(), ["one", "a.txt"]) == Some(0)
  {
    LookupLast(Closed(), 0, ["one", "a.txt"]);
  }

  lemma DStoredFourth()
    ensures LastAt(Closed(), ["one", "three", "d.txt"]) == Some(3)
  {
    LookupLast(Closed(), 3, ["one", "three", "d.txt"]);
  }

  lemma DHoldsText()
    ensures Closed()[3].blob == Text("hello, d!")
  {
  }

  lemma FStoredSixth()
    ensures LastAt(Closed(), ["two", "f.txt"]) == Some(5)
  {
    LookupLast(Closed(), 5, ["two", "f.txt"]);
  }

  lemma NothingAtThree()
    ensures LastAt(Closed(), ["one", "three"]).None?
  {
  }

  lemma NoAbsentSource()
    ensures LastAt(Closed(), ["nonexistent_package" + ".py"]).None?
  {
  }

  // ----- what the test asserts -----

  /** Package `one` gets a reader. */
  lemma ReaderForOne(host: Host, m: PackageMangler)
    ensures GetResourceReader(Opened(host, m), "one") == Ok(Some(Reader(Opened(host, m), "one")))
  {
    OneIsDirectory();
    SplitWhole("one", '.');
    ArchivePackageHasReader(Opened(host, m), "one");
  }

  /** Package `two` gets a reader. */
  lemma ReaderForTwo(host: Host, m: PackageMangler)
    ensures GetResourceReader(Opened(host, m), "two") == Ok(Some(Reader(Opened(host, m), "two")))
  {
    TwoIsDirectory();
    SplitWhole("two", '.');
    ArchivePackageHasReader(Opened(host, m), "two");
  }

  /** Package `one.three` gets a reader. */
  lemma ReaderForOneThree(host: Host, m: PackageMangler)
    ensures GetResourceReader(Opened(host, m), "one.three") == Ok(Some(Reader(Opened(host, m), "one.three")))
  {
    OneThreeIsDirectory();
    SplitOneThree();
    ArchivePackageHasReader(Opened(host, m), "one.three");
  }

  /** In package `one`, `a.txt` is a resource holding its text; `three` is a directory, not a resource; no resource has a file-system path. */
  lemma ResourcesOfOne(host: Host, m: PackageMangler)
    ensures var rd := Reader(Opened(host, m), "one");
      IsResource(rd, "a.txt") && OpenResource(rd, "a.txt") == Ok(Text("hello, a!")) &&
      !IsResource(rd, "three") && ResourcePathOf(rd, "a.txt") == Err(FileNotFound("a.txt"))
  {
    PathOne("a.txt");
    PathOne("three");
    AStoredFirst();
    NothingAtThree();
  }

  /** Opening a resource yields the blob of the last record stored at its path. */
  lemma OpenAt(rd: Reader, resource: string, k: nat)
    requires LastAt(rd.view.records, ResourcePath(rd.package, resource)) == Some(k)
    ensures OpenResource(rd, resource) == Ok(rd.view.records[k].blob)
  {
  }

  /** `f.txt` of package `two` is a resource holding its text. */
  lemma ResourceOfTwo(host: Host, m: PackageMangler)
    ensures OpenResource(Reader(Opened(host, m), "two"), "f.txt") == Ok(Text("hello, f!"))
  {
    PathTwo("f.txt");
    FStoredSixth();
    OpenAt(Reader(Opened(host, m), "two"), "f.txt", 5);
  }

  /** `d.txt` of package `one.three` is a resource holding its text. */
  lemma ResourceOfOneThree(host: Host, m: PackageMangler)
    ensures OpenResource(Reader(Opened(host, m), "one.three"), "d.txt") == Ok(Text("hello, d!"))
  {
    PathOneThree("d.txt");
    DStoredFourth();
    DHoldsText();
    OpenAt(Reader(Opened(host, m), "one.three"), "d.txt", 3);
  }

  /** The listings of packages `one`, `two` and `one.three`; a subdirectory is listed once. */
  lemma ReaderContents(host: Host, m: PackageMangler)
    ensures var v := Opened(host, m);
      ContentsOf(Reader(v, "one")) == ["a.txt", "b.txt", "c.txt", "three"] &&
      ContentsOf(Reader(v, "two")) == ["f.txt", "g.txt"] &&
      ContentsOf(Reader(v, "one.three")) == ["d.txt", "e.txt"]
  {
    SplitWhole("one", '.');
    SplitWhole("two", '.');
    SplitOneThree();
    ListingOne();
    ListingTwo();
    ListingOneThree();
  }

  /** A top-level plain module is stored as its name with `.py` appended. */
  lemma TopLevelSourcePath(name: string)
    requires '.' !in name
    ensures SourcePath(name, false) == [name + ".py"]
  {
    SplitWhole(name, '.');
  }

  /** `nonexistent_package` is a single top-level name. */
  lemma AbsentIsTopLevel()
    ensures '.' !in "nonexistent_package"
    ensures Split("nonexistent_package", '.') == ["nonexistent_package"]
  {
    SplitWhole("nonexistent_package", '.');
  }

  /** A package the archive does not hold has no reader. */
  lemma NoReaderForAbsentPackage(host: Host, m: PackageMangler)
    ensures GetResourceReader(Opened(host, m), "nonexistent_package") == Ok(None)
  {
    AbsentIsTopLevel();
    TopLevelSourcePath("nonexistent_package");
    AbsentIsNoDirectory();
    NoAbsentSource();
    AbsentPackageHasNoReader(Opened(host, m), "nonexistent_package");
  }
}
