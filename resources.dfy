/**
 * The resource reader a package importer hands out for a package of the
 * archive (the `importlib` resource-reader interface): whether a name is a
 * resource, its contents, its (never available) file-system path, and the
 * listing of the package's directory.
 */
module Resources {
  import opened Wrappers
  import opened Strings
  import opened Archive
  import opened Loader

  /** A reader for one package of one opened archive. */
  datatype Reader = Reader(view: Loaded, package: string)

  /**
   * `get_resource_reader(package)`: a name that cannot be imported has no
   * reader; a host package has none either (it is not this importer's); a
   * plain module, of the host or of the archive, is refused as not a package.
   */
  function GetResourceReader(v: Loaded, package: string): (r: Result<Option<Reader>, Error>)
    ensures r == Ok(Some(Reader(v, package))) <==>
      Resolve(v, package).Ok? && Resolve(v, package).value.Packaged? && Resolve(v, package).value.isPackage
    ensures r.Ok? && r.value.Some? ==> r.value.value == Reader(v, package)
    ensures Resolve(v, package).Err? && Resolve(v, package).error.ModuleNotFound? ==> r == Ok(None)
    ensures r.Err? ==> r.error in {EmptyModuleName, NotAPackage(package)}
  {
    match Resolve(v, package)
    case Err(ModuleNotFound(_)) => Ok(None)
    case Err(e) => Err(e)
    case Ok(HostRef(n)) => if v.host[n].isPackage then Ok(None) else Err(NotAPackage(package))
    case Ok(Packaged(_, _, isPackage, _)) =>
      if isPackage then Ok(Some(Reader(v, package))) else Err(NotAPackage(package))
  }

  /** A package of the archive that is not an extern gets a reader. */
  lemma ArchivePackageHasReader(v: Loaded, package: string)
    requires package != "" && !ExternCovers(v.externs, package)
    requires IsDirectory(v.records, Split(package, '.'))
    ensures GetResourceReader(v, package) == Ok(Some(Reader(v, package)))
  {
  }

  /** A name that is neither an extern, a directory nor a stored `.py` file has no reader. */
  lemma AbsentPackageHasNoReader(v: Loaded, package: string)
    requires package != "" && !ExternCovers(v.externs, package)
    requires !IsDirectory(v.records, Split(package, '.'))
    requires forall k :: 0 <= k < |v.records| ==> v.records[k].path != SourcePath(package, false)
    ensures GetResourceReader(v, package) == Ok(None)
  {
  }

  /** The directory of the reader's package inside the archive. */
  function Directory(rd: Reader): seq<string> {
    Split(rd.package, '.')
  }

  /** `is_resource(name)`: a record is stored at exactly that path. */
  predicate IsResource(rd: Reader, resource: string) {
    LastAt(rd.view.records, ResourcePath(rd.package, resource)).Some?
  }

  /** `open_resource(name)`: what is stored there; reading a path that holds nothing fails. */
  function OpenResource(rd: Reader, resource: string): (r: Result<Blob, Error>)
    ensures r.Ok? <==> IsResource(rd, resource)
    ensures r.Ok? ==> exists k :: 0 <= k < |rd.view.records| &&
                                 rd.view.records[k] == Record(ResourcePath(rd.package, resource), r.value)
    ensures r.Err? ==> r.error == MissingRecord(ResourcePath(rd.package, resource))
  {
    var path := ResourcePath(rd.package, resource);
    match LastAt(rd.view.records, path)
    case Some(k) => Ok(rd.view.records[k].blob)
    case None => Err(MissingRecord(path))
  }

  /**
   * `resource_path(name)`: an archive member has no path on a file system,
   * so the reader always fails as not found, whatever the name.
   */
  function ResourcePathOf(rd: Reader, resource: string): (r: Result<string, Error>)
    ensures r.Err? && r.error.FileNotFound? && r.error.resource == resource
  {
    Err(FileNotFound(resource))
  }

  // ----- listing a package's directory -----

  /** `path` is `dir` itself or lies below it. */
  predicate Under(dir: seq<string>, path: seq<string>) {
    |dir| <= |path| && path[..|dir|] == dir
  }

  /**
   * The name a stored path contributes to the listing of `dir`: its first
   * component below `dir` (a file directly inside, or the subdirectory the
   * path goes through); a record at `dir` itself contributes the empty name.
   */
  function Entry(dir: seq<string>, path: seq<string>): string
    requires Under(dir, path)
  {
    if |path| == |dir| then "" else path[|dir|]
  }

  /** A path that lies in a subdirectory of `dir`, not directly inside it. */
  predicate Deeper(dir: seq<string>, path: seq<string>) {
    |path| > |dir| + 1
  }

  /**
   * `contents()` from the records in archive order: every path directly in
   * `dir` yields its name; a subdirectory yields its name the first time one
   * of its paths is met, never again (`seen` holds those already yielded).
   */
  function ContentsFrom(records: seq<Record>, dir: seq<string>, seen: set<string>): seq<string>
    decreases |records|
  {
    if records == [] then []
    else
      var path := records[0].path;
      var rest := records[1..];
      if !Under(dir, path) then ContentsFrom(rest, dir, seen)
      else if !Deeper(dir, path) then [Entry(dir, path)] + ContentsFrom(rest, dir, seen)
      else if path[|dir|] in seen then ContentsFrom(rest, dir, seen)
      else [path[|dir|]] + ContentsFrom(rest, dir, seen + {path[|dir|]})
  }

  /** `contents()` of a reader: the listing of its package's directory. */
  function ContentsOf(rd: Reader): seq<string> {
    ContentsFrom(rd.view.records, Directory(rd), {})
  }

  /**
   * The listing holds a name exactly when some stored path under `dir`
   * contributes it, and (for a subdirectory) it has not been yielded already.
   */
  lemma {:induction false} ContentsMembership(records: seq<Record>, dir: seq<string>, seen: set<string>, x: string)
    ensures x in ContentsFrom(records, dir, seen) <==>
      exists k :: 0 <= k < |records| && Under(dir, records[k].path) && Entry(dir, records[k].path) == x &&
                  (!Deeper(dir, records[k].path) || x !in seen)
    decreases |records|
  {
    if records != [] {
      var path := records[0].path;
      var rest := records[1..];
      assert forall k :: 1 <= k < |records| ==> records[k] == rest[k - 1];
      if Under(dir, path) && Deeper(dir, path) && path[|dir|] !in seen {
        var y := path[|dir|];
        ContentsMembership(rest, dir, seen + {y}, x);
        if x != y && x in ContentsFrom(records, dir, seen) {
          var k :| 0 <= k < |rest| && Under(dir, rest[k].path) && Entry(dir, rest[k].path) == x &&
                   (!Deeper(dir, rest[k].path) || x !in seen + {y});
          assert records[k + 1] == rest[k];
        }
        if x != y && exists k :: 0 <= k < |records| && Under(dir, records[k].path) && Entry(dir, records[k].path) == x &&
                                 (!Deeper(dir, records[k].path) || x !in seen) {
          var k :| 0 <= k < |records| && Under(dir, records[k].path) && Entry(dir, records[k].path) == x &&
                   (!Deeper(dir, records[k].path) || x !in seen);
          assert k > 0;
          assert rest[k - 1] == records[k];
        }
      } else {
        ContentsMembership(rest, dir, seen, x);
        if x in ContentsFrom(rest, dir, seen) {
          var k :| 0 <= k < |rest| && Under(dir, rest[k].path) && Entry(dir, rest[k].path) == x &&
                   (!Deeper(dir, rest[k].path) || x !in seen);
          assert records[k + 1] == rest[k];
        }
        if exists k :: 0 <= k < |records| && Under(dir, records[k].path) && Entry(dir, records[k].path) == x &&
                       (!Deeper(dir, records[k].path) || x !in seen) {
          var k :| 0 <= k < |records| && Under(dir, records[k].path) && Entry(dir, records[k].path) == x &&
                   (!Deeper(dir, records[k].path) || x !in seen);
          if k > 0 {
            assert rest[k - 1] == records[k];
          }
        }
      }
    }
  }

  /** A reader lists a name exactly when a stored path under its directory contributes that name. */
  lemma ListedIff(rd: Reader, x: string)
    ensures x in ContentsOf(rd) <==>
      exists k :: 0 <= k < |rd.view.records| && Under(Directory(rd), rd.view.records[k].path) &&
                  Entry(Directory(rd), rd.view.records[k].path) == x
  {
    ContentsMembership(rd.view.records, Directory(rd), {}, x);
  }

  /** A subdirectory's name is never listed twice, however many paths lie below it. */
  lemma {:induction false} SubdirectoryOnce(records: seq<Record>, dir: seq<string>, seen: set<string>, x: string)
    requires x in seen
    requires forall k :: 0 <= k < |records| && Under(dir, records[k].path) ==> Deeper(dir, records[k].path) || Entry(dir, records[k].path) != x
    ensures x !in ContentsFrom(records, dir, seen)
  {
    ContentsMembership(records, dir, seen, x);
  }

  /** A stored path outside `dir` adds nothing to its listing. */
  lemma SkipOutside(records: seq<Record>, i: nat, dir: seq<string>, seen: set<string>)
    requires i < |records| && !Under(dir, records[i].path)
    ensures ContentsFrom(records[i..], dir, seen) == ContentsFrom(records[i + 1..], dir, seen)
  {
    assert records[i..][1..] == records[i + 1..];
  }

  /**
   * `contents()` walks the stored paths once, remembering the subdirectories
   * already yielded.
   */
  method Contents(rd: Reader) returns (names: seq<string>)
    ensures names == ContentsOf(rd)
  {
    var records := rd.view.records;
    var dir := Directory(rd);
    var seen: set<string> := {};
    names := [];
    var i := 0;
    while i < |records|
      invariant 0 <= i <= |records|
      invariant names + ContentsFrom(records[i..], dir, seen) == ContentsFrom(records, dir, {})
    {
      var path := records[i].path;
      assert records[i..][1..] == records[i + 1..];
      if Under(dir, path) {
        if !Deeper(dir, path) {
          names := names + [Entry(dir, path)];
        } else if path[|dir|] !in seen {
          seen := seen + {path[|dir|]};
          names := names + [path[|dir|]];
        }
      }
      i := i + 1;
    }
  }
}
