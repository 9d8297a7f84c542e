# torch.package core, modelled in Dafny

This project models the core of PyTorch's `torch.package`, as its test suite
`test/test_package.py` pins it down:

- **Module-name globs** (`_GlobGroup`): include and exclude patterns over
  dot-separated module names. A `*` matches characters inside one segment,
  and `**` matches zero or more whole segments. Matching is anchored at both
  ends, and any exclude match vetoes the include matches (`glob.dfy`, with the
  test's own cases in `glob_examples.dfy`).
- **Name mangling** (`PackageMangler`, `demangle`, `is_mangled`,
  `get_mangle_prefix`). The module-global counter is a `MangleIndex` object.
  Each mangler draws a fresh index from it and owns the token
  `<torch_package_N>`. `mangle(name)` is `token + "." + name` and fails on the
  empty name (`mangling.dfy`).
- **Exporting** (`PackageExporter`), in two layers:
  - On states (`archive.dfy`): `extern` and `mock` rules, and the decision
    `require_module` takes. That decision checks the implicit extern of
    `torch` and the standard library first, then the rules in registration
    order, and otherwise interns the module. On top of it sit the dependency
    walk, `save_module`, `save_source_string`, `save_text`, `save_binary`, and
    the manifest that `close` appends.
  - As a class whose methods update its fields (`exporter.dfy`). Each method
    is proved equal to the state function it stands for.
  - The extern-glob test's own rule, saves and imports, carried through the
    walk to the importer (`walk_examples.dfy`).
- **Importing** (`PackageImporter`, `loader.dfy`). An opened archive resolves
  a name in this order:
  - An extern, or a name below one, comes from the host.
  - A directory of the archive is a package.
  - A stored `.py` file is a module.
  - Anything else is "module not found".

  Archive modules carry the importer's mangled name. A mock stub's attributes
  fail as "mocked out".
- **Ordered importers** (`OrderedImporter`, `importers.dfy`). The first
  importer that does not report "not found" decides the answer. Another
  failure stops the chain at once. When every importer reports "not found",
  the last report is raised.
- **Resource reader** (`get_resource_reader`, `resources.dfy`, with the test's
  archive in `resource_examples.dfy`). It provides `is_resource`,
  `open_resource`, `contents` and `resource_path`; `resource_path` always
  fails with file-not-found.

The host Python environment is a parameter `Host`: a finite map from module
name to what the exporter needs of the module. That is whether it is a
package, whether it is in the standard library, and the modules its source
imports. Of those imports the exporter walks only the ones the host can
import (`_module_exists`); an import the host lacks, such as an optional one
guarded by `try`/`except ImportError`, is dropped without error.

Some descriptions of `torch.package` make denial the default action for a
module no rule matches. The code this test suite exercises interns such a
module instead (`test_pickle` and `test_save_module` bundle unmentioned
dependencies). The model follows the code.

## Model

| member | source | states |
|---|---|---|
| Glob.CompileComponent | test/test_package.py:544-550 | A component is refused exactly when it holds `**` inside a larger component. `**` alone becomes the any-segments component. Any other component is kept as the pieces between its `*`s, which join back to it. |
| Glob.NewGlobGroup | test/test_package.py:537-542 | Building a group succeeds exactly when every include and exclude pattern compiles. The group keeps one compiled pattern per string and the separator. |
| Glob.GroupMatchesIff | test/test_package.py:537-542 | A group matches a name exactly when some include pattern matches its segments and no exclude pattern does. |
| Glob.ExcludeVetoes | test/test_package.py:549 | A name that matches any exclude pattern is rejected, whatever the includes say. |
| Glob.StarStaysInSegment | test/test_package.py:544 | A pattern without `**` only matches names with exactly one segment per component, so `*` never crosses a dot. |
| Glob.SegmentwiseMatch | test/test_package.py:544-546 | Without `**`, a pattern matches exactly when the counts agree and each component matches its own segment. |
| Glob.AnySegmentsMatches | test/test_package.py:545 | `**` alone matches any list of non-empty segments, including the empty list. |
| Glob.DoubleStarSuffix | test/test_package.py:545 | Appending `**` to a matching pattern lets any non-empty segments follow. |
| Glob.DoubleStarPrefix | test/test_package.py:550 | Prefixing `**` to a matching pattern lets any non-empty segments come before. |
| Glob.AnchoredAtEnd | test/test_package.py:547 | A pattern ending in a literal segment only matches names whose last segment is that literal. |
| Glob.AnchoredAtStart | test/test_package.py:545 | A pattern starting with a literal segment only matches names whose first segment is that literal. |
| Glob.OneStarSegment | test/test_package.py:548 | A component `a*b` matches a segment exactly when the segment starts with `a`, ends with `b`, and is long enough for both. |
| Glob.LiteralPatternMatchesOnlyItself | test/test_package.py:537-542 | A pattern without `*` compiles and matches exactly the one name equal to it. |
| GlobExamples.ModuleGlobOneSegment | test/test_package.py:544 | `torch.*` accepts `torch.foo` and `torch.bar`. It rejects `tor.foo`, `torch.foo.bar` and `torch`. |
| GlobExamples.ModuleGlobAnySegments | test/test_package.py:545 | `torch.**` accepts `torch.foo`, `torch.bar`, `torch.foo.bar` and `torch`. It rejects `what.torch` and `torchvision`. |
| GlobExamples.ModuleGlobMiddleSegment | test/test_package.py:546 | `torch.*.foo` accepts `torch.w.foo` and rejects `torch.hi.bar.baz`. |
| GlobExamples.ModuleGlobMiddleSegments | test/test_package.py:547 | `torch.**.foo` accepts `torch.w.foo` and `torch.hi.bar.foo`, and rejects `torch.f.foo.z`. |
| GlobExamples.ModuleGlobInSegmentStar | test/test_package.py:548 | `torch*` accepts `torch` and `torchvision`, and rejects `torch.f`. |
| GlobExamples.ModuleGlobExcludeWins | test/test_package.py:549 | Include `torch.**` with exclude `torch.**.foo` accepts `torch`, `torch.bar` and `torch.barfoo`. It rejects `torch.foo` and `torch.some.foo`. |
| GlobExamples.ModuleGlobLeadingSegments | test/test_package.py:550 | `**.torch` accepts `torch` and `bar.torch`, and rejects `visiontorch`. |
| Mangling.Demangle | test/test_package.py:769-771 | A name that is not mangled is returned unchanged. A mangled name loses its prefix, so the result is shorter. |
| Mangling.GetManglePrefix | test/test_package.py:806-810 | The prefix of a mangled name is a dot-free start of it. |
| Mangling.StartsWithTokenIsMangled | test/test_package.py:773-777 | Anything that starts with a mangler's token is recognised as mangled. |
| Mangling.TokenInjective | test/test_package.py:754-760 | Different indices give different tokens. |
| Mangling.PlainNameNotMangled | test/test_package.py:778 | A name that does not start with `<` is not mangled. |
| Mangling.MangleIndex.constructor | test/test_package.py:754-760 | The global counter starts at zero, having issued no index. |
| Mangling.PackageMangler.constructor | test/test_package.py:754-760 | A new mangler takes the counter's current index, which was never issued before. The counter then advances by one and records that index as issued. |
| Mangling.PackageMangler.ParentName | test/test_package.py:797-804 | The mangle parent is mangled, contains no dot, and demangles to the empty string. |
| Mangling.PackageMangler.Mangle | test/test_package.py:762-771 | `mangle` fails with an assertion error exactly on the empty name. Otherwise the result is mangled, demangles to the name, has the mangle parent as its prefix, and equals prefix + "." + name. Being a function, it is the same on every call (762-767). |
| Mangling.PackageMangler.DemangleOwn | test/test_package.py:769-771 | A mangler's own demangle strips its own prefix from names it mangled. It leaves every other name unchanged. |
| Mangling.DistinctManglersNeverCollide | test/test_package.py:782-790 | Two manglers with different indices never produce the same mangled name, for any two names. |
| Mangling.DemangledIsMangledIff | test/test_package.py:773-780 | Demangling a mangled name gives something mangled exactly when the original name was mangled. |
| Mangling.OwnRoundTrip | test/test_package.py:769-771 | A mangler's own demangle inverts its mangle. |
| Mangling.IsMangledCases | test/test_package.py:773-780 | `foo.bar` is not mangled. Its mangling is mangled. The demangled result is not mangled. |
| Mangling.DemangleBase | test/test_package.py:797-804 | Demangling the part of `mangle("foo")` before its first dot gives the empty string. |
| Mangling.UniqueManglers | test/test_package.py:754-760 | Two manglers created one after the other mangle `foo.bar` differently. |
| Archive.SourcePath | test/test_package.py:73-86 | A module's source lies under its package path. A package's source is in the last directory; a plain module's is a `.py` file beside its siblings. |
| Archive.ResourcePath | test/test_package.py:695-703 | A resource's path starts with its package's directory, and at least one more component follows. |
| Archive.HostImport | test/test_package.py:236-255 | Importing from the host succeeds exactly for the names it has. A missing mangled name fails as not exportable; any other missing name fails as module not found. |
| Archive.FirstMatch | test/test_package.py:215-218 | The first rule, in registration order, whose glob matches the name. None exactly when no rule matches. |
| Archive.Classify | test/test_package.py:58-71 | The decision fails exactly when the root is not `torch`, not disallowed, and unknown to the host. The root is implicitly externed exactly when it is `torch` or a standard-library module. Otherwise the first matching rule decides, and when none matches the module is interned. |
| Archive.WriteSource | test/test_package.py:73-86 | Writing a source appends exactly one record at its source path and marks the name provided. |
| Archive.SaveExtern | test/test_package.py:196-213 | Externing records the name once in the extern list and writes no record. The provided names stay as they were: an externed name counts as provided only because an extern covers it. |
| Archive.Importable | test/test_package.py:58-66 | The imports kept for the walk are exactly those the host can import, and no more of them than were found. |
| Archive.ImportableSkips | test/test_package.py:58-66 | An import the host cannot import, wherever it stands in the list, is dropped: the kept list is the one without it. |
| Archive.UnimportableImportIgnored | test/test_package.py:58-66 | Saving a source with an extra import the host cannot import ends in the same state and outcome as without it, so that import never fails the save. |
| Archive.SaveMock | test/test_package.py:318-335 | Mocking succeeds exactly when the host knows the name. It always provides the mock support module, and on success the name too. |
| Archive.Finished | test/test_package.py:704-706 | Closing keeps every record written, then appends the extern list and the version record. |
| Archive.WalkExtends | test/test_package.py:73-86 | The dependency walk only appends records and externs and only adds provided names, even when it stops on an error. |
| Archive.WalkSound | test/test_package.py:196-234 | Every record and extern the walk adds is justified by the decision for its name: host source for interned modules, a stub for mocked ones, an extern for externed ones. |
| Archive.WalkFresh | test/test_package.py:73-86 | Every source record the walk writes belongs to a name not provided before, and no name's source is written twice. |
| Archive.SourcePathInjective | test/test_package.py:73-86 | Two modules whose last segment is not `__init__` and whose sources lie at the same path are the same module, saved the same way. |
| Archive.ExternDecisionCovers | test/test_package.py:196-213 | Once the extern a decision chose is in the extern list, that list covers the name: the name itself or its externed root. |
| Archive.WalkComplete | test/test_package.py:215-234 | A walk that ends without error has carried out the decision for every name on its work list that was not provided before. An extern now covers it, or its stub, its host source or the mock support module was written during the walk. The same holds for every dependency the host can import of every module it bundled from the host, and for every name it newly provided. |
| Exporter.PackageExporter.constructor | test/test_package.py:196-198 | A new exporter holds no records, rules, externs or provided names. |
| Exporter.PackageExporter.Extern | test/test_package.py:215-217 | `extern(...)` appends one extern rule with the compiled group. A pattern that does not compile leaves the rules unchanged and reports its error. |
| Exporter.PackageExporter.Mock | test/test_package.py:337-339 | `mock(...)` appends one mock rule, or leaves the rules unchanged and reports the pattern's error. |
| Exporter.PackageExporter.SaveText | test/test_package.py:695-703 | `save_text` appends one text record at the resource path. |
| Exporter.PackageExporter.SaveBinary | test/test_package.py:178-183 | `save_binary` appends one binary record at the resource path. |
| Exporter.PackageExporter.SaveExternModule | test/test_package.py:196-201 | The exporter's state after externing is the state function `SaveExtern` applied to the old state. |
| Exporter.PackageExporter.WriteModuleSource | test/test_package.py:73-80 | The exporter's state after writing a source is `WriteSource` of the old state. |
| Exporter.PackageExporter.SaveMockModule | test/test_package.py:318-324 | The exporter's state and error after mocking are `SaveMock` of the old state. |
| Exporter.PackageExporter.ModulesThatExist | test/test_package.py:58-66 | The loop over a source's imports returns `Importable`: the imports the host can import, in their order. |
| Exporter.PackageExporter.RequireAll | test/test_package.py:215-223 | The work-list loop leaves exactly the state and error of `Walk` from the old state. |
| Exporter.PackageExporter.SaveSourceString | test/test_package.py:58-66 | `save_source_string` leaves the state and error of `AfterSaveSource`. |
| Exporter.PackageExporter.SaveModule | test/test_package.py:73-80 | `save_module` leaves the state and error of `AfterSaveModule`. |
| Exporter.PackageExporter.RequireModule | test/test_package.py:196-201 | `require_module` leaves the state and error of `AfterRequire`. |
| Exporter.PackageExporter.Close | test/test_package.py:704-706 | `close` leaves, and returns, the records of `Finished` applied to the old state. |
| Loader.LastAt | test/test_package.py:712-713 | The index of the last record stored at a path. None exactly when no record is there. |
| Loader.Lookup | test/test_package.py:712-713 | Reading a path finds nothing exactly when no record is stored there. |
| Loader.FinishedExterns | test/test_package.py:196-213 | The extern list that `close` writes reads back as the exporter's extern list. |
| Loader.OpenFinished | test/test_package.py:704-706 | Opening a closed archive always succeeds, with the exporter's externs. |
| Loader.Resolve | test/test_package.py:73-86 | `import_module` fails only on the empty name or as module not found. It yields the host's module exactly for a known name that an extern covers. Any archive module carries the importer's mangled name, which is mangled and demangles back, and is backed by a directory or a `.py` file of the archive. Conversely, a non-empty name with no covering extern, no directory and no `.py` file is not found. |
| Loader.CallAttribute | test/test_package.py:351-355 | Calling an attribute of a module fails exactly when the module is a mock stub, and then as mocked out under the module's mangled name. |
| Loader.PackageImporter.constructor | test/test_package.py:299-315 | A new importer draws a never-issued mangler index and starts with an empty module cache. |
| Loader.PackageImporter.ImportModule | test/test_package.py:81-86 | The importer's `import_module` returns what `Resolve` gives. It caches successes and keeps every earlier cache entry. |
| Loader.OpenImporter | test/test_package.py:704-706 | Opening fails exactly when the extern list is missing. Otherwise the importer holds the records and the extern list read from them. |
| Loader.UniqueModuleNames | test/test_package.py:299-315 | Modules loaded by two importers never share a module name, and never keep their original name. |
| Loader.RequiredExternLoadsFromHost | test/test_package.py:196-213 | After `require_module` externs a name, the loaded archive gives the host's own module for it. That holds whether a rule or the implicit `torch`/standard-library extern decided it. |
| Loader.RequiredMockLoadsAsStub | test/test_package.py:318-335 | After `require_module` mocks a name, the loaded archive gives a stub under the mangled name, and every attribute call fails as mocked out. |
| Loader.WalkedExternLoadsFromHost | test/test_package.py:215-234 | `test_extern_glob`, `test_saving_string`: an import of a source saved with `save_source_string` that the rules or the implicit `torch`/standard-library extern extern loads as the host's own module, once the walk succeeds. |
| Loader.WalkedMockLoadsAsStub | test/test_package.py:336-355 | `test_mock_glob`: an import of a source saved with `save_source_string` that the rules mock loads as a stub under the mangled name, and every attribute call fails as mocked out, once the walk succeeds and unless an extern covers it. |
| Loader.WalkedSourceLast | test/test_package.py:73-86 | A source record the walk wrote is what its path reads back in the closed archive. |
| Loader.WalkedNoDirectory | test/test_package.py:73-86 | The walk and `close` make no directory of a plain host module's name. |
| Loader.UnsavedModuleNotFound | test/test_package.py:169-171 | `test_pickle`, `test_single_ordered_importer`: after `save_module`, a name the walk never provided, with no covering extern and nothing provided below it, is not found in the archive. |
| WalkExamples.ExternGlobGroup | test/test_package.py:218 | `extern(['package_a.*', 'module_*'])` registers two include patterns: `package_a` followed by one starred segment, and one segment starting with `module_`. There are no exclude patterns. |
| WalkExamples.ExternGlobDecisions | test/test_package.py:218-222 | Under that rule `package_a.subpackage` and `module_a` are externed, and `package_a` itself is bundled. |
| WalkExamples.WalkedExternCovered | test/test_package.py:219-223 | A name the rules extern that a successful walk provided is covered by an extern the walk recorded. |
| WalkExamples.SavedImportLoadsFromHost | test/test_package.py:219-229 | After `save_module` and the saving of a source that imports a name the rules extern, the closed archive serves that name as the host's module. |
| WalkExamples.ExternGlobImportsFromHost | test/test_package.py:215-232 | `test_extern_glob`: once `save_module('package_a')` and the saving of `test_module` succeed, `module_a` and `package_a.subpackage` load as the host's own modules. |
| WalkExamples.OneSegmentName | test/test_package.py:219-222 | A one-segment module name is the one string that is its segment. |
| WalkExamples.SubpackageName | test/test_package.py:221 | `package_a.subpackage` is the one string with its two segments. |
| Loader.SavedModuleLoadsPackaged | test/test_package.py:196-213 | A module that `save_module` bundled loads from the archive under the mangled name, never as the host's module. |
| Importers.ImportWith | test/test_package.py:814-818 | `sys_importer` yields the host's module exactly for a known non-empty name. A package importer answers as `Resolve`. |
| Importers.FirstDecisive | test/test_package.py:853-866 | The first importer that does not report "not found" decides the chain's answer. |
| Importers.AllSkip | test/test_package.py:849-851 | When every importer reports "not found", the chain fails with the last importer's failure. An empty chain fails on the name itself. |
| Importers.FirstSuccessWins | test/test_package.py:841-847 | The chain yields a module exactly when some importer yields it and every importer before it reported "not found". |
| Importers.OtherFailureStops | test/test_package.py:830-851 | A failure other than "not found" is the chain's answer; later importers are never asked. |
| Importers.SingleImporter | test/test_package.py:841-847 | A chain of one importer answers exactly as that importer does. |
| Importers.OrderDecides | test/test_package.py:853-866 | When two importers both have the name, whichever is listed first wins, in either order. |
| Importers.OrderedImporterBasic | test/test_package.py:853-866 | For a module bundled by `save_module`: with the host first the chain yields the host's module. With the package importer first it yields the bundled copy, which is not the host's. |
| Importers.OrderedImporter.constructor | test/test_package.py:843 | The chain keeps its importers in the order given. |
| Importers.OrderedImporter.ImportModule | test/test_package.py:830-866 | The loop over the importers returns exactly what `ImportFirst` gives. |
| Resources.GetResourceReader | test/test_package.py:708-730 | A package of the archive gets a reader exactly when it resolves to an archive package. An unknown name gets none. A failure is only the empty name or "not a package". |
| Resources.ArchivePackageHasReader | test/test_package.py:708 | A non-extern directory of the archive gets a reader. |
| Resources.AbsentPackageHasNoReader | test/test_package.py:730 | A name that is neither an extern, a directory nor a stored module gets no reader. |
| Resources.OpenResource | test/test_package.py:712-713 | Opening a resource succeeds exactly when it is a resource. It yields a record stored at its path, and otherwise reports that path missing. |
| Resources.ResourcePathOf | test/test_package.py:709-710 | `resource_path` always fails as file not found, naming the resource. |
| Resources.ContentsMembership | test/test_package.py:715-716 | A name is listed exactly when a stored path under the directory contributes it, and a subdirectory is not listed once already yielded. |
| Resources.ListedIff | test/test_package.py:715-716 | A reader lists a name exactly when some stored path under its directory contributes it: a file directly inside, or the first component of a deeper path. |
| Resources.SubdirectoryOnce | test/test_package.py:715-716 | A subdirectory already listed is never listed again. |
| Resources.SkipOutside | test/test_package.py:721-722 | A stored path outside the directory adds nothing to the listing. |
| Resources.Contents | test/test_package.py:715-716 | The loop over the stored paths returns exactly `ContentsOf`. |
| ResourceExamples.PathOne | test/test_package.py:695-697 | `save_text('one', r, …)` stores at `one/r` for a slash-free `r`. |
| ResourceExamples.PathTwo | test/test_package.py:702-703 | `save_text('two', r, …)` stores at `two/r`. |
| ResourceExamples.PathOneThree | test/test_package.py:699-700 | `save_text('one.three', r, …)` stores at `one/three/r`. |
| ResourceExamples.WriteTestArchive | test/test_package.py:695-705 | The test's seven `save_text` calls and `close`, run on a new exporter, return exactly the archive the other examples read. |
| ResourceExamples.OpensWithoutExterns | test/test_package.py:705-706 | The test's archive opens, with no externs. |
| ResourceExamples.ReaderForOne | test/test_package.py:708 | Package `one` gets a reader. |
| ResourceExamples.ReaderForTwo | test/test_package.py:718 | Package `two` gets a reader. |
| ResourceExamples.ReaderForOneThree | test/test_package.py:724 | Package `one.three` gets a reader. |
| ResourceExamples.ResourcesOfOne | test/test_package.py:709-714 | In `one`, `a.txt` is a resource holding `hello, a!` and `three` is not a resource. `resource_path('a.txt')` fails as not found. |
| ResourceExamples.ResourceOfTwo | test/test_package.py:718-720 | In `two`, `f.txt` is a resource holding `hello, f!`. |
| ResourceExamples.ResourceOfOneThree | test/test_package.py:724-726 | In `one.three`, `d.txt` is a resource holding `hello, d!`. |
| ResourceExamples.ListingOne | test/test_package.py:715-716 | Directory `one` lists `a.txt`, `b.txt`, `c.txt`, `three`, in that order. |
| ResourceExamples.ListingTwo | test/test_package.py:721-722 | Directory `two` lists `f.txt`, `g.txt`. |
| ResourceExamples.ListingOneThree | test/test_package.py:727-728 | Directory `one/three` lists `d.txt`, `e.txt`. |
| ResourceExamples.ReaderContents | test/test_package.py:715-728 | `contents()` of the readers for `one`, `two` and `one.three` are the three listings above. |
| ResourceExamples.NoReaderForAbsentPackage | test/test_package.py:730 | `nonexistent_package` gets no reader. |

## Left out

- Zip containers, files, `BytesIO` and the temporary files of the tests: an archive is a sequence of records, each a path and what is stored there.
- Pickling, `save_pickle`, `load_pickle`, `ObjMismatchError` and `PicklingError`: they depend on Python's pickle protocol and object identity.
- Running packaged code: the `torch_package_importer` hook, `importlib.resources` inside a package, and `load_text`/`load_binary` from packaged code. A module's source is a tag, not code that runs.
- The torchvision, FX and TorchScript tests, the debug dependency graph and `inspect` source retrieval: they need foreign libraries or floating point.
- The host's real import system: `sys_importer` is a finite map from name to what the exporter needs of the module, and `get_name` is not modelled.
- Finding a module's imports: the modules a source imports are given as a parameter (`deps`), not parsed from the text. The scanner's preference for `pack.sub` over `pack` in `from pack import sub` is taken to be already applied to that list.
- The recursion of `require_module`: it is modelled as a work list visited in the same order (`Archive.Walk`, `Exporter.PackageExporter.RequireAll`).
- A subclass overriding `require_module`: not modelled.
- The `dependencies=` flag and `save_source_file`: not modelled.
- `file_structure`: not modelled.
- The version record's contents and the UTF-8 encoding of text resources: not modelled.
- Loading parent packages before a submodule, and the importer's errors for an inconsistent archive layout: not modelled. Resolution looks only at the stored paths.
- Normalisation of resource names: `save_text` splits the resource name on `/` and nothing more.
- Paths stored twice: only the later record is read back.
- Character classes: `\d` in `is_mangled` means the ASCII digits.
- Loader.RequiredMockLoadsAsStub: the archive must hold no extern covering the name and, for a plain module, no directory of that name. Otherwise the extern or the package would win, as in the importer.
- Loader.SavedModuleLoadsPackaged: the module must not be covered by an extern the walk recorded. An extern covering it would be loaded from the host instead.
- Importers.OrderedImporterBasic: it carries the same condition as `SavedModuleLoadsPackaged`.
- Loader.WalkedMockLoadsAsStub: it needs a host laid out as Python lays out files (no module named `__init__`, no module inside a plain module), no host module named like the mock support module, and, for a plain module, no directory of its name before. It speaks only of a walk that succeeds and leaves no extern covering the name.
- Loader.WalkedExternLoadsFromHost: it speaks only of a walk that succeeds.
- Loader.UnsavedModuleNotFound: it needs the same host layout, and the exporter must not hold the name's file or directory before `save_module`. It speaks only of a `save_module` that succeeds.
- Loader.WalkedSourceLast: it needs the same host layout, since a plain module `a.__init__` would share the file of package `a`.
- WalkExamples.ExternGlobImportsFromHost: it speaks only of saves that succeed, and of a host whose `package_a` and `module_a` are not standard-library modules. It leaves out the test's check that `package_a` itself loads from the archive. That check follows from `ExternGlobDecisions` and `SavedModuleLoadsPackaged` for the archive before the second save, but is not carried through it. The test's names are given by their segments (`TestNames`) rather than as string literals.
- Resources.ContentsFrom: a path two or more levels below the directory contributes its first component below the directory. The importer yields the name of the file's parent directory instead. The two agree on the test's archive, whose files lie at most one level down.
