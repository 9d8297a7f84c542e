/**
 * `PackageExporter`: the object that accumulates an archive one save call
 * at a time. Its fields are the records written so far, the names already
 * provided, the extern list and the registered extern/mock rules; each
 * method is proved to leave exactly the state the corresponding function
 * of module Archive describes.
 */
module Exporter {
  import opened Wrappers
  import opened Glob
  import opened Archive

  class PackageExporter {
    /** The host environment the exporter imports from. */
    const host: Host
    var records: seq<Record>
    var provided: set<string>
    var externModules: seq<string>
    var rules: seq<Rule>

    /** The accumulated state, as module Archive sees it. */
    function Current(): State
      reads this
    {
      State(records, provided, externModules)
    }

    constructor (host: Host)
      ensures this.host == host
      ensures records == [] && provided == {} && externModules == [] && rules == []
    {
      this.host := host;
      records := [];
      provided := {};
      externModules := [];
      rules := [];
    }

    /** `extern(include, exclude)`: registers a rule; a malformed glob registers nothing. */
    method Extern(included: GlobPattern, excluded: GlobPattern) returns (err: Option<Error>)
      modifies this`rules
      ensures var g := NewGlobGroup(included, excluded, '.');
        if g.Ok? then err.None? && rules == old(rules) + [Rule(g.value, Archive.Extern)]
        else err == Some(g.error) && rules == old(rules)
    {
      var g := NewGlobGroup(included, excluded, '.');
      if g.Err? {
        return Some(g.error);
      }
      rules := rules + [Rule(g.value, Archive.Extern)];
      return None;
    }

    /** `mock(include, exclude)`: registers a rule; a malformed glob registers nothing. */
    method Mock(included: GlobPattern, excluded: GlobPattern) returns (err: Option<Error>)
      modifies this`rules
      ensures var g := NewGlobGroup(included, excluded, '.');
        if g.Ok? then err.None? && rules == old(rules) + [Rule(g.value, Archive.Mock)]
        else err == Some(g.error) && rules == old(rules)
    {
      var g := NewGlobGroup(included, excluded, '.');
      if g.Err? {
        return Some(g.error);
      }
      rules := rules + [Rule(g.value, Archive.Mock)];
      return None;
    }

    /** `save_text(package, resource, text)`: one record at the resource's path. */
    method SaveText(package: string, resource: string, text: string)
      modifies this`records
      ensures records == old(records) + [Record(ResourcePath(package, resource), Text(text))]
    {
      records := records + [Record(ResourcePath(package, resource), Text(text))];
    }

    /** `save_binary(package, resource, bytes)`: one record at the resource's path. */
    method SaveBinary(package: string, resource: string, bytes: seq<bv8>)
      modifies this`records
      ensures records == old(records) + [Record(ResourcePath(package, resource), Binary(bytes))]
    {
      records := records + [Record(ResourcePath(package, resource), Binary(bytes))];
    }

    /** `save_extern_module(name)`. */
    method SaveExternModule(name: string)
      modifies this`externModules
      ensures Current() == SaveExtern(old(Current()), name)
    {
      if name !in externModules {
        externModules := externModules + [name];
      }
    }

    /** The write shared by every way of saving source: one record, and the name is provided. */
    method WriteModuleSource(name: string, isPackage: bool, code: Code)
      modifies this`records, this`provided
      ensures Current() == WriteSource(old(Current()), name, isPackage, code)
    {
      records := records + [Record(SourcePath(name, isPackage), Source(name, isPackage, code))];
      provided := provided + {name};
    }

    /** `save_mock_module(name)`. */
    method SaveMockModule(name: string) returns (err: Option<Error>)
      modifies this`records, this`provided
      ensures (Current(), err) == SaveMock(old(Current()), host, name)
    {
      if MOCK_SUPPORT !in provided {
        WriteModuleSource(MOCK_SUPPORT, false, MockSupport);
      }
      if name !in host {
        return Some(HostImport(host, name).error);
      }
      WriteModuleSource(name, host[name].isPackage, MockImpl);
      return None;
    }

    /**
     * The filter of `save_source_string` over the imports its scanner found:
     * those for which `_module_exists` holds, in their order.
     */
    method ModulesThatExist(deps: seq<string>) returns (imports: seq<string>)
      ensures imports == Importable(host, deps)
    {
      imports := [];
      for i := 0 to |deps|
        invariant imports == Importable(host, deps[..i])
      {
        assert deps[..i + 1][..i] == deps[..i];
        if deps[i] in host {
          imports := imports + [deps[i]];
        }
      }
      assert deps[..|deps|] == deps;
    }

    /**
     * The dependency walk: `require_module_if_not_provided` for each name,
     * a bundled module's own imports handled before the names after it. The
     * recursion of the exporter is kept as an explicit stack of pending
     * names, which visits them in the same order.
     */
    method RequireAll(work0: seq<string>) returns (err: Option<Error>)
      modifies this`records, this`provided, this`externModules
      ensures (Current(), err) == Walk(rules, host, old(Current()), work0)
    {
      var work := work0;
      ghost var target := Walk(rules, host, Current(), work0);
      while work != []
        invariant Walk(rules, host, Current(), work) == target
        decreases host.Keys - provided, |work|
      {
        var name := work[0];
        if AlreadyProvided(Current(), name) {
          work := work[1..];
        } else {
          var d := Classify(rules, host, name);
          match d
          case Err(e) =>
            return Some(e);
          case Ok(ExternRoot(root)) =>
            SaveExternModule(root);
            work := work[1..];
          case Ok(ByRule(a)) =>
            if a == Archive.Extern {
              SaveExternModule(name);
            } else {
              ghost var before := Current();
              err := SaveMockModule(name);
              if err.Some? {
                return err;
              }
              ProvideShrinks(host, before.provided, provided, name);
            }
            work := work[1..];
          case Ok(Intern) =>
            if name !in host {
              return Some(HostImport(host, name).error);
            }
            ghost var before := Current();
            WriteModuleSource(name, host[name].isPackage, HostSource);
            ProvideShrinks(host, before.provided, provided, name);
            var imports := ModulesThatExist(host[name].deps);
            work := imports + work[1..];
        }
      }
      return None;
    }

    /**
     * `save_source_string(name, text, is_package)`; `deps` are the modules
     * the text imports, as the exporter's import scanner finds them, and
     * only those the host can import are walked.
     */
    method SaveSourceString(name: string, text: string, isPackage: bool, deps: seq<string>)
      returns (err: Option<Error>)
      modifies this`records, this`provided, this`externModules
      ensures (Current(), err) == AfterSaveSource(rules, host, old(Current()), name, text, isPackage, deps)
    {
      WriteModuleSource(name, isPackage, GivenSource(text));
      var imports := ModulesThatExist(deps);
      err := RequireAll(imports);
    }

    /** `save_module(name)`: the host's source of the module, then its imports. */
    method SaveModule(name: string) returns (err: Option<Error>)
      modifies this`records, this`provided, this`externModules
      ensures (Current(), err) == AfterSaveModule(rules, host, old(Current()), name)
    {
      if name !in host {
        return Some(HostImport(host, name).error);
      }
      WriteModuleSource(name, host[name].isPackage, HostSource);
      var imports := ModulesThatExist(host[name].deps);
      err := RequireAll(imports);
    }

    /** `require_module(name)`: implicit extern of the root, else the first matching rule, else save_module. */
    method RequireModule(name: string) returns (err: Option<Error>)
      modifies this`records, this`provided, this`externModules
      ensures (Current(), err) == AfterRequire(rules, host, old(Current()), name)
    {
      var d := Classify(rules, host, name);
      match d
      case Err(e) =>
        return Some(e);
      case Ok(ExternRoot(root)) =>
        SaveExternModule(root);
        return None;
      case Ok(ByRule(a)) =>
        if a == Archive.Extern {
          SaveExternModule(name);
          return None;
        }
        err := SaveMockModule(name);
      case Ok(Intern) =>
        err := SaveModule(name);
    }

    /** `close()`: the manifest is written last; the result is the finished archive. */
    method Close() returns (archive: seq<Record>)
      modifies this`records
      ensures records == Finished(old(Current())) && archive == records
    {
      records := records + [Record(EXTERN_PATH, ExternList(externModules)), Record(VERSION_PATH, VersionTag)];
      archive := records;
    }
  }
}
