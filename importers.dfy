/**
 * `OrderedImporter`: a chain of importers consulted in the order given.
 *
 * Each importer is either the host's own import system (`sys_importer`) or
 * a package importer over an opened archive. The chain returns the first
 * importer's answer that is not "module not found"; any other failure stops
 * the search at once; when every importer reports "not found", the last of
 * those reports is raised, and an empty chain reports the name itself.
 */
module Importers {
  import opened Wrappers
  import opened Mangling
  import opened Archive
  import opened Loader

  datatype Importer =
    | SysImporter(host: Host)        // `sys_importer`
    | ArchiveImporter(view: Loaded)  // a `PackageImporter`

  /** `importer.import_module(name)` of one importer. */
  function ImportWith(i: Importer, name: string): (r: Result<ModuleRef, Error>)
    ensures i.SysImporter? ==> (r.Ok? <==> name != "" && name in i.host)
    ensures i.SysImporter? && r.Ok? ==> r.value == HostRef(name)
    ensures i.ArchiveImporter? ==> r == Resolve(i.view, name)
  {
    match i
    case SysImporter(host) =>
      if name == "" then Err(EmptyModuleName)
      else if name in host then Ok(HostRef(name))
      else Err(ModuleNotFound(name))
    case ArchiveImporter(v) => Resolve(v, name)
  }

  /** The failures the chain steps over: `ModuleNotFoundError` and its subclass for mangled names. */
  predicate NotFound(e: Error) {
    e.ModuleNotFound? || e.NotExportable?
  }

  /** Importer `i` does not have `name`, so the chain goes on to the next one. */
  predicate Skips(i: Importer, name: string) {
    ImportWith(i, name).Err? && NotFound(ImportWith(i, name).error)
  }

  /** `OrderedImporter(*importers).import_module(name)`. */
  function ImportFirst(importers: seq<Importer>, name: string): (r: Result<ModuleRef, Error>)
    decreases |importers|
  {
    if importers == [] then Err(ModuleNotFound(name))
    else if Skips(importers[0], name) && |importers| > 1 then ImportFirst(importers[1..], name)
    else ImportWith(importers[0], name)
  }

  // ----- what the chain answers -----

  /** The first importer that does not skip the name decides the answer. */
  lemma {:induction false} FirstDecisive(importers: seq<Importer>, name: string, i: nat)
    requires i < |importers| && !Skips(importers[i], name)
    requires forall j :: 0 <= j < i ==> Skips(importers[j], name)
    ensures ImportFirst(importers, name) == ImportWith(importers[i], name)
    decreases i
  {
    if i > 0 {
      var rest := importers[1..];
      assert Skips(importers[0], name);
      forall j | 0 <= j < i - 1
        ensures Skips(rest[j], name)
      {
        assert rest[j] == importers[j + 1];
      }
      FirstDecisive(rest, name, i - 1);
      assert rest[i - 1] == importers[i];
    }
  }

  /** When every importer skips the name, the last one's failure is raised; an empty chain fails on the name. */
  lemma {:induction false} AllSkip(importers: seq<Importer>, name: string)
    requires forall j :: 0 <= j < |importers| ==> Skips(importers[j], name)
    ensures importers == [] ==> ImportFirst(importers, name) == Err(ModuleNotFound(name))
    ensures importers != [] ==> ImportFirst(importers, name) == ImportWith(importers[|importers| - 1], name)
    ensures ImportFirst(importers, name).Err? && NotFound(ImportFirst(importers, name).error)
    decreases |importers|
  {
    if |importers| > 1 {
      assert forall j :: 0 <= j < |importers| - 1 ==> importers[1..][j] == importers[j + 1];
      AllSkip(importers[1..], name);
    }
  }

  /** The chain from position `i` on: importer `i` answers unless it skips and others follow. */
  lemma ChainStep(importers: seq<Importer>, name: string, i: nat)
    requires i < |importers|
    ensures ImportFirst(importers[i..], name) ==
      if Skips(importers[i], name) && i + 1 < |importers| then ImportFirst(importers[i + 1..], name)
      else ImportWith(importers[i], name)
  {
    assert importers[i..][0] == importers[i];
    assert importers[i..][1..] == importers[i + 1..];
  }

  /**
   * `import_module` through the chain yields module `m` exactly when some
   * importer yields `m` and every importer before it reported not found.
   */
  lemma FirstSuccessWins(importers: seq<Importer>, name: string, m: ModuleRef)
    ensures ImportFirst(importers, name) == Ok(m) <==>
      exists i :: 0 <= i < |importers| && ImportWith(importers[i], name) == Ok(m) &&
                  forall j :: 0 <= j < i ==> Skips(importers[j], name)
  {
    if exists i :: 0 <= i < |importers| && ImportWith(importers[i], name) == Ok(m) &&
                   forall j :: 0 <= j < i ==> Skips(importers[j], name) {
      var i :| 0 <= i < |importers| && ImportWith(importers[i], name) == Ok(m) &&
               forall j :: 0 <= j < i ==> Skips(importers[j], name);
      FirstDecisive(importers, name, i);
    } else if ImportFirst(importers, name) == Ok(m) {
      if forall j :: 0 <= j < |importers| ==> Skips(importers[j], name) {
        AllSkip(importers, name);
      } else {
        var i := FirstNotSkipping(importers, name);
        FirstDecisive(importers, name, i);
      }
    }
  }

  /** The position of the first importer that does not skip the name, when there is one. */
  function FirstNotSkipping(importers: seq<Importer>, name: string): (i: nat)
    requires exists j :: 0 <= j < |importers| && !Skips(importers[j], name)
    ensures i < |importers| && !Skips(importers[i], name)
    ensures forall j :: 0 <= j < i ==> Skips(importers[j], name)
    decreases |importers|
  {
    if !Skips(importers[0], name) then 0
    else
      var j :| 0 <= j < |importers| && !Skips(importers[j], name);
      assert importers[1..][j - 1] == importers[j];
      var k := FirstNotSkipping(importers[1..], name);
      assert forall l :: 1 <= l <= k ==> importers[l] == importers[1..][l - 1];
      k + 1
  }

  /** A failure other than not found stops the chain: later importers are never asked. */
  lemma OtherFailureStops(importers: seq<Importer>, name: string, i: nat)
    requires i < |importers| && ImportWith(importers[i], name).Err? && !NotFound(ImportWith(importers[i], name).error)
    requires forall j :: 0 <= j < i ==> Skips(importers[j], name)
    ensures ImportFirst(importers, name) == ImportWith(importers[i], name)
  {
    FirstDecisive(importers, name, i);
  }

  /** `test_single_ordered_importer`: a chain of one importer answers as that importer does. */
  lemma SingleImporter(i: Importer, name: string)
    ensures ImportFirst([i], name) == ImportWith(i, name)
  {
  }

  /**
   * `test_ordered_importer_basic`: when two importers both resolve a name,
   * whichever is listed first wins, so swapping them swaps the winner.
   */
  lemma {:induction false} OrderDecides(a: Importer, b: Importer, name: string)
    requires ImportWith(a, name).Ok? && ImportWith(b, name).Ok?
    ensures ImportFirst([a, b], name) == ImportWith(a, name)
    ensures ImportFirst([b, a], name) == ImportWith(b, name)
  {
    FirstDecisive([a, b], name, 0);
    FirstDecisive([b, a], name, 0);
  }

  /**
   * `test_ordered_importer_basic` on an archive made by `save_module(name)`:
   * with the host first the chain yields the host's module; with the package
   * importer first it yields the bundled copy, which is not the host's.
   */
  lemma OrderedImporterBasic(rules: seq<Rule>, host: Host, s: State, name: string, m: PackageMangler)
    requires name != "" && name in host
    requires var t := AfterSaveModule(rules, host, s, name).0; !ExternCovers(t.externs, name)
    ensures var t := AfterSaveModule(rules, host, s, name).0;
      var v := Loaded(Finished(t), t.externs, host, m);
      ImportFirst([SysImporter(host), ArchiveImporter(v)], name) == Ok(HostRef(name)) &&
      ImportFirst([ArchiveImporter(v), SysImporter(host)], name) == Resolve(v, name) &&
      Resolve(v, name).Ok? && Resolve(v, name).value != HostRef(name)
  {
    var t := AfterSaveModule(rules, host, s, name).0;
    var v := Loaded(Finished(t), t.externs, host, m);
    SavedModuleLoadsPackaged(rules, host, s, name, m);
    OrderDecides(SysImporter(host), ArchiveImporter(v), name);
  }

  /**
   * The object the test builds with `OrderedImporter(...)`: its importers are
   * fixed at construction, and `import_module` asks them in turn, keeping the
   * last not-found failure to raise if none has the name.
   */
  class OrderedImporter {
    const importers: seq<Importer>

    constructor (importers: seq<Importer>)
      ensures this.importers == importers
    {
      this.importers := importers;
    }

    method ImportModule(name: string) returns (r: Result<ModuleRef, Error>)
      ensures r == ImportFirst(importers, name)
    {
      r := Err(ModuleNotFound(name));
      var i := 0;
      while i < |importers|
        invariant 0 <= i <= |importers|
        invariant i < |importers| ==> ImportFirst(importers[i..], name) == ImportFirst(importers, name)
        invariant i == |importers| ==> r == ImportFirst(importers, name)
      {
        var attempt := ImportWith(importers[i], name);
        ChainStep(importers, name, i);
        if !Skips(importers[i], name) {
          return attempt;
        }
        r := attempt;
        i := i + 1;
      }
    }
  }
}
