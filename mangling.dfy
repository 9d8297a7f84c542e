/**
 * Name mangling for packages loaded side by side.
 *
 * Every package importer owns one `PackageMangler`. The mangler takes the
 * next value of a process-wide index when it is built and never gives it
 * back, and prefixes every module name it loads with the token
 * `<torch_package_N>` for that index, so two importers never register a
 * module under the same name, and neither collides with a host module.
 * The module-level helpers recognise, strip and extract that prefix.
 */
module Mangling {
  import opened Wrappers
  import opened Strings

  /** What every token starts with; `<` never starts a real module name. */
  const TOKEN_OPEN: string := "<torch_package_"

  /** The token of the mangler with index `i`: `f"<torch_package_{i}>"`. */
  function Token(i: nat): (t: string)
    ensures '.' !in t
    ensures StartsWith(t, TOKEN_OPEN)
  {
    var t := TOKEN_OPEN + Decimal(i) + ">";
    assert t[..|TOKEN_OPEN|] == TOKEN_OPEN;
    assert forall k :: 0 <= k < |Decimal(i)| ==> t[|TOKEN_OPEN| + k] == Decimal(i)[k];
    t
  }

  /** Number of decimal digits at the start of `s` (the greedy run `\d+` consumes). */
  function DigitRun(s: string): (n: nat)
    ensures n <= |s|
    ensures forall k :: 0 <= k < n ==> IsDigit(s[k])
    ensures n < |s| ==> !IsDigit(s[n])
    decreases |s|
  {
    if s == [] || !IsDigit(s[0]) then 0 else 1 + DigitRun(s[1..])
  }

  /**
   * `is_mangled`: `re.match(r"<torch_package_\d+>", name)`. The match is
   * anchored at the start only; after the digits a `>` must follow. As the
   * digit run cannot contain `>`, backtracking never helps, so the greedy
   * run decides.
   */
  predicate IsMangled(name: string) {
    StartsWith(name, TOKEN_OPEN) &&
    var rest := name[|TOKEN_OPEN|..];
    var n := DigitRun(rest);
    1 <= n < |rest| && rest[n] == '>'
  }

  /**
   * `demangle`: strip the token and the dot after it. A bare token (no dot)
   * demangles to the empty string; a name that is not mangled is returned
   * as it is.
   */
  function Demangle(name: string): (r: string)
    ensures !IsMangled(name) ==> r == name
    ensures IsMangled(name) ==> |r| < |name|
  {
    if IsMangled(name) then
      var (first, found, last) := Partition(name, '.');
      if found then last else ""
    else name
  }

  /** `get_mangle_prefix`: the token of a mangled name; other names are returned as they are. */
  function GetManglePrefix(name: string): (r: string)
    ensures '.' !in r || r == name
    ensures IsMangled(name) ==> StartsWith(name, r)
  {
    if IsMangled(name) then
      var p := Partition(name, '.');
      assert name[..|p.0|] == p.0;
      p.0
    else name
  }

  // ----- facts about tokens -----

  /** A digit run followed by a non-digit is exactly that long. */
  lemma {:induction false} DigitRunOf(d: string, t: string)
    requires AllDigits(d)
    requires t != [] && !IsDigit(t[0])
    ensures DigitRun(d + t) == |d|
    decreases |d|
  {
    if d == [] {
      assert d + t == t;
    } else {
      assert (d + t)[1..] == d[1..] + t;
      DigitRunOf(d[1..], t);
    }
  }

  /** Every token, and every name that starts with one, is mangled. */
  lemma StartsWithTokenIsMangled(i: nat, rest: string)
    ensures IsMangled(Token(i) + rest)
  {
    var name := Token(i) + rest;
    var d := Decimal(i);
    assert name == TOKEN_OPEN + (d + (">" + rest));
    assert name[..|TOKEN_OPEN|] == TOKEN_OPEN;
    assert name[|TOKEN_OPEN|..] == d + (">" + rest);
    DigitRunOf(d, ">" + rest);
    assert (d + (">" + rest))[|d|] == '>';
  }

  /** Distinct indices give distinct tokens. */
  lemma TokenInjective(i: nat, j: nat)
    requires Token(i) == Token(j)
    ensures i == j
  {
    var ti, tj := Token(i), Token(j);
    assert Decimal(i) == ti[|TOKEN_OPEN|..|ti| - 1];
    assert Decimal(j) == tj[|TOKEN_OPEN|..|tj| - 1];
    DecimalInjective(i, j);
  }

  /** A name that does not start with `<` is never mangled. */
  lemma PlainNameNotMangled(name: string)
    requires name == [] || name[0] != '<'
    ensures !IsMangled(name)
  {
  }

  /**
   * The module-level `_mangle_index`: the index the next mangler takes.
   * `issued` records every index already handed out; all of them are below
   * `next`, so the next one is new.
   */
  class MangleIndex {
    var next: nat
    ghost var issued: set<nat>

    ghost predicate Valid()
      reads this
    {
      forall i :: i in issued ==> i < next
    }

    /** The index starts at zero, when the packaging code is first loaded. */
    constructor ()
      ensures Valid() && next == 0 && issued == {}
    {
      next := 0;
      issued := {};
    }
  }

  /** `PackageMangler`: one index, drawn once from the global counter. */
  class PackageMangler {
    const index: nat

    /** Takes the current global index and increments it; the index was never issued before. */
    constructor (counter: MangleIndex)
      requires counter.Valid()
      modifies counter
      ensures counter.Valid()
      ensures index == old(counter.next) && index !in old(counter.issued)
      ensures counter.next == old(counter.next) + 1
      ensures counter.issued == old(counter.issued) + {index}
    {
      index := counter.next;
      counter.next := counter.next + 1;
      counter.issued := counter.issued + {counter.next - 1};
    }

    /** `parent_name`: the `_mangle_parent` token of this mangler. */
    function ParentName(): (t: string)
      ensures IsMangled(t) && '.' !in t
      ensures Demangle(t) == ""
    {
      var t := Token(index);
      StartsWithTokenIsMangled(index, "");
      assert t + "" == t;
      t
    }

    /**
     * `mangle`: the empty name is refused by an assertion; any other name
     * gets this mangler's token and a dot in front. The result is mangled,
     * demangles back to the name, and its prefix is this mangler's token.
     */
    function Mangle(name: string): (r: Result<string, Error>)
      ensures r.Err? <==> name == ""
      ensures r.Err? ==> r.error == AssertionFailed
      ensures r.Ok? ==> IsMangled(r.value) && Demangle(r.value) == name
      ensures r.Ok? ==> GetManglePrefix(r.value) == ParentName()
      ensures r.Ok? ==> GetManglePrefix(r.value) + "." + name == r.value
    {
      if name == "" then Err(AssertionFailed)
      else
        var t := ParentName();
        var m := t + "." + name;
        StartsWithTokenIsMangled(index, "." + name);
        assert m == Token(index) + ("." + name);
        PartitionAt(t, name, '.');
        Ok(m)
    }

    /**
     * The method `PackageMangler.demangle`: strips this mangler's own token
     * and nothing else.
     */
    function DemangleOwn(mangled: string): (r: string)
      ensures !StartsWith(mangled, ParentName() + ".") ==> r == mangled
      ensures forall name :: name != "" && mangled == ParentName() + "." + name ==> r == name
    {
      if StartsWith(mangled, ParentName() + ".") then
        var t := ParentName();
        var rest := mangled[|t| + 1..];
        assert mangled == t + "." + rest;
        PartitionAt(t, rest, '.');
        Partition(mangled, '.').2
      else mangled
    }
  }

  // ----- properties stated by the mangling tests -----

  /** Manglers with different indices never produce the same name, whatever the inputs. */
  lemma DistinctManglersNeverCollide(a: PackageMangler, b: PackageMangler, x: string, y: string)
    requires a.index != b.index
    requires x != "" && y != ""
    ensures a.Mangle(x).value != b.Mangle(y).value
  {
    if a.Mangle(x).value == b.Mangle(y).value {
      TokenInjective(a.index, b.index);
    }
  }

  /**
   * Demangling what a mangler produced gives a mangled name exactly when the
   * input was one; in particular a plain name comes back unmangled.
   */
  lemma DemangledIsMangledIff(m: PackageMangler, x: string)
    requires x != ""
    ensures IsMangled(Demangle(m.Mangle(x).value)) <==> IsMangled(x)
  {
  }

  /** A mangler's own demangle undoes its mangle. */
  lemma OwnRoundTrip(m: PackageMangler, x: string)
    requires x != ""
    ensures m.DemangleOwn(m.Mangle(x).value) == x
  {
  }

  /** `test_is_mangled`: `foo.bar` is not mangled, mangled output is, and its demangling is not. */
  lemma IsMangledCases(a: PackageMangler)
    ensures !IsMangled("foo.bar")
    ensures IsMangled(a.Mangle("foo.bar").value)
    ensures !IsMangled(Demangle(a.Mangle("foo.bar").value))
  {
    PlainNameNotMangled("foo.bar");
    DemangledIsMangledIff(a, "foo.bar");
  }

  /** `test_demangle_base`: the part of a mangled name before its first dot demangles to "". */
  lemma DemangleBase(a: PackageMangler)
    ensures Demangle(Partition(a.Mangle("foo").value, '.').0) == ""
  {
    PartitionAt(a.ParentName(), "foo", '.');
  }

  /** `test_unique_manglers`: two manglers built one after the other mangle `foo.bar` differently. */
  method UniqueManglers(counter: MangleIndex) returns (a: PackageMangler, b: PackageMangler)
    requires counter.Valid()
    modifies counter
    ensures counter.Valid()
    ensures a.Mangle("foo.bar") != b.Mangle("foo.bar")
  {
    a := new PackageMangler(counter);
    b := new PackageMangler(counter);
    DistinctManglersNeverCollide(a, b, "foo.bar", "foo.bar");
  }
}
