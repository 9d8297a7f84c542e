/**
 * The glob cases of the module-glob test, each stated over the group built
 * from the test's own pattern strings and proved from the general lemmas of
 * module Glob.
 */
module GlobExamples {
  import opened Wrappers
  import opened Strings
  import opened Glob

  const TORCH := Segment(["torch"])
  const FOO := Segment(["foo"])
  const STAR := Segment(["", ""])          // `*`
  const TORCH_STAR := Segment(["torch", ""])  // `torch*`

  /** The split of a string is the list of separator-free parts that joins back to it. */
  lemma SplitAs(s: string, sep: char, parts: seq<string>)
    requires |parts| >= 1 && Join(parts, sep) == s
    requires forall i :: 0 <= i < |parts| ==> sep !in parts[i]
    ensures Split(s, sep) == parts
  {
    SplitJoin(parts, sep);
  }

  /** A group of one include pattern and no exclude pattern. */
  lemma GroupOfOne(pattern: string, p: Pattern)
    requires Compile(pattern, '.') == Ok(p)
    ensures NewGlobGroup(Single(pattern), Many([]), '.') == Ok(GlobGroup([p], [], '.'))
  {
    var r := CompileAll([pattern], '.');
    assert r.Ok? && r.value[0] == p;
    assert r.value == [p];
  }

  /** A group of one include pattern and one exclude pattern. */
  lemma GroupOfTwo(pattern: string, p: Pattern, excluded: string, q: Pattern)
    requires Compile(pattern, '.') == Ok(p) && Compile(excluded, '.') == Ok(q)
    ensures NewGlobGroup(Single(pattern), Many([excluded]), '.') == Ok(GlobGroup([p], [q], '.'))
  {
    var r := CompileAll([pattern], '.');
    assert r.Ok? && r.value[0] == p;
    assert r.value == [p];
    var r' := CompileAll([excluded], '.');
    assert r'.Ok? && r'.value[0] == q;
    assert r'.value == [q];
  }

  /** With one include pattern and none excluded, the group matches what the pattern matches. */
  lemma OneInclude(p: Pattern, candidate: string, segs: seq<string>)
    requires Split(candidate, '.') == segs
    ensures Matches(GlobGroup([p], [], '.'), candidate) <==> MatchSegments(p, segs)
  {
    assert [p][1..] == [];
  }

  /** With one include and one exclude pattern, the group matches what the first matches and the second does not. */
  lemma IncludeExclude(p: Pattern, q: Pattern, candidate: string, segs: seq<string>)
    requires Split(candidate, '.') == segs
    ensures Matches(GlobGroup([p], [q], '.'), candidate) <==> MatchSegments(p, segs) && !MatchSegments(q, segs)
  {
    assert [p][1..] == [] && [q][1..] == [];
    assert AnyMatches([p], segs) == MatchSegments(p, segs);
    assert AnyMatches([q], segs) == MatchSegments(q, segs);
  }

  // ----- the components -----

  lemma ComponentTorch() ensures CompileComponent("torch") == Ok(TORCH) {
    SplitAs("torch", '*', ["torch"]);
  }

  lemma ComponentFoo() ensures CompileComponent("foo") == Ok(FOO) {
    SplitAs("foo", '*', ["foo"]);
  }

  lemma ComponentStar() ensures CompileComponent("*") == Ok(STAR) {
    SplitAs("*", '*', ["", ""]);
  }

  lemma ComponentTorchStar() ensures CompileComponent("torch*") == Ok(TORCH_STAR) {
    SplitAs("torch*", '*', ["torch", ""]);
    assert !HasDoubleStar("torch*");
  }

  /** Compiling a list of components one by one. */
  lemma ComponentsAre(cs: seq<string>, p: Pattern)
    requires |cs| == |p|
    requires forall i :: 0 <= i < |cs| ==> CompileComponent(cs[i]) == Ok(p[i])
    ensures CompileComponents(cs) == Ok(p)
  {
    var r := CompileComponents(cs);
    assert r.Ok?;
    assert r.value == p;
  }

  // ----- the patterns -----

  lemma ComponentsTorchStar() ensures CompileComponents(["torch", "*"]) == Ok([TORCH, STAR]) {
    ComponentTorch();
    ComponentStar();
    ComponentsAre(["torch", "*"], [TORCH, STAR]);
  }

  lemma PatternTorchStar() ensures Compile("torch.*", '.') == Ok([TORCH, STAR]) {
    SplitAs("torch.*", '.', ["torch", "*"]);
    ComponentsTorchStar();
  }

  lemma ComponentsTorchAny() ensures CompileComponents(["torch", "**"]) == Ok([TORCH, AnySegments]) {
    ComponentTorch();
    ComponentsAre(["torch", "**"], [TORCH, AnySegments]);
  }

  lemma PatternTorchAny() ensures Compile("torch.**", '.') == Ok([TORCH, AnySegments]) {
    SplitAs("torch.**", '.', ["torch", "**"]);
    ComponentsTorchAny();
  }

  lemma ComponentsTorchStarFoo() ensures CompileComponents(["torch", "*", "foo"]) == Ok([TORCH, STAR, FOO]) {
    ComponentTorch();
    ComponentStar();
    ComponentFoo();
    ComponentsAre(["torch", "*", "foo"], [TORCH, STAR, FOO]);
  }

  lemma PatternTorchStarFoo() ensures Compile("torch.*.foo", '.') == Ok([TORCH, STAR, FOO]) {
    SplitAs("torch.*.foo", '.', ["torch", "*", "foo"]);
    ComponentsTorchStarFoo();
  }

  lemma ComponentsTorchAnyFoo() ensures CompileComponents(["torch", "**", "foo"]) == Ok([TORCH, AnySegments, FOO]) {
    ComponentTorch();
    ComponentFoo();
    ComponentsAre(["torch", "**", "foo"], [TORCH, AnySegments, FOO]);
  }

  lemma PatternTorchAnyFoo() ensures Compile("torch.**.foo", '.') == Ok([TORCH, AnySegments, FOO]) {
    SplitAs("torch.**.foo", '.', ["torch", "**", "foo"]);
    ComponentsTorchAnyFoo();
  }

  lemma ComponentsTorchPrefix() ensures CompileComponents(["torch*"]) == Ok([TORCH_STAR]) {
    ComponentTorchStar();
    ComponentsAre(["torch*"], [TORCH_STAR]);
  }

  lemma PatternTorchPrefix() ensures Compile("torch*", '.') == Ok([TORCH_STAR]) {
    SplitAs("torch*", '.', ["torch*"]);
    ComponentsTorchPrefix();
  }

  lemma ComponentsAnyTorch() ensures CompileComponents(["**", "torch"]) == Ok([AnySegments, TORCH]) {
    ComponentTorch();
    ComponentsAre(["**", "torch"], [AnySegments, TORCH]);
  }

  lemma PatternAnyTorch() ensures Compile("**.torch", '.') == Ok([AnySegments, TORCH]) {
    SplitAs("**.torch", '.', ["**", "torch"]);
    ComponentsAnyTorch();
  }

  // ----- segment facts -----

  lemma StarMatchesAny(s: string) ensures PiecesMatch(STAR.pieces, s) {
    OneStarSegment("", "", s);
  }

  lemma TorchPrefixMatches(s: string)
    ensures PiecesMatch(TORCH_STAR.pieces, s) <==> StartsWith(s, "torch")
  {
    OneStarSegment("torch", "", s);
  }

  /** `torch.*` on segment lists. */
  lemma SegmentsTorchStar()
    ensures MatchSegments([TORCH, STAR], ["torch", "foo"]) && MatchSegments([TORCH, STAR], ["torch", "bar"])
    ensures !MatchSegments([TORCH, STAR], ["tor", "foo"]) && !MatchSegments([TORCH, STAR], ["torch", "foo", "bar"])
    ensures !MatchSegments([TORCH, STAR], ["torch"])
  {
    var p := [TORCH, STAR];
    StarMatchesAny("foo");
    StarMatchesAny("bar");
    SegmentwiseMatch(p, ["torch", "foo"]);
    SegmentwiseMatch(p, ["torch", "bar"]);
    SegmentwiseMatch(p, ["tor", "foo"]);
    SegmentwiseMatch(p, ["torch", "foo", "bar"]);
    SegmentwiseMatch(p, ["torch"]);
  }

  /** `torch.**` on segment lists. */
  lemma SegmentsTorchAny()
    ensures MatchSegments([TORCH, AnySegments], ["torch", "foo"])
    ensures MatchSegments([TORCH, AnySegments], ["torch", "bar"])
    ensures MatchSegments([TORCH, AnySegments], ["torch", "barfoo"])
    ensures MatchSegments([TORCH, AnySegments], ["torch", "foo", "bar"])
    ensures MatchSegments([TORCH, AnySegments], ["torch"])
    ensures !MatchSegments([TORCH, AnySegments], ["what", "torch"])
    ensures !MatchSegments([TORCH, AnySegments], ["torchvision"])
  {
    var head := [TORCH];
    assert MatchSegments(head, ["torch"]);
    assert head + [AnySegments] == [TORCH, AnySegments];
    DoubleStarSuffix(head, ["torch"], ["foo"]);
    DoubleStarSuffix(head, ["torch"], ["bar"]);
    DoubleStarSuffix(head, ["torch"], ["barfoo"]);
    DoubleStarSuffix(head, ["torch"], ["foo", "bar"]);
    DoubleStarSuffix(head, ["torch"], []);
    assert ["torch"] + ["foo"] == ["torch", "foo"];
    assert ["torch"] + ["bar"] == ["torch", "bar"];
    assert ["torch"] + ["barfoo"] == ["torch", "barfoo"];
    assert ["torch"] + ["foo", "bar"] == ["torch", "foo", "bar"];
    assert ["torch"] + [] == ["torch"];
    if MatchSegments([TORCH, AnySegments], ["what", "torch"]) {
      AnchoredAtStart([TORCH, AnySegments], ["what", "torch"], "torch");
    }
    if MatchSegments([TORCH, AnySegments], ["torchvision"]) {
      AnchoredAtStart([TORCH, AnySegments], ["torchvision"], "torch");
    }
  }

  /** `torch.*.foo` on segment lists. */
  lemma SegmentsTorchStarFoo()
    ensures MatchSegments([TORCH, STAR, FOO], ["torch", "w", "foo"])
    ensures !MatchSegments([TORCH, STAR, FOO], ["torch", "hi", "bar", "baz"])
  {
    var p := [TORCH, STAR, FOO];
    StarMatchesAny("w");
    SegmentwiseMatch(p, ["torch", "w", "foo"]);
    SegmentwiseMatch(p, ["torch", "hi", "bar", "baz"]);
  }

  /** `torch.**.foo` on segment lists. */
  lemma SegmentsTorchAnyFoo()
    ensures MatchSegments([TORCH, AnySegments, FOO], ["torch", "foo"])
    ensures MatchSegments([TORCH, AnySegments, FOO], ["torch", "w", "foo"])
    ensures MatchSegments([TORCH, AnySegments, FOO], ["torch", "some", "foo"])
    ensures MatchSegments([TORCH, AnySegments, FOO], ["torch", "hi", "bar", "foo"])
    ensures !MatchSegments([TORCH, AnySegments, FOO], ["torch", "f", "foo", "z"])
    ensures !MatchSegments([TORCH, AnySegments, FOO], ["torch"])
    ensures !MatchSegments([TORCH, AnySegments, FOO], ["torch", "bar"])
    ensures !MatchSegments([TORCH, AnySegments, FOO], ["torch", "barfoo"])
  {
    var p := [TORCH, AnySegments, FOO];
    assert MatchSegments([FOO], ["foo"]);
    DoubleStarPrefix([FOO], [], ["foo"]);
    DoubleStarPrefix([FOO], ["w"], ["foo"]);
    DoubleStarPrefix([FOO], ["some"], ["foo"]);
    DoubleStarPrefix([FOO], ["hi", "bar"], ["foo"]);
    assert [] + ["foo"] == ["foo"];
    assert PiecesMatch(TORCH.pieces, "torch");
    ConsSegment(TORCH.pieces, "torch", [AnySegments, FOO], ["foo"]);
    ConsSegment(TORCH.pieces, "torch", [AnySegments, FOO], ["w", "foo"]);
    ConsSegment(TORCH.pieces, "torch", [AnySegments, FOO], ["some", "foo"]);
    ConsSegment(TORCH.pieces, "torch", [AnySegments, FOO], ["hi", "bar", "foo"]);
    assert [TORCH] + [AnySegments, FOO] == p;
    if MatchSegments(p, ["torch", "f", "foo", "z"]) { AnchoredAtEnd(p, ["torch", "f", "foo", "z"], "foo"); }
    if MatchSegments(p, ["torch"]) { AnchoredAtEnd(p, ["torch"], "foo"); }
    if MatchSegments(p, ["torch", "bar"]) { AnchoredAtEnd(p, ["torch", "bar"], "foo"); }
    if MatchSegments(p, ["torch", "barfoo"]) { AnchoredAtEnd(p, ["torch", "barfoo"], "foo"); }
  }

  /** `torch*` on segment lists. */
  lemma SegmentsTorchPrefix()
    ensures MatchSegments([TORCH_STAR], ["torch"]) && MatchSegments([TORCH_STAR], ["torchvision"])
    ensures !MatchSegments([TORCH_STAR], ["torch", "f"])
  {
    TorchPrefixMatches("torch");
    TorchPrefixMatches("torchvision");
    SegmentwiseMatch([TORCH_STAR], ["torch"]);
    SegmentwiseMatch([TORCH_STAR], ["torchvision"]);
    SegmentwiseMatch([TORCH_STAR], ["torch", "f"]);
  }

  /** `**.torch` on segment lists. */
  lemma SegmentsAnyTorch()
    ensures MatchSegments([AnySegments, TORCH], ["torch"]) && MatchSegments([AnySegments, TORCH], ["bar", "torch"])
    ensures !MatchSegments([AnySegments, TORCH], ["visiontorch"])
  {
    var p := [AnySegments, TORCH];
    assert MatchSegments([TORCH], ["torch"]);
    DoubleStarPrefix([TORCH], [], ["torch"]);
    DoubleStarPrefix([TORCH], ["bar"], ["torch"]);
    assert [] + ["torch"] == ["torch"];
    assert ["bar"] + ["torch"] == ["bar", "torch"];
    assert [AnySegments] + [TORCH] == p;
    if MatchSegments(p, ["visiontorch"]) { AnchoredAtEnd(p, ["visiontorch"], "torch"); }
  }

  // ----- the test's cases, on the strings it passes -----

  /** Three separator-free parts joined by the separator split back into those parts. */
  lemma SplitThree(a: string, b: string, c: string, sep: char)
    requires sep !in a && sep !in b && sep !in c
    ensures Split(a + [sep] + b + [sep] + c, sep) == [a, b, c]
  {
    SplitWhole(c, sep);
    SplitCons(b, c, sep);
    assert a + [sep] + b + [sep] + c == a + [sep] + (b + [sep] + c);
    SplitCons(a, b + [sep] + c, sep);
  }

  /** Four separator-free parts joined by the separator split back into those parts. */
  lemma SplitFour(a: string, b: string, c: string, d: string, sep: char)
    requires sep !in a && sep !in b && sep !in c && sep !in d
    ensures Split(a + [sep] + b + [sep] + c + [sep] + d, sep) == [a, b, c, d]
  {
    var t := b + [sep] + c + [sep] + d;
    SplitThree(b, c, d, sep);
    assert a + [sep] + b + [sep] + c + [sep] + d == a + [sep] + t;
    SplitCons(a, t, sep);
    assert [a] + [b, c, d] == [a, b, c, d];
  }

  lemma SplitTorch() ensures Split("torch", '.') == ["torch"] {
    SplitWhole("torch", '.');
  }

  lemma SplitTorchvision() ensures Split("torchvision", '.') == ["torchvision"] {
    SplitWhole("torchvision", '.');
  }

  lemma SplitVisiontorch() ensures Split("visiontorch", '.') == ["visiontorch"] {
    SplitWhole("visiontorch", '.');
  }

  lemma SplitTorchFoo() ensures Split("torch.foo", '.') == ["torch", "foo"] {
    SplitWhole("foo", '.');
    assert "torch.foo" == "torch" + "." + "foo";
    SplitCons("torch", "foo", '.');
  }

  lemma SplitTorchBar() ensures Split("torch.bar", '.') == ["torch", "bar"] {
    SplitWhole("bar", '.');
    assert "torch.bar" == "torch" + "." + "bar";
    SplitCons("torch", "bar", '.');
  }

  lemma SplitTorchBarfoo() ensures Split("torch.barfoo", '.') == ["torch", "barfoo"] {
    SplitWhole("barfoo", '.');
    assert "torch.barfoo" == "torch" + "." + "barfoo";
    SplitCons("torch", "barfoo", '.');
  }

  lemma SplitTorFoo() ensures Split("tor.foo", '.') == ["tor", "foo"] {
    SplitWhole("foo", '.');
    assert "tor.foo" == "tor" + "." + "foo";
    SplitCons("tor", "foo", '.');
  }

  lemma SplitTorchF() ensures Split("torch.f", '.') == ["torch", "f"] {
    SplitWhole("f", '.');
    assert "torch.f" == "torch" + "." + "f";
    SplitCons("torch", "f", '.');
  }

  lemma SplitWhatTorch() ensures Split("what.torch", '.') == ["what", "torch"] {
    SplitWhole("torch", '.');
    assert "what.torch" == "what" + "." + "torch";
    SplitCons("what", "torch", '.');
  }

  lemma SplitBarTorch() ensures Split("bar.torch", '.') == ["bar", "torch"] {
    SplitWhole("torch", '.');
    assert "bar.torch" == "bar" + "." + "torch";
    SplitCons("bar", "torch", '.');
  }

  lemma SplitTorchFooBar() ensures Split("torch.foo.bar", '.') == ["torch", "foo", "bar"] {
    assert "torch.foo.bar" == "torch" + "." + "foo" + "." + "bar";
    SplitThree("torch", "foo", "bar", '.');
  }

  lemma SplitTorchWFoo() ensures Split("torch.w.foo", '.') == ["torch", "w", "foo"] {
    assert "torch.w.foo" == "torch" + "." + "w" + "." + "foo";
    SplitThree("torch", "w", "foo", '.');
  }

  lemma SplitTorchSomeFoo() ensures Split("torch.some.foo", '.') == ["torch", "some", "foo"] {
    assert "torch.some.foo" == "torch" + "." + "some" + "." + "foo";
    SplitThree("torch", "some", "foo", '.');
  }

  lemma SplitTorchHiBarBaz() ensures Split("torch.hi.bar.baz", '.') == ["torch", "hi", "bar", "baz"] {
    assert "torch.hi.bar.baz" == "torch" + "." + "hi" + "." + "bar" + "." + "baz";
    SplitFour("torch", "hi", "bar", "baz", '.');
  }

  lemma SplitTorchHiBarFoo() ensures Split("torch.hi.bar.foo", '.') == ["torch", "hi", "bar", "foo"] {
    assert "torch.hi.bar.foo" == "torch" + "." + "hi" + "." + "bar" + "." + "foo";
    SplitFour("torch", "hi", "bar", "foo", '.');
  }

  lemma SplitTorchFFooZ() ensures Split("torch.f.foo.z", '.') == ["torch", "f", "foo", "z"] {
    assert "torch.f.foo.z" == "torch" + "." + "f" + "." + "foo" + "." + "z";
    SplitFour("torch", "f", "foo", "z", '.');
  }

  /** The segments of every candidate name the test uses. */
  lemma CandidateSegments()
    ensures Split("torch", '.') == ["torch"]
    ensures Split("torchvision", '.') == ["torchvision"]
    ensures Split("visiontorch", '.') == ["visiontorch"]
    ensures Split("torch.foo", '.') == ["torch", "foo"]
    ensures Split("torch.bar", '.') == ["torch", "bar"]
    ensures Split("torch.barfoo", '.') == ["torch", "barfoo"]
    ensures Split("tor.foo", '.') == ["tor", "foo"]
    ensures Split("torch.f", '.') == ["torch", "f"]
    ensures Split("what.torch", '.') == ["what", "torch"]
    ensures Split("bar.torch", '.') == ["bar", "torch"]
    ensures Split("torch.foo.bar", '.') == ["torch", "foo", "bar"]
    ensures Split("torch.w.foo", '.') == ["torch", "w", "foo"]
    ensures Split("torch.some.foo", '.') == ["torch", "some", "foo"]
    ensures Split("torch.hi.bar.baz", '.') == ["torch", "hi", "bar", "baz"]
    ensures Split("torch.hi.bar.foo", '.') == ["torch", "hi", "bar", "foo"]
    ensures Split("torch.f.foo.z", '.') == ["torch", "f", "foo", "z"]
  {
    SplitTorch();
    SplitTorchvision();
    SplitVisiontorch();
    SplitTorchFoo();
    SplitTorchBar();
    SplitTorchBarfoo();
    SplitTorFoo();
    SplitTorchF();
    SplitWhatTorch();
    SplitBarTorch();
    SplitTorchFooBar();
    SplitTorchWFoo();
    SplitTorchSomeFoo();
    SplitTorchHiBarBaz();
    SplitTorchHiBarFoo();
    SplitTorchFFooZ();
  }

  /** `torch.*`: one segment after `torch`, no more and no fewer. */
  lemma ModuleGlobOneSegment()
    ensures var g := NewGlobGroup(Single("torch.*"), Many([]), '.');
      g.Ok? &&
      Matches(g.value, "torch.foo") && Matches(g.value, "torch.bar") &&
      !Matches(g.value, "tor.foo") && !Matches(g.value, "torch.foo.bar") && !Matches(g.value, "torch")
  {
    PatternTorchStar();
    GroupOfOne("torch.*", [TORCH, STAR]);
    CandidateSegments();
    SegmentsTorchStar();
    var p := [TORCH, STAR];
    OneInclude(p, "torch.foo", ["torch", "foo"]);
    OneInclude(p, "torch.bar", ["torch", "bar"]);
    OneInclude(p, "tor.foo", ["tor", "foo"]);
    OneInclude(p, "torch.foo.bar", ["torch", "foo", "bar"]);
    OneInclude(p, "torch", ["torch"]);
  }

  /** `torch.**`: `torch` and everything below it, anchored at the start. */
  lemma ModuleGlobAnySegments()
    ensures var g := NewGlobGroup(Single("torch.**"), Many([]), '.');
      g.Ok? &&
      Matches(g.value, "torch.foo") && Matches(g.value, "torch.bar") &&
      Matches(g.value, "torch.foo.bar") && Matches(g.value, "torch") &&
      !Matches(g.value, "what.torch") && !Matches(g.value, "torchvision")
  {
    PatternTorchAny();
    GroupOfOne("torch.**", [TORCH, AnySegments]);
    CandidateSegments();
    SegmentsTorchAny();
    var p := [TORCH, AnySegments];
    OneInclude(p, "torch.foo", ["torch", "foo"]);
    OneInclude(p, "torch.bar", ["torch", "bar"]);
    OneInclude(p, "torch.foo.bar", ["torch", "foo", "bar"]);
    OneInclude(p, "torch", ["torch"]);
    OneInclude(p, "what.torch", ["what", "torch"]);
    OneInclude(p, "torchvision", ["torchvision"]);
  }

  /** `torch.*.foo`: exactly one segment between `torch` and `foo`. */
  lemma ModuleGlobMiddleSegment()
    ensures var g := NewGlobGroup(Single("torch.*.foo"), Many([]), '.');
      g.Ok? && Matches(g.value, "torch.w.foo") && !Matches(g.value, "torch.hi.bar.baz")
  {
    PatternTorchStarFoo();
    GroupOfOne("torch.*.foo", [TORCH, STAR, FOO]);
    CandidateSegments();
    SegmentsTorchStarFoo();
    var p := [TORCH, STAR, FOO];
    OneInclude(p, "torch.w.foo", ["torch", "w", "foo"]);
    OneInclude(p, "torch.hi.bar.baz", ["torch", "hi", "bar", "baz"]);
  }

  /** `torch.**.foo`: any number of segments between, anchored at the end. */
  lemma ModuleGlobMiddleSegments()
    ensures var g := NewGlobGroup(Single("torch.**.foo"), Many([]), '.');
      g.Ok? && Matches(g.value, "torch.w.foo") && Matches(g.value, "torch.hi.bar.foo") &&
      !Matches(g.value, "torch.f.foo.z")
  {
    PatternTorchAnyFoo();
    GroupOfOne("torch.**.foo", [TORCH, AnySegments, FOO]);
    CandidateSegments();
    SegmentsTorchAnyFoo();
    var p := [TORCH, AnySegments, FOO];
    OneInclude(p, "torch.w.foo", ["torch", "w", "foo"]);
    OneInclude(p, "torch.hi.bar.foo", ["torch", "hi", "bar", "foo"]);
    OneInclude(p, "torch.f.foo.z", ["torch", "f", "foo", "z"]);
  }

  /** `torch*`: a `*` inside a segment does not cross a dot. */
  lemma ModuleGlobInSegmentStar()
    ensures var g := NewGlobGroup(Single("torch*"), Many([]), '.');
      g.Ok? && Matches(g.value, "torch") && Matches(g.value, "torchvision") && !Matches(g.value, "torch.f")
  {
    PatternTorchPrefix();
    GroupOfOne("torch*", [TORCH_STAR]);
    CandidateSegments();
    SegmentsTorchPrefix();
    var p := [TORCH_STAR];
    OneInclude(p, "torch", ["torch"]);
    OneInclude(p, "torchvision", ["torchvision"]);
    OneInclude(p, "torch.f", ["torch", "f"]);
  }

  /** Include `torch.**`, exclude `torch.**.foo`: the exclusion wins wherever both match. */
  lemma ModuleGlobExcludeWins()
    ensures var g := NewGlobGroup(Single("torch.**"), Many(["torch.**.foo"]), '.');
      g.Ok? &&
      Matches(g.value, "torch") && Matches(g.value, "torch.bar") && Matches(g.value, "torch.barfoo") &&
      !Matches(g.value, "torch.foo") && !Matches(g.value, "torch.some.foo")
  {
    PatternTorchAny();
    PatternTorchAnyFoo();
    GroupOfTwo("torch.**", [TORCH, AnySegments], "torch.**.foo", [TORCH, AnySegments, FOO]);
    CandidateSegments();
    SegmentsTorchAny();
    SegmentsTorchAnyFoo();
    var p := [TORCH, AnySegments];
    var q := [TORCH, AnySegments, FOO];
    IncludeExclude(p, q, "torch", ["torch"]);
    IncludeExclude(p, q, "torch.bar", ["torch", "bar"]);
    IncludeExclude(p, q, "torch.barfoo", ["torch", "barfoo"]);
    IncludeExclude(p, q, "torch.foo", ["torch", "foo"]);
    IncludeExclude(p, q, "torch.some.foo", ["torch", "some", "foo"]);
  }

  /** `**.torch`: any number of leading segments, `torch` as the whole last one. */
  lemma ModuleGlobLeadingSegments()
    ensures var g := NewGlobGroup(Single("**.torch"), Many([]), '.');
      g.Ok? && Matches(g.value, "torch") && Matches(g.value, "bar.torch") && !Matches(g.value, "visiontorch")
  {
    PatternAnyTorch();
    GroupOfOne("**.torch", [AnySegments, TORCH]);
    CandidateSegments();
    SegmentsAnyTorch();
    var p := [AnySegments, TORCH];
    OneInclude(p, "torch", ["torch"]);
    OneInclude(p, "bar.torch", ["bar", "torch"]);
    OneInclude(p, "visiontorch", ["visiontorch"]);
  }
}
