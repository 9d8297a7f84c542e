/**
 * The module-name glob matcher (`_GlobGroup`).
 *
 * A pattern is split on the separator (`.` for module names, `/` for archive
 * paths). A component `**` stands for zero or more whole, non-empty
 * segments; any other component stands for exactly one segment, in which
 * each `*` stands for any run of characters (possibly empty) of that
 * segment. A component that contains `**` next to other text is refused.
 * A pattern must match the whole candidate. A group matches a candidate when
 * some include pattern matches and no exclude pattern does.
 *
 * The implementation compiles each component to a regular expression
 * (`\.` + literal pieces joined by `[^.]*`, or `(\.[^.]+)*` for `**`) and
 * full-matches it against the separator followed by the candidate. Each of
 * those expressions consumes the separator and whole segments only, so
 * matching the list of compiled components against the list of the
 * candidate's segments, as done here, decides the same question.
 */
module Glob {
  import opened Wrappers
  import opened Strings

  /** One compiled pattern component. */
  datatype Component =
    | Segment(pieces: seq<string>)  // the literal text between the `*`s of one segment
    | AnySegments                   // `**`

  type Pattern = seq<Component>

  /** How the caller gives patterns: one string, or a list of strings. */
  datatype GlobPattern = Single(pattern: string) | Many(patterns: seq<string>)

  datatype GlobGroup = GlobGroup(includes: seq<Pattern>, excludes: seq<Pattern>, separator: char)

  predicate HasDoubleStar(c: string) {
    exists i :: 0 <= i < |c| - 1 && c[i] == '*' && c[i + 1] == '*'
  }

  /** A component that is neither `**` nor free of `**` is refused with a ValueError. */
  function CompileComponent(c: string): (r: Result<Component, Error>)
    ensures r.Err? <==> HasDoubleStar(c) && c != "**"
    ensures r == Ok(AnySegments) <==> c == "**"
    ensures r.Ok? && r.value.Segment? ==> |r.value.pieces| >= 1 && Join(r.value.pieces, '*') == c
  {
    if c == "**" then
      assert HasDoubleStar(c) by { assert c[0] == '*' && c[1] == '*'; }
      Ok(AnySegments)
    else if HasDoubleStar(c) then Err(BadGlob(c))
    else
      JoinSplit(c, '*');
      Ok(Segment(Split(c, '*')))
  }

  function CompileComponents(cs: seq<string>): (r: Result<Pattern, Error>)
    ensures r.Ok? ==> |r.value| == |cs|
    ensures r.Ok? ==> forall i :: 0 <= i < |cs| ==> CompileComponent(cs[i]) == Ok(r.value[i])
    ensures r.Err? <==> exists i :: 0 <= i < |cs| && CompileComponent(cs[i]).Err?
    decreases |cs|
  {
    if cs == [] then Ok([])
    else
      match CompileComponent(cs[0])
      case Err(e) => Err(e)
      case Ok(c) =>
        match CompileComponents(cs[1..])
        case Err(e) =>
          Err(e)
        case Ok(rest) =>
          assert forall i :: 1 <= i < |cs| ==> cs[i] == cs[1..][i - 1];
          Ok([c] + rest)
  }

  /** `_glob_to_re`: one compiled component per segment of the pattern. */
  function Compile(pattern: string, sep: char): (r: Result<Pattern, Error>)
    ensures r.Ok? ==> |r.value| == |Split(pattern, sep)| >= 1
  {
    CompileComponents(Split(pattern, sep))
  }

  function CompileAll(patterns: seq<string>, sep: char): (r: Result<seq<Pattern>, Error>)
    ensures r.Ok? ==> |r.value| == |patterns|
    ensures r.Ok? ==> forall i :: 0 <= i < |patterns| ==> Compile(patterns[i], sep) == Ok(r.value[i])
    ensures r.Err? <==> exists i :: 0 <= i < |patterns| && Compile(patterns[i], sep).Err?
    decreases |patterns|
  {
    if patterns == [] then Ok([])
    else
      match Compile(patterns[0], sep)
      case Err(e) => Err(e)
      case Ok(p) =>
        match CompileAll(patterns[1..], sep)
        case Err(e) => Err(e)
        case Ok(rest) =>
          assert forall i :: 1 <= i < |patterns| ==> patterns[i] == patterns[1..][i - 1];
          Ok([p] + rest)
  }

  /** `_glob_list`: a bare string is a one-element list. */
  function GlobList(g: GlobPattern): seq<string> {
    match g
    case Single(p) => [p]
    case Many(ps) => ps
  }

  /** `_GlobGroup(include, exclude)`; fails when a pattern holds a misplaced `**`. */
  function NewGlobGroup(includes: GlobPattern, excludes: GlobPattern, sep: char): (r: Result<GlobGroup, Error>)
    ensures r.Ok? ==> r.value.separator == sep
    ensures r.Ok? ==> |r.value.includes| == |GlobList(includes)| && |r.value.excludes| == |GlobList(excludes)|
    ensures r.Ok? <==> CompileAll(GlobList(includes), sep).Ok? && CompileAll(GlobList(excludes), sep).Ok?
  {
    match CompileAll(GlobList(includes), sep)
    case Err(e) => Err(e)
    case Ok(inc) =>
      match CompileAll(GlobList(excludes), sep)
      case Err(e) => Err(e)
      case Ok(exc) => Ok(GlobGroup(inc, exc, sep))
  }

  // ----- matching -----

  /** The literal pieces of one segment pattern, with `*` between them, match all of `s`. */
  predicate PiecesMatch(pieces: seq<string>, s: string)
    requires |pieces| >= 1
    decreases |pieces|, |s|, 0
  {
    if |pieces| == 1 then s == pieces[0]
    else StartsWith(s, pieces[0]) && StarThen(pieces[1..], s[|pieces[0]|..])
  }

  /** A `*` followed by `pieces` matches all of `s`. */
  predicate StarThen(pieces: seq<string>, s: string)
    requires |pieces| >= 1
    decreases |pieces|, |s|, 1
  {
    PiecesMatch(pieces, s) || (s != [] && StarThen(pieces, s[1..]))
  }

  /** The compiled components match the whole list of segments. */
  predicate MatchSegments(p: Pattern, segs: seq<string>)
    decreases |p|, |segs|
  {
    if p == [] then segs == []
    else
      match p[0]
      case AnySegments =>
        MatchSegments(p[1..], segs) || (segs != [] && segs[0] != "" && MatchSegments(p, segs[1..]))
      case Segment(pieces) =>
        segs != [] && |pieces| >= 1 && PiecesMatch(pieces, segs[0]) && MatchSegments(p[1..], segs[1..])
  }

  /** Some pattern of the list matches the segments. */
  predicate AnyMatches(ps: seq<Pattern>, segs: seq<string>)
    decreases |ps|
  {
    ps != [] && (MatchSegments(ps[0], segs) || AnyMatches(ps[1..], segs))
  }

  /** `_GlobGroup.matches`. */
  predicate Matches(g: GlobGroup, candidate: string) {
    var segs := Split(candidate, g.separator);
    AnyMatches(g.includes, segs) && !AnyMatches(g.excludes, segs)
  }

  // ----- what matching means -----

  lemma {:induction false} AnyMatchesIff(ps: seq<Pattern>, segs: seq<string>)
    ensures AnyMatches(ps, segs) <==> exists i :: 0 <= i < |ps| && MatchSegments(ps[i], segs)
    decreases |ps|
  {
    if ps != [] {
      AnyMatchesIff(ps[1..], segs);
      if AnyMatches(ps[1..], segs) {
        var i :| 0 <= i < |ps[1..]| && MatchSegments(ps[1..][i], segs);
        assert MatchSegments(ps[i + 1], segs);
      }
      if exists i :: 0 <= i < |ps| && MatchSegments(ps[i], segs) {
        var i :| 0 <= i < |ps| && MatchSegments(ps[i], segs);
        if i > 0 {
          assert ps[1..][i - 1] == ps[i];
        }
      }
    }
  }

  /**
   * A group matches exactly when some include pattern matches and no exclude
   * pattern does: an exclude match vetoes every include match.
   */
  lemma GroupMatchesIff(g: GlobGroup, candidate: string)
    ensures Matches(g, candidate) <==>
      (exists i :: 0 <= i < |g.includes| && MatchSegments(g.includes[i], Split(candidate, g.separator))) &&
      (forall j :: 0 <= j < |g.excludes| ==> !MatchSegments(g.excludes[j], Split(candidate, g.separator)))
  {
    AnyMatchesIff(g.includes, Split(candidate, g.separator));
    AnyMatchesIff(g.excludes, Split(candidate, g.separator));
  }

  /** Exclude overrides include. */
  lemma ExcludeVetoes(g: GlobGroup, candidate: string, j: nat)
    requires j < |g.excludes|
    requires MatchSegments(g.excludes[j], Split(candidate, g.separator))
    ensures !Matches(g, candidate)
  {
    GroupMatchesIff(g, candidate);
  }

  // ----- the shape of what a pattern accepts -----

  predicate NoAnySegments(p: Pattern) {
    forall i :: 0 <= i < |p| ==> p[i].Segment?
  }

  /**
   * Without `**`, every component consumes exactly one segment, so an
   * in-segment `*` never crosses a separator: a match has as many segments
   * as the pattern has components.
   */
  lemma {:induction false} StarStaysInSegment(p: Pattern, segs: seq<string>)
    requires NoAnySegments(p)
    requires MatchSegments(p, segs)
    ensures |segs| == |p|
    decreases |p|
  {
    if p != [] {
      assert p[0].Segment?;
      StarStaysInSegment(p[1..], segs[1..]);
    }
  }

  /**
   * Without `**`, matching is segment by segment: the i-th component matches
   * the i-th segment, and the counts agree.
   */
  lemma {:induction false} SegmentwiseMatch(p: Pattern, segs: seq<string>)
    requires NoAnySegments(p)
    ensures MatchSegments(p, segs) <==>
      |segs| == |p| && forall i :: 0 <= i < |p| ==> |p[i].pieces| >= 1 && PiecesMatch(p[i].pieces, segs[i])
    decreases |p|
  {
    if p != [] && segs != [] {
      SegmentwiseMatch(p[1..], segs[1..]);
      assert forall i :: 1 <= i < |p| ==> p[i] == p[1..][i - 1];
      assert forall i :: 1 <= i < |segs| ==> segs[i] == segs[1..][i - 1];
    }
  }

  /** A segment component in front of a pattern consumes one matching segment in front of the candidate. */
  lemma ConsSegment(pieces: seq<string>, s: string, p: Pattern, segs: seq<string>)
    requires |pieces| >= 1 && PiecesMatch(pieces, s)
    requires MatchSegments(p, segs)
    ensures MatchSegments([Segment(pieces)] + p, [s] + segs)
  {
    assert ([Segment(pieces)] + p)[1..] == p;
    assert ([s] + segs)[1..] == segs;
  }

  /** `**` alone matches exactly the lists of non-empty segments (including the empty list). */
  lemma {:induction false} AnySegmentsMatches(p: Pattern, segs: seq<string>)
    requires p == [AnySegments]
    ensures MatchSegments(p, segs) <==> forall i :: 0 <= i < |segs| ==> segs[i] != ""
    decreases |segs|
  {
    assert p[1..] == [];
    if segs != [] {
      AnySegmentsMatches(p, segs[1..]);
      assert forall i :: 1 <= i < |segs| ==> segs[i] == segs[1..][i - 1];
    }
  }

  /** Appending `**` to a pattern lets it also accept any number of further non-empty segments. */
  lemma {:induction false} DoubleStarSuffix(p: Pattern, segs: seq<string>, more: seq<string>)
    requires MatchSegments(p, segs)
    requires forall i :: 0 <= i < |more| ==> more[i] != ""
    ensures MatchSegments(p + [AnySegments], segs + more)
    decreases |p|, |segs|
  {
    if p == [] {
      assert segs == [];
      assert segs + more == more && p + [AnySegments] == [AnySegments];
      AnySegmentsMatches([AnySegments], more);
    } else {
      assert (p + [AnySegments])[1..] == p[1..] + [AnySegments];
      match p[0]
      case Segment(pieces) =>
        DoubleStarSuffix(p[1..], segs[1..], more);
        assert (segs + more)[1..] == segs[1..] + more;
      case AnySegments =>
        if MatchSegments(p[1..], segs) {
          DoubleStarSuffix(p[1..], segs, more);
        } else {
          DoubleStarSuffix(p, segs[1..], more);
          assert (segs + more)[1..] == segs[1..] + more;
        }
    }
  }

  /** Putting `**` in front of a pattern lets it also accept any number of leading non-empty segments. */
  lemma {:induction false} DoubleStarPrefix(p: Pattern, lead: seq<string>, segs: seq<string>)
    requires MatchSegments(p, segs)
    requires forall i :: 0 <= i < |lead| ==> lead[i] != ""
    ensures MatchSegments([AnySegments] + p, lead + segs)
    decreases |lead|
  {
    assert ([AnySegments] + p)[1..] == p;
    if lead == [] {
      assert lead + segs == segs;
    } else {
      DoubleStarPrefix(p, lead[1..], segs);
      assert (lead + segs)[1..] == lead[1..] + segs;
    }
  }

  /** Matching is anchored at the end: a pattern ending in a literal segment ends the candidate with it. */
  lemma {:induction false} AnchoredAtEnd(p: Pattern, segs: seq<string>, lit: string)
    requires p != [] && p[|p| - 1] == Segment([lit])
    requires MatchSegments(p, segs)
    ensures segs != [] && segs[|segs| - 1] == lit
    decreases |p|, |segs|
  {
    match p[0]
    case Segment(pieces) =>
      if |p| == 1 {
        assert segs[1..] == [];
      } else {
        AnchoredAtEnd(p[1..], segs[1..], lit);
      }
    case AnySegments =>
      if MatchSegments(p[1..], segs) {
        AnchoredAtEnd(p[1..], segs, lit);
      } else {
        AnchoredAtEnd(p, segs[1..], lit);
      }
  }

  /** Matching is anchored at the start: a pattern starting with a literal segment starts the candidate with it. */
  lemma AnchoredAtStart(p: Pattern, segs: seq<string>, lit: string)
    requires p != [] && p[0] == Segment([lit])
    requires MatchSegments(p, segs)
    ensures segs != [] && segs[0] == lit
  {
  }

  /** A `*` followed by one literal piece matches exactly the strings ending with that piece. */
  lemma {:induction false} StarThenSuffix(b: string, s: string)
    ensures StarThen([b], s) <==> |b| <= |s| && s[|s| - |b|..] == b
    decreases |s|
  {
    if s != [] {
      StarThenSuffix(b, s[1..]);
      if |b| <= |s| - 1 {
        assert s[1..][|s[1..]| - |b|..] == s[|s| - |b|..];
      }
    }
  }

  /**
   * A segment pattern with one `*` matches the segments that start with the
   * text before it and end with the text after it, the two not overlapping.
   */
  lemma OneStarSegment(a: string, b: string, s: string)
    ensures PiecesMatch([a, b], s) <==>
      StartsWith(s, a) && |a| + |b| <= |s| && s[|s| - |b|..] == b
  {
    assert [a, b][1..] == [b];
    assert PiecesMatch([a, b], s) == (StartsWith(s, a) && StarThen([b], s[|a|..]));
    if StartsWith(s, a) {
      var t := s[|a|..];
      StarThenSuffix(b, t);
      if |b| <= |t| {
        assert t[|t| - |b|..] == s[|s| - |b|..];
      }
    }
  }

  // ----- a pattern without wildcards -----

  predicate NoStar(s: string) {
    forall i :: 0 <= i < |s| ==> s[i] != '*'
  }

  /** The components of a pattern none of whose segments holds a `*`. */
  lemma {:induction false} CompileLiteral(cs: seq<string>)
    requires forall i :: 0 <= i < |cs| ==> NoStar(cs[i])
    ensures CompileComponents(cs).Ok?
    ensures forall i :: 0 <= i < |cs| ==> CompileComponents(cs).value[i] == Segment([cs[i]])
    decreases |cs|
  {
    forall i | 0 <= i < |cs|
      ensures CompileComponent(cs[i]) == Ok(Segment([cs[i]]))
    {
      assert !HasDoubleStar(cs[i]);
      assert '*' !in cs[i];
      JoinSplit(cs[i], '*');
      assert Split(cs[i], '*') == [cs[i]];
    }
  }

  /** Literal components match exactly the segment list they spell. */
  lemma {:induction false} LiteralSegments(p: Pattern, cs: seq<string>, segs: seq<string>)
    requires |p| == |cs|
    requires forall i :: 0 <= i < |p| ==> p[i] == Segment([cs[i]])
    ensures MatchSegments(p, segs) <==> segs == cs
    decreases |p|
  {
    if p != [] {
      LiteralSegments(p[1..], cs[1..], if segs == [] then [] else segs[1..]);
      if segs != [] && segs[0] == cs[0] && segs[1..] == cs[1..] {
        assert segs == [segs[0]] + segs[1..];
        assert cs == [cs[0]] + cs[1..];
      }
    }
  }

  /** A pattern with no `*` at all matches only the candidate equal to it: matching is anchored at both ends. */
  lemma LiteralPatternMatchesOnlyItself(pattern: string, sep: char, candidate: string)
    requires sep != '*' && NoStar(pattern)
    ensures Compile(pattern, sep).Ok?
    ensures MatchSegments(Compile(pattern, sep).value, Split(candidate, sep)) <==> candidate == pattern
  {
    var cs := Split(pattern, sep);
    forall i | 0 <= i < |cs|
      ensures NoStar(cs[i])
    {
      NoStarParts(pattern, sep, i);
    }
    CompileLiteral(cs);
    LiteralSegments(Compile(pattern, sep).value, cs, Split(candidate, sep));
    if Split(candidate, sep) == cs {
      SplitInjective(candidate, pattern, sep);
    }
  }

  /** The parts of a string without `*` have no `*` either. */
  lemma {:induction false} NoStarParts(s: string, sep: char, i: nat)
    requires NoStar(s)
    requires i < |Split(s, sep)|
    ensures NoStar(Split(s, sep)[i])
    decreases |s|
  {
    if s != [] {
      var rest := Split(s[1..], sep);
      if s[0] == sep {
        if i > 0 { NoStarParts(s[1..], sep, i - 1); }
      } else if i == 0 {
        NoStarParts(s[1..], sep, 0);
      } else {
        NoStarParts(s[1..], sep, i);
      }
    }
  }
}
