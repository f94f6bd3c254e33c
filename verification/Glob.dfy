/**
 The path matcher of the gateway's policy engine (internal/gateway/policy/glob.go):
 a pattern is trimmed and split into segments, and a recursive matcher walks the
 segments of the pattern and of the path.  `Covers` is the reference meaning: the
 path can be cut into consecutive pieces, one for each pattern segment.
 */
module Glob {
  import opened Sequences

  datatype PathMatcher = PathMatcher(matchAll: bool, segments: seq<string>)

  // ----- strings.TrimSpace, strings.Trim(_, "/") and strings.Split(_, "/") -----

  /** White space by code point. */
  predicate IsSpace(c: char) {
    var n := c as int;
    9 <= n <= 13 || n == 32 || n == 133 || n == 160 || n == 5760 || 8192 <= n <= 8202
    || n == 8232 || n == 8233 || n == 8239 || n == 8287 || n == 12288
  }

  lemma SpacesAreBlanks()
    ensures forall c :: IsSpace(c) <==>
              c in "\t\n\r \U{B}\U{C}\U{85}\U{A0}\U{1680}\U{2028}\U{2029}\U{202F}\U{205F}\U{3000}"
              || '\U{2000}' <= c <= '\U{200A}'
  {
  }

  predicate IsSlash(c: char) {
    c == '/'
  }

  function TrimLeft(s: string, cut: char -> bool): string {
    if s != "" && cut(s[0]) then TrimLeft(s[1..], cut) else s
  }

  function TrimRight(s: string, cut: char -> bool): string {
    if s != "" && cut(s[|s| - 1]) then TrimRight(s[..|s| - 1], cut) else s
  }

  function Trim(s: string, cut: char -> bool): string {
    TrimRight(TrimLeft(s, cut), cut)
  }

  function Split(s: string): (parts: seq<string>)
    ensures |parts| >= 1
  {
    if s == "" then [""]
    else
      var rest := Split(s[1..]);
      if s[0] == '/' then [""] + rest else [[s[0]] + rest[0]] + rest[1..]
  }

  // ----- the matcher -----

  function CompilePathMatcher(pattern: string): PathMatcher {
    MatcherOf(Trim(pattern, IsSpace))
  }

  /** The matcher of a pattern that white space has been trimmed from. */
  function MatcherOf(t: string): PathMatcher {
    if t == "*" || t == "/*" then PathMatcher(true, [])
    else
      var core := Trim(t, IsSlash);
      PathMatcher(false, if core == "" then [""] else Split(core))
  }

  /** The path "/" is not cut to nothing: it splits into two empty segments. */
  function PathParts(path: string): seq<string> {
    var p := Trim(path, IsSlash);
    Split(if p == "" then "/" else p)
  }

  predicate Match(pm: PathMatcher, path: string) {
    pm.matchAll || MatchFrom(pm.segments, PathParts(path), 0, 0)
  }

  predicate MatchFrom(segs: seq<string>, parts: seq<string>, pi: nat, pj: nat)
    decreases |segs| - pi
  {
    if pi == |segs| && pj == |parts| then true
    else if pi >= |segs| then false
    else if segs[pi] == "**" then
      var next: nat := pi + 1;
      next == |segs| || exists k | pj <= k <= |parts| :: MatchFrom(segs, parts, next, k)
    else if segs[pi] == "*" then
      pj < |parts| && MatchFrom(segs, parts, pi + 1, pj + 1)
    else
      pj < |parts| && segs[pi] == parts[pj] && MatchFrom(segs, parts, pi + 1, pj + 1)
  }

  // ----- reference meaning -----

  /** What one pattern segment takes: `**` any run, `*` one segment, a literal itself. */
  predicate Fits(seg: string, piece: seq<string>) {
    seg == "**" || (|piece| == 1 && (seg == "*" || piece[0] == seg))
  }

  ghost predicate Cut(segs: seq<string>, parts: seq<string>, pieces: seq<seq<string>>) {
    && |pieces| == |segs|
    && Flatten(pieces) == parts
    && forall i | 0 <= i < |segs| :: Fits(segs[i], pieces[i])
  }

  ghost predicate Covers(segs: seq<string>, parts: seq<string>) {
    exists pieces :: Cut(segs, parts, pieces)
  }

  lemma CoversEmpty(parts: seq<string>)
    ensures Covers([], parts) <==> parts == []
  {
    if parts == [] {
      assert Cut([], parts, []);
    }
  }

  /** One step of the reference meaning: the first segment takes a prefix that fits it. */
  lemma CoversCons(segs: seq<string>, parts: seq<string>)
    requires segs != []
    ensures Covers(segs, parts) <==>
            exists k | 0 <= k <= |parts| :: Fits(segs[0], parts[..k]) && Covers(segs[1..], parts[k..])
  {
    if Covers(segs, parts) {
      var pieces :| Cut(segs, parts, pieces);
      var k := |pieces[0]|;
      assert parts[..k] == pieces[0] && parts[k..] == Flatten(pieces[1..]);
      assert Cut(segs[1..], parts[k..], pieces[1..]);
    }
    if k :| 0 <= k <= |parts| && Fits(segs[0], parts[..k]) && Covers(segs[1..], parts[k..]) {
      var rest :| Cut(segs[1..], parts[k..], rest);
      var pieces := [parts[..k]] + rest;
      assert pieces[1..] == rest;
      assert parts == parts[..k] + parts[k..];
      forall i | 0 <= i < |segs| ensures Fits(segs[i], pieces[i]) {
        if i > 0 {
          assert segs[i] == segs[1..][i - 1] && pieces[i] == rest[i - 1];
        }
      }
      assert Cut(segs, parts, pieces);
    }
  }

  /** The recursive matcher decides exactly the reference meaning; in particular its
      shortcut for a trailing `**` is sound and complete. */
  lemma {:induction false} MatcherIsExact(segs: seq<string>, parts: seq<string>, pi: nat, pj: nat)
    requires pi <= |segs| && pj <= |parts|
    ensures MatchFrom(segs, parts, pi, pj) <==> Covers(segs[pi..], parts[pj..])
    decreases |segs| - pi
  {
    var s, p := segs[pi..], parts[pj..];
    if pi == |segs| {
      assert s == [] && (p == [] <==> pj == |parts|);
      CoversEmpty(p);
    } else {
      CoversCons(s, p);
      assert s[1..] == segs[pi + 1..] && s[0] == segs[pi];
      if s[0] == "**" {
        if pi == |segs| - 1 {
          assert p[|p|..] == [];
          CoversEmpty([]);
          assert Covers(s[1..], p[|p|..]) && Fits(s[0], p[..|p|]);
        } else {
          forall k | pj <= k <= |parts|
            ensures p[k - pj..] == parts[k..]
            ensures MatchFrom(segs, parts, pi + 1, k) <==> Covers(s[1..], p[k - pj..])
          {
            MatcherIsExact(segs, parts, pi + 1, k);
          }
          var next: nat := pi + 1;
          if k :| 0 <= k <= |p| && Fits(s[0], p[..k]) && Covers(s[1..], p[k..]) {
            assert p[k + pj - pj..] == p[k..];
            assert MatchFrom(segs, parts, next, k + pj);
          }
          if k :| pj <= k <= |parts| && MatchFrom(segs, parts, next, k) {
            assert Fits(s[0], p[..k - pj]) && Covers(s[1..], p[k - pj..]);
          }
        }
      } else if pj < |parts| {
        MatcherIsExact(segs, parts, pi + 1, pj + 1);
        assert p[1..] == parts[pj + 1..] && p[..1] == [parts[pj]];
      }
    }
  }

  /** A pattern accepts a path iff it is a match-all pattern or its segments cover the
      segments of the path. */
  lemma MatchMeaning(pm: PathMatcher, path: string)
    ensures Match(pm, path) <==> pm.matchAll || Covers(pm.segments, PathParts(path))
  {
    var parts := PathParts(path);
    MatcherIsExact(pm.segments, parts, 0, 0);
    assert pm.segments[0..] == pm.segments && parts[0..] == parts;
  }

  // ----- concatenation of patterns, and adjacent `**` -----

  lemma FirstPiece(segs: seq<string>, parts: seq<string>) returns (k: nat)
    requires segs != [] && Covers(segs, parts)
    ensures k <= |parts| && Fits(segs[0], parts[..k]) && Covers(segs[1..], parts[k..])
  {
    CoversCons(segs, parts);
    k :| 0 <= k <= |parts| && Fits(segs[0], parts[..k]) && Covers(segs[1..], parts[k..]);
  }

  lemma PutFirst(segs: seq<string>, parts: seq<string>, k: nat)
    requires segs != [] && k <= |parts| && Fits(segs[0], parts[..k]) && Covers(segs[1..], parts[k..])
    ensures Covers(segs, parts)
  {
    CoversCons(segs, parts);
  }

  lemma {:induction false} CoversJoin(a: seq<string>, b: seq<string>, front: seq<string>, back: seq<string>)
    requires Covers(a, front) && Covers(b, back)
    ensures Covers(a + b, front + back)
    decreases |a|
  {
    if a == [] {
      CoversEmpty(front);
      assert a + b == b && front + back == back;
    } else {
      var j := FirstPiece(a, front);
      CoversJoin(a[1..], b, front[j..], back);
      var ab, parts := a + b, front + back;
      assert ab[0] == a[0] && ab[1..] == a[1..] + b;
      assert parts[..j] == front[..j] && parts[j..] == front[j..] + back;
      PutFirst(ab, parts, j);
    }
  }

  lemma {:induction false} CoversSplit(a: seq<string>, b: seq<string>, parts: seq<string>) returns (k: nat)
    requires Covers(a + b, parts)
    ensures k <= |parts| && Covers(a, parts[..k]) && Covers(b, parts[k..])
    decreases |a|
  {
    if a == [] {
      k := 0;
      assert a + b == b && parts[0..] == parts && parts[..0] == [];
      CoversEmpty(parts[..0]);
    } else {
      var ab := a + b;
      assert ab[0] == a[0] && ab[1..] == a[1..] + b;
      var j := FirstPiece(ab, parts);
      var m := CoversSplit(a[1..], b, parts[j..]);
      k := j + m;
      assert parts[j..][m..] == parts[k..];
      var front := parts[..k];
      assert front[..j] == parts[..j] && front[j..] == parts[j..][..m];
      PutFirst(a, front, j);
    }
  }

  lemma CoversStars(parts: seq<string>)
    ensures Covers(["**"], parts) && Covers(["**", "**"], parts)
  {
    CoversEmpty([]);
    CoversCons(["**"], parts);
    assert parts[|parts|..] == [] && ["**"][1..] == [];
    CoversCons(["**", "**"], parts);
    assert parts[0..] == parts && ["**", "**"][1..] == ["**"];
  }

  lemma SwapStars(a: seq<string>, m: seq<string>, n: seq<string>, b: seq<string>, parts: seq<string>)
    requires Covers(a + m + b, parts) && forall p :: Covers(n, p)
    ensures Covers(a + n + b, parts)
  {
    var k := CoversSplit(a + m, b, parts);
    var j := CoversSplit(a, m, parts[..k]);
    CoversJoin(a, n, parts[..k][..j], parts[..k][j..]);
    assert parts[..k][..j] + parts[..k][j..] == parts[..k];
    CoversJoin(a + n, b, parts[..k], parts[k..]);
    assert parts[..k] + parts[k..] == parts;
  }

  /** Adjacent `**` segments collapse into one, anywhere in a pattern. */
  lemma AdjacentStarsCollapse(a: seq<string>, b: seq<string>, parts: seq<string>)
    ensures MatchFrom(a + ["**", "**"] + b, parts, 0, 0) == MatchFrom(a + ["**"] + b, parts, 0, 0)
  {
    var two, one := a + ["**", "**"] + b, a + ["**"] + b;
    MatcherIsExact(two, parts, 0, 0);
    MatcherIsExact(one, parts, 0, 0);
    assert two[0..] == two && one[0..] == one && parts[0..] == parts;
    forall p ensures Covers(["**"], p) && Covers(["**", "**"], p) {
      CoversStars(p);
    }
    if Covers(two, parts) {
      SwapStars(a, ["**", "**"], ["**"], b, parts);
    }
    if Covers(one, parts) {
      SwapStars(a, ["**"], ["**", "**"], b, parts);
    }
  }

  // ----- slashes at the ends -----

  lemma {:induction false} TrimLeftAppend(s: string, cut: char -> bool, c: char)
    requires cut(c)
    ensures TrimLeft(s + [c], cut) == if TrimLeft(s, cut) == "" then "" else TrimLeft(s, cut) + [c]
    decreases |s|
  {
    if s == "" {
      assert s + [c] == [c] && [c][1..] == "";
    } else if cut(s[0]) {
      assert (s + [c])[1..] == s[1..] + [c];
      TrimLeftAppend(s[1..], cut, c);
    }
  }

  lemma TrimIgnoresEnds(s: string)
    ensures Trim("/" + s, IsSlash) == Trim(s, IsSlash)
    ensures Trim(s + "/", IsSlash) == Trim(s, IsSlash)
  {
    assert ("/" + s)[1..] == s;
    TrimLeftAppend(s, IsSlash, '/');
    var t := TrimLeft(s, IsSlash);
    if t != "" {
      assert (t + "/")[..|t + "/"| - 1] == t;
    }
  }

  /** A leading or trailing slash on the path never changes the result. */
  lemma SlashesOnPathIgnored(pm: PathMatcher, path: string)
    ensures Match(pm, "/" + path) == Match(pm, path)
    ensures Match(pm, path + "/") == Match(pm, path)
  {
    TrimIgnoresEnds(path);
  }

  ghost predicate BareEnds(s: string, cut: char -> bool) {
    s != "" ==> !cut(s[0]) && !cut(s[|s| - 1])
  }

  lemma {:induction false} TrimRightEnds(s: string, cut: char -> bool)
    ensures var t := TrimRight(s, cut); t != "" ==> t[0] == s[0] && !cut(t[|t| - 1])
    decreases |s|
  {
    if s != "" && cut(s[|s| - 1]) {
      TrimRightEnds(s[..|s| - 1], cut);
    }
  }

  lemma {:induction false} TrimLeftEnds(s: string, cut: char -> bool)
    ensures var t := TrimLeft(s, cut); t != "" ==> !cut(t[0])
    decreases |s|
  {
    if s != "" && cut(s[0]) {
      TrimLeftEnds(s[1..], cut);
    }
  }

  lemma TrimEnds(s: string, cut: char -> bool)
    ensures BareEnds(Trim(s, cut), cut)
  {
    TrimLeftEnds(s, cut);
    TrimRightEnds(TrimLeft(s, cut), cut);
  }

  lemma TrimBare(s: string, cut: char -> bool)
    requires BareEnds(s, cut)
    ensures Trim(s, cut) == s
  {
  }

  lemma SplitSingle(s: string)
    requires '/' !in s
    ensures Split(s) == [s]
  {
    if s != "" {
      SplitSingle(s[1..]);
      assert [s[0]] + s[1..] == s;
    }
  }

  /** The segments of "a/b" tell the match-all pattern from the one-segment pattern `*`. */
  lemma OneStarIsNotAll()
    ensures !Match(PathMatcher(false, ["*"]), "a/b")
  {
    var p := "a/b";
    assert Trim(p, IsSlash) == p;
    assert p[1..] == "/b" && "/b"[1..] == "b";
    SplitSingle("b");
    assert Split("/b") == [""] + ["b"];
    assert Split(p) == [['a'] + ""] + ["", "b"][1..];
    assert ['a'] + "" == "a" && ["", "b"][1..] == ["b"];
    assert !MatchFrom(["*"], ["a", "b"], 1, 1);
  }

  lemma StarCores()
    ensures Trim("*", IsSlash) == "*" && Trim("/*", IsSlash) == "*"
    ensures Trim("//*", IsSlash) == "*" && Trim("*/", IsSlash) == "*" && Trim("/*/", IsSlash) == "*"
    ensures Split("*") == ["*"]
  {
    assert TrimLeft("*", IsSlash) == "*" && TrimRight("*", IsSlash) == "*";
    TrimIgnoresEnds("*");
    TrimIgnoresEnds("/*");
    assert "/" + "*" == "/*" && "/" + "/*" == "//*" && "*" + "/" == "*/" && "/*" + "/" == "/*/";
    SplitSingle("*");
  }

  // ----- the root path -----

  lemma PathPartsNotBlank(path: string)
    ensures PathParts(path) != [""]
  {
    var p := Trim(path, IsSlash);
    if p == "" {
      assert "/"[1..] == "";
      assert Split("/") == ["", ""];
    } else if |Split(p[1..])| == 1 {
      TrimEnds(path, IsSlash);
      assert |Split(p)[0]| > 0;
    }
  }

  lemma CoversBlank(parts: seq<string>)
    ensures Covers([""], parts) <==> parts == [""]
  {
    CoversCons([""], parts);
    assert [""][1..] == [];
    forall k | 0 <= k <= |parts| ensures Covers([], parts[k..]) <==> k == |parts| {
      CoversEmpty(parts[k..]);
    }
    assert parts[..|parts|] == parts;
  }

  /** Taken as a path, the core of a pattern is accepted by the pattern: every segment fits
      itself. */
  lemma {:induction false} CoversItself(segs: seq<string>)
    ensures Covers(segs, segs)
    decreases |segs|
  {
    if segs == [] {
      CoversEmpty([]);
    } else {
      CoversCons(segs, segs);
      CoversItself(segs[1..]);
      assert Fits(segs[0], segs[..1]);
    }
  }

  lemma CorePathParts(core: string)
    requires core != "" && BareEnds(core, IsSlash)
    ensures PathParts(core) == Split(core)
  {
    TrimBare(core, IsSlash);
  }

  lemma NothingAccepted(t: string, path: string)
    requires Trim(t, IsSlash) == ""
    ensures !Match(MatcherOf(t), path)
  {
    StarCores();
    PathPartsNotBlank(path);
    MatchMeaning(MatcherOf(t), path);
    CoversBlank(PathParts(path));
  }

  /** A pattern accepts some path at all iff it is not blank and not made of slashes only;
      the root path has two empty segments, so not even it is accepted by "/". */
  lemma AcceptsSomethingIff(pattern: string)
    ensures (exists p :: Match(CompilePathMatcher(pattern), p)) <==> Trim(Trim(pattern, IsSpace), IsSlash) != ""
    ensures PathParts("/") == ["", ""]
  {
    assert "/"[1..] == "" && Split("/") == ["", ""];
    StarCores();
    var pm := CompilePathMatcher(pattern);
    var core := Trim(Trim(pattern, IsSpace), IsSlash);
    if core == "" {
      forall p ensures !Match(pm, p) {
        NothingAccepted(Trim(pattern, IsSpace), p);
      }
    } else {
      CoreIsAccepted(Trim(pattern, IsSpace));
      assert Match(pm, core);
    }
  }

  lemma CoreIsAccepted(t: string)
    requires Trim(t, IsSlash) != ""
    ensures Match(MatcherOf(t), Trim(t, IsSlash))
  {
    var core := Trim(t, IsSlash);
    TrimEnds(t, IsSlash);
    CorePathParts(core);
    CoversItself(Split(core));
    MatchMeaning(MatcherOf(t), core);
  }

  // ----- patterns and paths as texts -----

  function JoinSlash(parts: seq<string>): string
    requires parts != []
  {
    if |parts| == 1 then parts[0] else parts[0] + "/" + JoinSlash(parts[1..])
  }

  predicate Slashless(parts: seq<string>) {
    forall p | p in parts :: '/' !in p
  }

  lemma {:induction false} SplitJoins(s: string)
    ensures JoinSlash(Split(s)) == s && Slashless(Split(s))
  {
    if s != "" {
      var rest := Split(s[1..]);
      SplitJoins(s[1..]);
      assert s == [s[0]] + s[1..];
      if s[0] == '/' {
        assert Split(s)[1..] == rest;
      } else {
        assert Split(s)[1..] == rest[1..];
        assert Split(s)[0] == [s[0]] + rest[0];
      }
    }
  }

  lemma {:induction false} SplitOfJoin(parts: seq<string>)
    requires parts != [] && Slashless(parts)
    ensures Split(JoinSlash(parts)) == parts
    decreases |parts|, |parts[0]|
  {
    var s := JoinSlash(parts);
    if parts[0] == "" {
      if |parts| > 1 {
        SplitOfJoin(parts[1..]);
        assert s[0] == '/' && s[1..] == JoinSlash(parts[1..]);
        assert parts == [""] + parts[1..];
      }
    } else {
      var front := parts[0][1..];
      var shorter := [front] + parts[1..];
      assert '/' !in parts[0];
      assert s[0] == parts[0][0] && s[0] in parts[0];
      SplitOfJoin(shorter);
      assert shorter[1..] == parts[1..];
      assert s[1..] == JoinSlash(shorter);
      assert parts[0] == [s[0]] + front && parts == [parts[0]] + parts[1..];
    }
  }

  /** Splitting at slashes: the parts hold no slash and, joined by slashes, are the text. */
  lemma SplitExactly(s: string, parts: seq<string>)
    requires parts != []
    ensures Split(s) == parts <==> Slashless(parts) && JoinSlash(parts) == s
  {
    SplitJoins(s);
    if Slashless(parts) && JoinSlash(parts) == s {
      SplitOfJoin(parts);
    }
  }

  ghost predicate AllCut(s: string, cut: char -> bool) {
    forall i | 0 <= i < |s| :: cut(s[i])
  }

  lemma {:induction false} LeftPart(s: string, cut: char -> bool) returns (w: string)
    ensures s == w + TrimLeft(s, cut) && AllCut(w, cut)
    decreases |s|
  {
    w := "";
    if s != "" && cut(s[0]) {
      var v := LeftPart(s[1..], cut);
      w := [s[0]] + v;
      assert s == [s[0]] + s[1..];
    }
  }

  lemma {:induction false} RightPart(s: string, cut: char -> bool) returns (w: string)
    ensures s == TrimRight(s, cut) + w && AllCut(w, cut)
    decreases |s|
  {
    w := "";
    if s != "" && cut(s[|s| - 1]) {
      var v := RightPart(s[..|s| - 1], cut);
      w := v + [s[|s| - 1]];
      assert s == s[..|s| - 1] + [s[|s| - 1]];
    }
  }

  /** What a text is without the characters to cut off at its ends. */
  ghost predicate Trimmed(s: string, cut: char -> bool, t: string) {
    BareEnds(t, cut) && exists a: string, b: string :: s == a + t + b && AllCut(a, cut) && AllCut(b, cut)
  }

  lemma TrimIsTrimmed(s: string, cut: char -> bool)
    ensures Trimmed(s, cut, Trim(s, cut))
  {
    var a := LeftPart(s, cut);
    var b := RightPart(TrimLeft(s, cut), cut);
    TrimEnds(s, cut);
    assert s == a + Trim(s, cut) + b;
  }

  /** The segments of a text, read off the text. */
  ghost predicate SegmentsOf(text: string, segs: seq<string>) {
    segs != [] && Slashless(segs) && JoinSlash(segs) == text
  }

  /** The segments of one text cover those of another. */
  ghost predicate TextCovers(core: string, text: string) {
    exists segs, parts :: SegmentsOf(core, segs) && SegmentsOf(text, parts) && Covers(segs, parts)
  }

  lemma SplitCovers(core: string, text: string)
    ensures TextCovers(core, text) <==> Covers(Split(core), Split(text))
  {
    SplitJoins(core);
    SplitJoins(text);
    assert SegmentsOf(core, Split(core)) && SegmentsOf(text, Split(text));
    forall segs, parts | SegmentsOf(core, segs) && SegmentsOf(text, parts)
      ensures segs == Split(core) && parts == Split(text)
    {
      SplitExactly(core, segs);
      SplitExactly(text, parts);
    }
  }

  /** The meaning of a pattern on a path, from the two texts: without white space at its ends the
      pattern is a lone star, with or without a slash before it, or, both without slashes at their
      ends (a path of slashes only counts as "/"), its segments cover those of the path. */
  lemma TextMeaning(pattern: string, path: string, t: string, core: string, p: string)
    requires Trimmed(pattern, IsSpace, t)
    requires Trimmed(t, c => c == '/', core) && Trimmed(path, c => c == '/', p)
    ensures Match(CompilePathMatcher(pattern), path) <==>
            t == "*" || t == "/*" || TextCovers(core, if p == "" then "/" else p)
  {
    SameTrimmed(t, c => c == '/', IsSlash, core);
    SameTrimmed(path, c => c == '/', IsSlash, p);
    TrimmedIsTrim(pattern, IsSpace, t);
    TrimmedIsTrim(t, IsSlash, core);
    TrimmedIsTrim(path, IsSlash, p);
    MatchMeaning(CompilePathMatcher(pattern), path);
    SplitCovers(core, if p == "" then "/" else p);
  }

  lemma SameTrimmed(s: string, cut: char -> bool, cut': char -> bool, t: string)
    requires Trimmed(s, cut, t) && forall c :: cut(c) == cut'(c)
    ensures Trimmed(s, cut', t)
  {
    var a: string, b: string :| s == a + t + b && AllCut(a, cut) && AllCut(b, cut);
    assert AllCut(a, cut') && AllCut(b, cut');
  }

  lemma TrimmedIsTrim(s: string, cut: char -> bool, t: string)
    requires Trimmed(s, cut, t)
    ensures t == Trim(s, cut)
  {
    TrimIsTrimmed(s, cut);
    var a: string, b: string :| s == a + t + b && AllCut(a, cut) && AllCut(b, cut);
    var t' := Trim(s, cut);
    var a': string, b': string :| s == a' + t' + b' && AllCut(a', cut) && AllCut(b', cut);
    SameEnds(a, t, b, a', t', b', cut);
  }

  lemma NothingInside(s: string, a: string, t: string, b: string, cut: char -> bool)
    requires s == a + t + b && AllCut(s, cut) && BareEnds(t, cut)
    ensures t == ""
  {
    forall i | 0 <= i < |t| ensures cut(t[i]) {
      assert s[|a| + i] == t[i];
    }
  }

  lemma SameEnds(a: string, t: string, b: string, a': string, t': string, b': string, cut: char -> bool)
    requires a + t + b == a' + t' + b' && BareEnds(t, cut) && BareEnds(t', cut)
    requires AllCut(a, cut) && AllCut(b, cut) && AllCut(a', cut) && AllCut(b', cut)
    ensures t == t'
  {
    var s := a + t + b;
    if t == "" {
      NothingInside(s, a', t', b', cut);
    } else if t' == "" {
      NothingInside(s, a, t, b, cut);
    } else {
      assert s[|a|] == t[0] && s[|a'|] == t'[0];
      assert |a| == |a'|;
      assert s[|a| + |t| - 1] == t[|t| - 1] && s[|a'| + |t'| - 1] == t'[|t'| - 1];
      assert |b| == |b'|;
      assert t == s[|a|..|s| - |b|] == t';
    }
  }
}
