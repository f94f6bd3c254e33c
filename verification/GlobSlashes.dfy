/**
 Slashes and white space at the ends of a path pattern (internal/gateway/policy/glob.go):
 when does a slash put before or behind a pattern keep the paths it accepts?
 */
module GlobSlashes {
  import opened Glob

  // ----- the literals of a pattern -----

  predicate IsLiteral(seg: string) {
    seg != "*" && seg != "**"
  }

  function Literals(segs: seq<string>): nat {
    if segs == [] then 0 else (if IsLiteral(segs[0]) then 1 else 0) + Literals(segs[1..])
  }

  lemma {:induction false} LiteralsAppend(a: seq<string>, b: seq<string>)
    ensures Literals(a + b) == Literals(a) + Literals(b)
    decreases |a|
  {
    if a == [] {
      assert a + b == b;
    } else {
      assert (a + b)[1..] == a[1..] + b;
      LiteralsAppend(a[1..], b);
    }
  }

  /** Every literal of a pattern takes a segment of its own that is no star. */
  lemma {:induction false} LiteralsAreTaken(segs: seq<string>, parts: seq<string>)
    requires Covers(segs, parts)
    ensures Literals(segs) <= Literals(parts)
    decreases |segs|
  {
    if segs != [] {
      CoversCons(segs, parts);
      var k :| 0 <= k <= |parts| && Fits(segs[0], parts[..k]) && Covers(segs[1..], parts[k..]);
      LiteralsAreTaken(segs[1..], parts[k..]);
      LiteralsAppend(parts[..k], parts[k..]);
      assert parts[..k] + parts[k..] == parts;
      if IsLiteral(segs[0]) {
        assert parts[..k] == [segs[0]];
      }
    }
  }

  lemma FirstLiteral(segs: seq<string>, parts: seq<string>)
    requires segs != [] && IsLiteral(segs[0]) && Covers(segs, parts)
    ensures parts != [] && parts[0] == segs[0]
  {
    CoversCons(segs, parts);
  }

  lemma LastLiteral(segs: seq<string>, parts: seq<string>)
    requires segs != [] && IsLiteral(segs[|segs| - 1]) && Covers(segs, parts)
    ensures parts != [] && parts[|parts| - 1] == segs[|segs| - 1]
  {
    var n := |segs| - 1;
    assert segs == segs[..n] + [segs[n]];
    var k := CoversSplit(segs[..n], [segs[n]], parts);
    CoversCons([segs[n]], parts[k..]);
    var j :| 0 <= j <= |parts[k..]| && Fits(segs[n], parts[k..][..j]) && Covers([segs[n]][1..], parts[k..][j..]);
    CoversEmpty(parts[k..][j..]);
    assert |parts[k..]| == 1;
  }

  lemma {:induction false} SplitAppend(a: string, b: string, s: string)
    requires s == a + "/" + b
    ensures Split(s) == Split(a) + Split(b)
    decreases |a|
  {
    if a == "" {
      assert s[1..] == b && s[0] == '/';
    } else {
      assert s[0] == a[0] && s[1..] == a[1..] + "/" + b;
      SplitAppend(a[1..], b, s[1..]);
    }
  }

  /** A text without slashes put before or behind a pattern goes to its first or last segment. */
  lemma {:induction false} SplitWithPrefix(w: string, s: string)
    requires '/' !in w
    ensures |Split(w + s)| == |Split(s)| && Split(w + s)[0] == w + Split(s)[0]
    ensures Split(w + s)[1..] == Split(s)[1..]
    decreases |w|
  {
    if w == "" {
      assert w + s == s && w + Split(s)[0] == Split(s)[0];
    } else {
      assert (w + s)[1..] == w[1..] + s && (w + s)[0] == w[0];
      SplitWithPrefix(w[1..], s);
      assert [w[0]] + (w[1..] + Split(s)[0]) == w + Split(s)[0];
    }
  }

  /** The segments of a text with one more character in front. */
  function Cons(c: char, parts: seq<string>): seq<string>
    requires parts != []
  {
    if c == '/' then [""] + parts else [[c] + parts[0]] + parts[1..]
  }

  lemma LongerLastStays(c: char, parts: seq<string>, more: seq<string>, w: string)
    requires |more| == |parts| >= 1 && more[|parts| - 1] == parts[|parts| - 1] + w
    ensures var a, b := Cons(c, parts), Cons(c, more);
            |b| == |a| && b[|a| - 1] == a[|a| - 1] + w
  {
    if |parts| == 1 && c != '/' {
      assert [c] + (parts[0] + w) == [c] + parts[0] + w;
    }
  }

  lemma {:induction false} SplitWithSuffix(s: string, w: string)
    requires '/' !in w
    ensures |Split(s + w)| == |Split(s)|
    ensures Split(s + w)[|Split(s)| - 1] == Split(s)[|Split(s)| - 1] + w
    decreases |s|
  {
    if s == "" {
      assert s + w == w && "" + w == w;
      SplitSingle(w);
    } else {
      assert (s + w)[1..] == s[1..] + w && (s + w)[0] == s[0];
      SplitWithSuffix(s[1..], w);
      LongerLastStays(s[0], Split(s[1..]), Split(s[1..] + w), w);
      assert Split(s) == Cons(s[0], Split(s[1..])) && Split(s + w) == Cons(s[0], Split(s[1..] + w));
    }
  }

  lemma SplitEnds(s: string)
    requires s != ""
    ensures s[0] != '/' ==> Split(s)[0] != "" && Split(s)[0][0] == s[0]
    ensures var n := |Split(s)| - 1;
            s[|s| - 1] != '/' ==> Split(s)[n] != "" && Split(s)[n][|Split(s)[n]| - 1] == s[|s| - 1]
  {
    if s[|s| - 1] != '/' {
      assert s == s[..|s| - 1] + [s[|s| - 1]];
      SplitWithSuffix(s[..|s| - 1], [s[|s| - 1]]);
    }
  }

  lemma {:induction false} TrimLeftOf(a: string, b: string, cut: char -> bool)
    ensures TrimLeft(a + b, cut) == if TrimLeft(a, cut) == "" then TrimLeft(b, cut) else TrimLeft(a, cut) + b
    decreases |a|
  {
    if a == "" {
      assert a + b == b;
    } else if cut(a[0]) {
      assert (a + b)[1..] == a[1..] + b;
      TrimLeftOf(a[1..], b, cut);
    }
  }

  lemma {:induction false} TrimRightOf(a: string, b: string, cut: char -> bool)
    ensures TrimRight(a + b, cut) == if TrimRight(b, cut) == "" then TrimRight(a, cut) else a + TrimRight(b, cut)
    decreases |b|
  {
    if b == "" {
      assert a + b == a;
    } else if cut(b[|b| - 1]) {
      assert (a + b)[..|a + b| - 1] == a + b[..|b| - 1];
      TrimRightOf(a, b[..|b| - 1], cut);
    }
  }

  lemma {:induction false} HasLiteral(segs: seq<string>, i: nat)
    requires i < |segs| && IsLiteral(segs[i])
    ensures Literals(segs) >= 1
    decreases i
  {
    if i > 0 {
      HasLiteral(segs[1..], i - 1);
    }
  }

  /** More literals than segments to take them. */
  lemma MoreLiterals(extra: seq<string>, segs: seq<string>)
    requires Literals(extra) >= 1
    ensures !Covers(extra + segs, segs) && !Covers(segs + extra, segs)
  {
    LiteralsAppend(extra, segs);
    LiteralsAppend(segs, extra);
    if Covers(extra + segs, segs) {
      LiteralsAreTaken(extra + segs, segs);
    }
    if Covers(segs + extra, segs) {
      LiteralsAreTaken(segs + extra, segs);
    }
  }

  lemma OtherFirst(segs: seq<string>, parts: seq<string>)
    requires segs != [] && parts != [] && IsLiteral(segs[0]) && segs[0] != parts[0]
    ensures !Covers(segs, parts)
  {
    if Covers(segs, parts) {
      FirstLiteral(segs, parts);
    }
  }

  lemma OtherLast(segs: seq<string>, parts: seq<string>)
    requires segs != [] && parts != [] && IsLiteral(segs[|segs| - 1]) && segs[|segs| - 1] != parts[|parts| - 1]
    ensures !Covers(segs, parts)
  {
    if Covers(segs, parts) {
      LastLiteral(segs, parts);
    }
  }

  lemma BlankIsLiteral(s: string)
    requires s != "" && (IsSpace(s[0]) || IsSpace(s[|s| - 1]))
    ensures IsLiteral(s)
  {
    assert !IsSpace('*');
  }

  lemma BlankFirst(x: string)
    requires x != "" && IsSpace(x[0])
    ensures IsLiteral(Split(x)[0])
  {
    SplitEnds(x);
    BlankIsLiteral(Split(x)[0]);
  }

  lemma BlankLast(x: string)
    requires x != "" && IsSpace(x[|x| - 1])
    ensures IsLiteral(Split(x)[|Split(x)| - 1])
  {
    SplitEnds(x);
    BlankIsLiteral(Split(x)[|Split(x)| - 1]);
  }

  /** What is put before or behind the core of a pattern, if it begins or ends in a blank,
      makes the pattern refuse its own core: it adds a literal, or lengthens the first or last
      segment. */
  lemma PrefixRefuses(x: string, c: string)
    requires x != "" && IsSpace(x[0]) && ('/' in x ==> x[|x| - 1] == '/')
    ensures !Covers(Split(x + c), Split(c))
  {
    if '/' in x {
      var y := x[..|x| - 1];
      assert x + c == y + "/" + c;
      SplitAppend(y, c, x + c);
      assert y[0] == x[0];
      BlankFirst(y);
      HasLiteral(Split(y), 0);
      MoreLiterals(Split(y), Split(c));
    } else {
      SplitWithPrefix(x, c);
      BlankIsLiteral(x + Split(c)[0]);
      OtherFirst(Split(x + c), Split(c));
    }
  }

  lemma AddedLast(all: seq<string>, segs: seq<string>, extra: seq<string>)
    requires all == segs + extra && extra != [] && IsLiteral(extra[|extra| - 1])
    ensures !Covers(all, segs)
  {
    HasLiteral(extra, |extra| - 1);
    MoreLiterals(extra, segs);
  }

  lemma SuffixSegments(c: string, y: string, s: string)
    requires s == c + "/" + y && y != "" && IsSpace(y[|y| - 1])
    ensures !Covers(Split(s), Split(c))
  {
    SplitAppend(c, y, s);
    BlankLast(y);
    AddedLast(Split(s), Split(c), Split(y));
  }

  lemma LongerLast(c: string, x: string, s: string)
    requires s == c + x && '/' !in x && x != "" && IsSpace(x[|x| - 1])
    ensures !Covers(Split(s), Split(c))
  {
    SplitWithSuffix(c, x);
    LongerLastRefused(Split(s), Split(c), x);
  }

  lemma LongerLastRefused(more: seq<string>, segs: seq<string>, x: string)
    requires |more| == |segs| >= 1 && more[|segs| - 1] == segs[|segs| - 1] + x
    requires x != "" && IsSpace(x[|x| - 1])
    ensures !Covers(more, segs)
  {
    var last := segs[|segs| - 1];
    BlankIsLiteral(last + x);
    assert |last + x| > |last|;
    OtherLast(more, segs);
  }

  lemma SuffixRefuses(c: string, x: string)
    requires x != "" && IsSpace(x[|x| - 1]) && ('/' in x ==> x[0] == '/')
    ensures !Covers(Split(c + x), Split(c))
  {
    if '/' in x {
      assert !IsSpace('/');
      var y := x[1..];
      assert x == ['/'] + y;
      assert c + x == c + "/" + y;
      SuffixSegments(c, y, c + x);
    } else {
      LongerLast(c, x, c + x);
    }
  }

  // ----- which slashes change what a pattern accepts -----

  ghost predicate SameMeaning(a: PathMatcher, b: PathMatcher) {
    forall p :: Match(a, p) == Match(b, p)
  }

  lemma Refuses(segs: seq<string>, core: string)
    requires core != "" && BareEnds(core, IsSlash) && !Covers(segs, Split(core))
    ensures !Match(PathMatcher(false, segs), core)
  {
    CorePathParts(core);
    MatchMeaning(PathMatcher(false, segs), core);
  }

  /** A path of one plain character is refused by a segment with a blank at its end. */
  lemma BlankRefuses(segs: seq<string>, i: nat, path: string)
    requires i < |segs| && (i == 0 || i == |segs| - 1)
    requires segs[i] != "" && (IsSpace(segs[i][0]) || IsSpace(segs[i][|segs[i]| - 1]))
    requires |path| == 1 && path[0] != '/' && !IsSpace(path[0])
    ensures !Match(PathMatcher(false, segs), path)
  {
    SplitSingle(path);
    BlankIsLiteral(segs[i]);
    if i == 0 {
      OtherFirst(segs, [path]);
    } else {
      OtherLast(segs, [path]);
    }
    Refuses(segs, path);
  }

  /** The first or the last segment has the blank at its end. */
  lemma BlankEdge(core: string) returns (i: nat)
    requires core != "" && BareEnds(core, IsSlash) && (IsSpace(core[0]) || IsSpace(core[|core| - 1]))
    ensures var segs := Split(core);
            && i < |segs| && (i == 0 || i == |segs| - 1)
            && segs[i] != "" && (IsSpace(segs[i][0]) || IsSpace(segs[i][|segs[i]| - 1]))
  {
    SplitEnds(core);
    i := if IsSpace(core[0]) then 0 else |Split(core)| - 1;
  }

  lemma BlankIsNotAll(core: string, path: string)
    requires core != "" && BareEnds(core, IsSlash) && (IsSpace(core[0]) || IsSpace(core[|core| - 1]))
    requires |path| == 1 && path[0] != '/' && !IsSpace(path[0])
    ensures !Match(PathMatcher(false, Split(core)), path)
  {
    var i := BlankEdge(core);
    BlankRefuses(Split(core), i, path);
  }

  lemma AcceptsItself(core: string)
    requires core != "" && BareEnds(core, IsSlash)
    ensures Match(PathMatcher(false, Split(core)), core)
  {
    CorePathParts(core);
    CoversItself(Split(core));
    MatchMeaning(PathMatcher(false, Split(core)), core);
  }

  /** A trimmed pattern `t` against one whose core begins or ends in a blank. */
  lemma BlankCoreDiffers(t: string, core: string)
    requires core != "" && BareEnds(core, IsSlash) && (IsSpace(core[0]) || IsSpace(core[|core| - 1]))
    requires Trim(t, IsSlash) != "" ==> !Covers(Split(core), Split(Trim(t, IsSlash)))
    ensures !SameMeaning(PathMatcher(false, Split(core)), MatcherOf(t))
  {
    if MatcherOf(t).matchAll {
      AllDiffers(MatcherOf(t), core);
    } else if Trim(t, IsSlash) == "" {
      AcceptsItself(core);
      NothingAccepted(t, core);
    } else {
      OtherCoreDiffers(t, core);
    }
  }

  lemma AllDiffers(all: PathMatcher, core: string)
    requires all.matchAll
    requires core != "" && BareEnds(core, IsSlash) && (IsSpace(core[0]) || IsSpace(core[|core| - 1]))
    ensures !SameMeaning(PathMatcher(false, Split(core)), all)
  {
    var path := ['a'];
    BlankIsNotAll(core, path);
    assert Match(all, path);
  }

  lemma OtherCoreDiffers(t: string, core: string)
    requires core != "" && BareEnds(core, IsSlash) && !MatcherOf(t).matchAll
    requires Trim(t, IsSlash) != "" && !Covers(Split(core), Split(Trim(t, IsSlash)))
    ensures !SameMeaning(PathMatcher(false, Split(core)), MatcherOf(t))
  {
    TrimEnds(t, IsSlash);
    CoreIsAccepted(t);
    Refuses(Split(core), Trim(t, IsSlash));
  }

  lemma {:induction false} AllCutGoes(s: string, cut: char -> bool)
    requires AllCut(s, cut)
    ensures TrimLeft(s, cut) == "" && TrimRight(s, cut) == ""
    decreases |s|
  {
    if s != "" {
      AllCutGoes(s[1..], cut);
      AllCutGoes(s[..|s| - 1], cut);
    }
  }

  lemma BlanksHaveNoSlash(w: string)
    requires AllCut(w, IsSpace)
    ensures '/' !in w
  {
    assert !IsSpace('/');
  }

  lemma LeadingSlashes(w: string, sl: string)
    requires w != "" && AllCut(w, IsSpace) && AllCut(sl, IsSlash)
    ensures TrimRight(w + sl, IsSlash) == w
  {
    BlanksHaveNoSlash(w);
    AllCutGoes(sl, IsSlash);
    TrimRightOf(w, sl, IsSlash);
  }

  lemma SlashesLast(w: string, sl: string)
    requires AllCut(w, IsSpace) && AllCut(sl, IsSlash)
    ensures var x := w + sl; '/' in x ==> x[|x| - 1] == '/'
  {
    BlanksHaveNoSlash(w);
    if sl != "" {
      assert IsSlash(sl[|sl| - 1]);
    }
  }

  lemma LeadingRest(x: string, v: string, s: string)
    requires v != "" && !IsSlash(v[0]) && s == x + v
    ensures TrimRight(s, IsSlash) == x + TrimRight(v, IsSlash)
  {
    TrimRightStays(v, IsSlash);
    TrimRightOf(x, v, IsSlash);
  }

  lemma LeadingPart(w: string, sl: string, v: string)
    requires w != "" && AllCut(w, IsSpace) && AllCut(sl, IsSlash) && (v != "" ==> !IsSlash(v[0]))
    ensures var x := if v == "" then w else w + sl;
            && TrimRight(w + (sl + v), IsSlash) == x + TrimRight(v, IsSlash)
            && ('/' in x ==> x[|x| - 1] == '/')
  {
    if v == "" {
      BlanksHaveNoSlash(w);
      LeadingSlashes(w, sl);
      assert sl + v == sl && w + "" == w;
    } else {
      SlashesLast(w, sl);
      assert w + (sl + v) == (w + sl) + v;
      LeadingRest(w + sl, v, w + (sl + v));
    }
  }

  /** The core of a pattern with a slash and white space put before it. */
  lemma LeadingCore(w: string, t: string) returns (x: string)
    requires w != "" && AllCut(w, IsSpace)
    ensures Trim("/" + (w + t), IsSlash) == x + Trim(t, IsSlash)
    ensures x != "" && x[0] == w[0] && ('/' in x ==> x[|x| - 1] == '/')
  {
    TrimIgnoresEnds(w + t);
    var v := TrimLeft(t, IsSlash);
    var sl := LeftPart(t, IsSlash);
    TrimLeftEnds(t, IsSlash);
    LeadingPart(w, sl, v);
    LeftStays(w, t);
    x := if v == "" then w else w + sl;
  }

  lemma LeftStays(w: string, t: string)
    requires w != "" && AllCut(w, IsSpace)
    ensures TrimLeft(w + t, IsSlash) == w + t
  {
    assert IsSpace(w[0]) && !IsSpace('/');
  }

  /** A text whose first character is not cut is not trimmed away. */
  lemma TrimRightStays(v: string, cut: char -> bool)
    requires v != "" && !cut(v[0])
    ensures TrimRight(v, cut) != ""
  {
    assert v == [v[0]] + v[1..];
    TrimRightOf([v[0]], v[1..], cut);
  }

  lemma TrimLeftBlank(t: string, w: string)
    requires w != "" && AllCut(w, IsSpace)
    ensures TrimLeft(t + w, IsSlash) == TrimLeft(t, IsSlash) + w
  {
    BlanksHaveNoSlash(w);
    TrimLeftOf(t, w, IsSlash);
    assert TrimLeft(w, IsSlash) == w && "" + w == w;
  }

  lemma TrailingCore(t: string, w: string) returns (x: string)
    requires w != "" && AllCut(w, IsSpace)
    ensures Trim((t + w) + "/", IsSlash) == Trim(t, IsSlash) + x
    ensures x != "" && x[|x| - 1] == w[|w| - 1] && ('/' in x ==> x[0] == '/')
  {
    TrimIgnoresEnds(t + w);
    TrimLeftBlank(t, w);
    var y := TrimLeft(t, IsSlash);
    var sl := RightPart(y, IsSlash);
    x := sl + w;
    TrailingPart(TrimRight(y, IsSlash), sl, w, y + w);
  }

  lemma TrailingPart(c: string, sl: string, w: string, s: string)
    requires s == (c + sl) + w
    requires AllCut(sl, IsSlash) && w != "" && AllCut(w, IsSpace)
    ensures var x := sl + w;
            && TrimRight(s, IsSlash) == c + x
            && x[|x| - 1] == w[|w| - 1] && ('/' in x ==> x[0] == '/')
  {
    BlanksHaveNoSlash(w);
    var x := sl + w;
    assert s == c + x;
    assert s[|s| - 1] == w[|w| - 1];
  }

  lemma LeadingBlankDiffers(w: string, t: string)
    requires w != "" && AllCut(w, IsSpace)
    ensures !SameMeaning(MatcherOf("/" + (w + t)), MatcherOf(t))
  {
    var x := LeadingCore(w, t);
    var core := x + Trim(t, IsSlash);
    TrimEnds("/" + (w + t), IsSlash);
    PrefixRefuses(x, Trim(t, IsSlash));
    BlankCoreDiffers(t, core);
    assert ("/" + (w + t))[1] == w[0] && !IsSpace('*');
  }

  lemma TrailingBlankDiffers(t: string, w: string)
    requires w != "" && AllCut(w, IsSpace)
    ensures !SameMeaning(MatcherOf((t + w) + "/"), MatcherOf(t))
  {
    var x := TrailingCore(t, w);
    var core := Trim(t, IsSlash) + x;
    TrimEnds((t + w) + "/", IsSlash);
    SuffixRefuses(Trim(t, IsSlash), x);
    BlankCoreDiffers(t, core);
    assert ((t + w) + "/")[|t + w|] == '/' && "/*"[1] != '/' && |(t + w) + "/"| > 1;
  }

  /** Slashes put directly on a trimmed pattern. */
  lemma BareSlash(t: string)
    ensures SameMeaning(MatcherOf("/" + t), MatcherOf(t)) <==> t != "/*"
    ensures SameMeaning(MatcherOf(t + "/"), MatcherOf(t)) <==> t != "*" && t != "/*"
  {
    TrimIgnoresEnds(t);
    StarCores();
    OneStarIsNotAll();
    var star := PathMatcher(false, ["*"]);
    if t == "/*" {
      assert MatcherOf("/" + t) == star == MatcherOf(t + "/");
      assert Match(MatcherOf(t), "a/b");
    } else if t == "*" {
      assert "/" + t == "/*";
      assert MatcherOf(t + "/") == star;
      assert Match(MatcherOf(t), "a/b");
    } else {
      assert "/" + t != "*" && t + "/" != "*";
      assert "/" + t != "/*" by { assert ("/" + t)[1..] == t && "/*"[1..] == "*"; }
      assert t + "/" != "/*" by { assert (t + "/")[|t|] == '/'; if |t| == 1 { assert "/*"[1] == '*'; } }
    }
  }

  /** What trimming white space makes of a pattern with a slash before or behind it. */
  lemma SlashThenTrim(pattern: string) returns (w: string, v: string)
    ensures var t := Trim(pattern, IsSpace);
            && AllCut(w, IsSpace) && AllCut(v, IsSpace)
            && Trim("/" + pattern, IsSpace) == "/" + (w + t) && Trim(pattern + "/", IsSpace) == (t + v) + "/"
            && (w == "" <==> t == "" || !IsSpace(pattern[0]))
            && (v == "" <==> t == "" || !IsSpace(pattern[|pattern| - 1]))
  {
    assert !IsSpace('/');
    var u := TrimLeft(pattern, IsSpace);
    var t := Trim(pattern, IsSpace);
    w := LeftPart(pattern, IsSpace);
    v := RightPart(u, IsSpace);
    TrimLeftEnds(pattern, IsSpace);
    TrimRightEnds(u, IsSpace);
    TrimRightOf("/", pattern, IsSpace);
    TrimRightOf(w, u, IsSpace);
    TrimLeftOf(pattern, "/", IsSpace);
    assert TrimLeft("/" + pattern, IsSpace) == "/" + pattern;
    AllCutGoes(w, IsSpace);
    assert TrimRight("/", IsSpace) == "/";
    TrimRightOf(u, "/", IsSpace);
    if u != "" {
      TrimRightStays(u, IsSpace);
    } else {
      w, v := "", "";
    }
  }

  // Slashes around a pattern are NOT always ignored: the match-all test comes before they are
  // trimmed, and white space next to them becomes part of the pattern.  A slash put before a
  // pattern keeps the accepted paths iff the trimmed pattern is not "/*" and the pattern is
  // blank or does not begin with white space; a slash put behind it iff the trimmed pattern is
  // neither "*" nor "/*" and the pattern is blank or does not end in white space.
  lemma SlashesOnPattern(pattern: string)
    ensures var t := Trim(pattern, IsSpace);
            SameMeaning(CompilePathMatcher("/" + pattern), CompilePathMatcher(pattern)) <==>
            t != "/*" && (t == "" || !IsSpace(pattern[0]))
    ensures var t := Trim(pattern, IsSpace);
            SameMeaning(CompilePathMatcher(pattern + "/"), CompilePathMatcher(pattern)) <==>
            t != "*" && t != "/*" && (t == "" || !IsSpace(pattern[|pattern| - 1]))
  {
    var t := Trim(pattern, IsSpace);
    var w, v := SlashThenTrim(pattern);
    BareSlash(t);
    assert "" + t == t && t + "" == t;
    if w != "" {
      LeadingBlankDiffers(w, t);
    }
    if v != "" {
      TrailingBlankDiffers(t, v);
    }
  }
}
