// Pattern compilation and path matching of ignore/ignore.go.
module IgnoreRules {
  import opened Prelude
  import opened Strings
  import opened Glob

  const AI_IGNORE := ".aiignore"
  const CONFIG_ORIGIN := "config"

  datatype Pattern = Pattern(glob: string, dirOnly: bool, origin: string)

  // Anchoring, directory-only flag and body of a pattern line.
  datatype Analysis = Analysis(anchored: bool, dirOnly: bool, core: string)

  function Analyze(line: string): Analysis {
    var rooted := line != "" && line[0] == '/';
    var c := if rooted then line[1..] else line;
    var dirOnly := c != "" && c[|c| - 1] == '/';
    var core := if dirOnly then c[..|c| - 1] else c;
    Analysis(rooted || '/' in core, dirOnly, core)
  }

  function CompileGlob(relDir: string, a: Analysis): string {
    if a.core == "" then ""
    else if !a.anchored then (if relDir == "" then "**/" + a.core else relDir + "/**/" + a.core)
    else if relDir == "" then a.core
    else relDir + "/" + a.core
  }

  function Compile(relDir: string, line: string, origin: string): Pattern {
    var a := Analyze(line);
    Pattern(CompileGlob(relDir, a), a.dirOnly, origin)
  }

  // The pattern of a line; blank, comment and negation lines have none.
  function ParseLine(raw: string, relDir: string, origin: string): Option<Pattern> {
    var line := TrimSpace(raw);
    if line == "" || line[0] == '#' || line[0] == '!' then None
    else
      var p := Compile(relDir, line, origin);
      if p.glob == "" then None else Some(p)
  }

  function ParseLines(lines: seq<string>, relDir: string, origin: string): (r: seq<Pattern>)
    ensures forall p :: p in r ==> p.origin == origin
  {
    if lines == [] then []
    else
      var init := ParseLines(lines[..|lines| - 1], relDir, origin);
      match ParseLine(lines[|lines| - 1], relDir, origin)
      case None => init
      case Some(p) => init + [p]
  }

  method ParsePatternLines(lines: seq<string>, relDir: string, origin: string) returns (pats: seq<Pattern>)
    ensures pats == ParseLines(lines, relDir, origin)
  {
    pats := [];
    for i := 0 to |lines|
      invariant pats == ParseLines(lines[..i], relDir, origin)
    {
      assert lines[..i + 1][..i] == lines[..i];
      var p := ParseLine(lines[i], relDir, origin);
      if p.Some? {
        pats := pats + [p.value];
      }
    }
    assert lines[..|lines|] == lines;
  }

  // ---------------------------------------------------------------------
  // What a compiled pattern means
  // ---------------------------------------------------------------------

  // A directory named by a list of segments, in slash form; the root is the empty text.
  function DirText(dir: seq<string>): string { Join(dir, '/') }

  predicate DirOk(dir: seq<string>) { AllLiteral(dir) && AllLack(dir, '/') }

  lemma SplitDir(dir: seq<string>)
    requires DirOk(dir) && dir != []
    ensures Split(DirText(dir), '/') == dir && DirText(dir) != ""
  {
    SplitJoin(dir, '/');
    assert Literal(dir[0]);
    assert Split("", '/') == [""];
  }

  // The segments of a compiled glob: the directory, then ** for an unanchored pattern, then the body.
  lemma GlobSegments(dir: seq<string>, a: Analysis)
    requires DirOk(dir) && a.core != ""
    ensures Split(CompileGlob(DirText(dir), a), '/')
         == dir + (if a.anchored then [] else [ANY]) + Split(a.core, '/')
  {
    SplitPlain("**", '/');
    SplitConcat("**", a.core, '/');
    assert "**" + ['/'] + a.core == "**/" + a.core;
    if dir == [] {
      assert dir + [] == [];
    } else {
      SplitDir(dir);
      var d := DirText(dir);
      if a.anchored {
        SplitConcat(d, a.core, '/');
        assert d + ['/'] + a.core == d + "/" + a.core;
        assert dir + [] == dir;
      } else {
        SplitConcat(d, "**/" + a.core, '/');
        assert d + ['/'] + ("**/" + a.core) == d + "/**/" + a.core;
      }
    }
  }

  // An unanchored name without inner slash matches at any depth beneath its directory.
  lemma UnanchoredMeaning(dir: seq<string>, core: string, dirOnly: bool, path: seq<string>)
    requires DirOk(dir) && core != "" && core != ANY && Lacks(core, '/')
    ensures GlobMatch(Split(CompileGlob(DirText(dir), Analysis(false, dirOnly, core)), '/'), path)
       <==> Under(path, dir) && |path| > |dir| && SegMatch(core, path[|path| - 1])
  {
    hide Split, SegMatch, DirText, CompileGlob;
    var a := Analysis(false, dirOnly, core);
    GlobSegments(dir, a);
    SplitPlain(core, '/');
    assert dir + [ANY] + [core] == dir + [ANY, core];
    Scoped(dir, [ANY, core], path);
    if Under(path, dir) {
      AnyDepth(core, path[|dir|..]);
    }
  }

  // An anchored pattern matches only what its body matches directly beneath its directory.
  lemma AnchoredMeaning(dir: seq<string>, core: string, dirOnly: bool, path: seq<string>)
    requires DirOk(dir) && core != ""
    ensures GlobMatch(Split(CompileGlob(DirText(dir), Analysis(true, dirOnly, core)), '/'), path)
       <==> Under(path, dir) && GlobMatch(Split(core, '/'), path[|dir|..])
  {
    GlobSegments(dir, Analysis(true, dirOnly, core));
    assert dir + [] + Split(core, '/') == dir + Split(core, '/');
    Scoped(dir, Split(core, '/'), path);
  }

  // ---------------------------------------------------------------------
  // What a line of an ignore file means
  // ---------------------------------------------------------------------

  // The line, read from the file of a directory, matches the path.
  predicate LineHits(raw: string, dir: seq<string>, origin: string, path: seq<string>, isDir: bool) {
    match ParseLine(raw, DirText(dir), origin)
    case None => false
    case Some(p) => GlobMatch(Split(p.glob, '/'), path) && (p.dirOnly ==> isDir)
  }

  function Slash(b: bool): string { if b then "/" else "" }

  predicate Marked(s: string) { s != "" && (s[0] == '#' || s[0] == '!') }

  predicate Silent(line: string) { line == "" || line == "/" || line == "//" || Marked(line) }

  // Blank lines, comments, negations and bare slashes match nothing.
  lemma SilentLine(raw: string, dir: seq<string>, origin: string, path: seq<string>, isDir: bool)
    requires Silent(TrimSpace(raw))
    ensures !LineHits(raw, dir, origin, path, isDir)
  {
    hide TrimLeft, TrimRight;
    assert "/"[1..] == "" && "//"[1..] == "/" && "/"[..0] == "";
  }

  // A name without slash matches at any depth below its directory, and with a slash behind it directories alone.
  lemma NameLine(raw: string, name: string, slash: bool, dir: seq<string>, origin: string, path: seq<string>, isDir: bool)
    requires DirOk(dir) && TrimSpace(raw) == name + Slash(slash)
    requires name != "" && Lacks(name, '/') && !Marked(name)
    ensures LineHits(raw, dir, origin, path, isDir)
       <==> && Under(path, dir) && (slash ==> isDir)
            && (name == ANY || (|path| > |dir| && SegMatch(name, path[|path| - 1])))
  {
    hide TrimLeft, TrimRight, Under, GlobMatch, SegMatch, Split, DirOk, DirText;
    var line := TrimSpace(raw);
    assert line[|line| - 1] == (if slash then '/' else name[|name| - 1]);
    assert line[..|name|] == name;
    assert Analyze(line) == Analysis(false, slash, name);
    GlobNotEmpty(DirText(dir), Analysis(false, slash, name));
    if name == ANY {
      AnywhereMeaning(dir, slash, path);
    } else {
      UnanchoredMeaning(dir, name, slash, path);
    }
  }

  // A line with a slash in front or inside matches exactly what its body matches directly below its directory.
  lemma PathLine(raw: string, lead: bool, body: string, slash: bool, dir: seq<string>, origin: string,
                 path: seq<string>, isDir: bool)
    requires DirOk(dir) && TrimSpace(raw) == Slash(lead) + body + Slash(slash)
    requires body != "" && (lead || (body[0] != '/' && '/' in body)) && (slash || body[|body| - 1] != '/')
    requires lead || !Marked(body)
    ensures LineHits(raw, dir, origin, path, isDir)
       <==> Under(path, dir) && (slash ==> isDir) && GlobMatch(Split(body, '/'), path[|dir|..])
  {
    hide TrimLeft, TrimRight, Under, GlobMatch, Split, DirOk, DirText, Analyze;
    AnalyzePath(lead, body, slash);
    GlobNotEmpty(DirText(dir), Analysis(true, slash, body));
    AnchoredMeaning(dir, body, slash, path);
  }

  lemma AnalyzePath(lead: bool, body: string, slash: bool)
    requires body != "" && (lead || (body[0] != '/' && '/' in body)) && (slash || body[|body| - 1] != '/')
    ensures var line := Slash(lead) + body + Slash(slash);
            line != "" && line[0] == (if lead then '/' else body[0]) && Analyze(line) == Analysis(true, slash, body)
  {
    var c := body + Slash(slash);
    CutSlash(body, slash);
    LeadSlash(lead, c);
    assert Slash(lead) + body + Slash(slash) == Slash(lead) + c;
    hide Slash;
  }

  lemma LeadSlash(lead: bool, c: string)
    requires c != "" && (lead || c[0] != '/')
    ensures var line := Slash(lead) + c;
            line != "" && line[0] == (if lead then '/' else c[0]) && c == if line[0] == '/' then line[1..] else line
  {
    assert ("/" + c)[1..] == c && "" + c == c;
  }

  lemma CutSlash(body: string, slash: bool)
    requires body != "" && (slash || body[|body| - 1] != '/')
    ensures var c := body + Slash(slash);
            && c != "" && c[0] == body[0] && (c[|c| - 1] == '/' <==> slash)
            && body == if slash then c[..|c| - 1] else c
  {
    assert (body + "/")[..|body|] == body && body + "" == body;
  }

  // Every line is of one of these shapes.
  lemma LineShapes(line: string) returns (lead: bool, body: string, slash: bool)
    ensures || Silent(line)
            || (body != "" && line == Slash(lead) + body + Slash(slash) && (slash || body[|body| - 1] != '/')
                && (lead || (body[0] != '/' && !Marked(body))))
  {
    lead := line != "" && line[0] == '/';
    var c := if lead then line[1..] else line;
    slash := c != "" && c[|c| - 1] == '/';
    body := if slash then c[..|c| - 1] else c;
    assert c == body + Slash(slash) && line == Slash(lead) + c;
    assert line == Slash(lead) + body + Slash(slash);
    if body != "" && !lead {
      assert line[0] == body[0];
    }
  }

  lemma GlobNotEmpty(relDir: string, a: Analysis)
    requires a.core != ""
    ensures CompileGlob(relDir, a) != ""
  {
  }

  // ** below a directory matches the directory and everything in it.
  lemma AnywhereMeaning(dir: seq<string>, dirOnly: bool, path: seq<string>)
    requires DirOk(dir)
    ensures GlobMatch(Split(CompileGlob(DirText(dir), Analysis(false, dirOnly, ANY)), '/'), path) <==> Under(path, dir)
  {
    GlobSegments(dir, Analysis(false, dirOnly, ANY));
    SplitPlain(ANY, '/');
    assert dir + [ANY] + [ANY] == dir + [ANY, ANY];
    Scoped(dir, [ANY, ANY], path);
    if Under(path, dir) {
      MatchesAll(path[|dir|..]);
    }
  }

  lemma {:induction false} MatchesAll(path: seq<string>)
    ensures GlobMatch([ANY, ANY], path) && GlobMatch([ANY], path)
  {
    assert [ANY, ANY][1..] == [ANY] && [ANY][1..] == [];
    if path != [] {
      MatchesAll(path[1..]);
    }
  }

  // p can match nothing outside dir.
  ghost predicate ScopedTo(p: Pattern, dir: seq<string>) {
    forall path :: GlobMatch(Split(p.glob, '/'), path) ==> Under(path, dir)
  }

  // Every pattern parsed from a directory's file is scoped to that directory.
  lemma {:induction false} ParsedScoped(lines: seq<string>, dir: seq<string>, origin: string)
    requires DirOk(dir)
    ensures forall p :: p in ParseLines(lines, DirText(dir), origin) ==> ScopedTo(p, dir)
  {
    hide Analyze, TrimLeft, TrimRight, Split, GlobMatch;
    if lines != [] {
      ParsedScoped(lines[..|lines| - 1], dir, origin);
      var line := TrimSpace(lines[|lines| - 1]);
      if ParseLine(lines[|lines| - 1], DirText(dir), origin).Some? {
        var a := Analyze(line);
        var rest := (if a.anchored then [] else [ANY]) + Split(a.core, '/');
        GlobSegments(dir, a);
        assert dir + rest == dir + (if a.anchored then [] else [ANY]) + Split(a.core, '/');
        forall path | GlobMatch(dir + rest, path) ensures Under(path, dir) {
          Scoped(dir, rest, path);
        }
      }
    }
  }

  lemma ScopedUp(p: Pattern, dir: seq<string>, k: nat)
    requires ScopedTo(p, dir) && k <= |dir|
    ensures ScopedTo(p, dir[..k])
  {
    forall path | GlobMatch(Split(p.glob, '/'), path) ensures Under(path, dir[..k]) {
      assert path[..|dir|][..k] == path[..k];
    }
  }

  // ---------------------------------------------------------------------
  // Matching a path and its ancestors
  // ---------------------------------------------------------------------

  predicate Hits(p: Pattern, path: string, isDir: bool, origin: string) {
    && (origin == "" || p.origin == origin)
    && Glob.Match(p.glob, path)
    && (p.dirOnly ==> isDir)
  }

  predicate MatchOne(pats: seq<Pattern>, path: string, isDir: bool, origin: string) {
    exists i :: 0 <= i < |pats| && Hits(pats[i], path, isDir, origin)
  }

  // The accumulated path after segment i, as the loop builds it.
  function Cum(segs: seq<string>, i: nat): string
    requires i < |segs|
  {
    if i == 0 then segs[0]
    else
      var c := Cum(segs, i - 1);
      if c == "" then segs[i] else c + "/" + segs[i]
  }

  predicate MatchAncestors(pats: seq<Pattern>, segs: seq<string>, isDir: bool, origin: string) {
    exists i :: 0 <= i < |segs| && MatchOne(pats, Cum(segs, i), i < |segs| - 1 || isDir, origin)
  }

  // filepath.Clean on slash paths: out is the cleaned stack so far.
  function CleanSegs(segs: seq<string>, out: seq<string>, rooted: bool): seq<string> {
    if segs == [] then out else CleanSegs(segs[1..], CleanStep(segs[0], out, rooted), rooted)
  }

  function CleanStep(s: string, out: seq<string>, rooted: bool): seq<string> {
    if s == "" || s == "." then out
    else if s == ".." then
      if out != [] && out[|out| - 1] != ".." then out[..|out| - 1]
      else if rooted then out
      else out + [s]
    else out + [s]
  }

  function Clean(path: string): string {
    if path == "" then "."
    else
      var rooted := path[0] == '/';
      var out := CleanSegs(Split(path, '/'), [], rooted);
      if rooted then "/" + Join(out, '/') else if out == [] then "." else Join(out, '/')
  }

  predicate OutsideRoot(path: string) {
    path == "" || path == "." || path == ".." || (|path| >= 3 && path[..3] == "../")
  }

  predicate MatchPath(pats: seq<Pattern>, relPath: string, isDir: bool, origin: string) {
    var p := Clean(relPath);
    !OutsideRoot(p) && MatchAncestors(pats, Split(p, '/'), isDir, origin)
  }

  method MatchOneLoop(pats: seq<Pattern>, path: string, isDir: bool, origin: string) returns (hit: bool)
    ensures hit == MatchOne(pats, path, isDir, origin)
  {
    for i := 0 to |pats|
      invariant forall j :: 0 <= j < i ==> !Hits(pats[j], path, isDir, origin)
    {
      var p := pats[i];
      if origin != "" && p.origin != origin {
        continue;
      }
      if !Glob.Match(p.glob, path) {
        continue;
      }
      if p.dirOnly && !isDir {
        continue;
      }
      return true;
    }
    return false;
  }

  method MatchLoop(pats: seq<Pattern>, relPath: string, isDir: bool, origin: string) returns (hit: bool)
    ensures hit == MatchPath(pats, relPath, isDir, origin)
  {
    hide MatchOne, Clean;
    var path := Clean(relPath);
    if OutsideRoot(path) {
      return false;
    }
    var segments := Split(path, '/');
    var cum := "";
    for i := 0 to |segments|
      invariant cum == if i == 0 then "" else Cum(segments, i - 1)
      invariant forall j :: 0 <= j < i ==> !MatchOne(pats, Cum(segments, j), j < |segments| - 1 || isDir, origin)
    {
      if cum == "" {
        cum := segments[i];
      } else {
        cum := cum + "/" + segments[i];
      }
      var segIsDir := i < |segments| - 1 || isDir;
      var one := MatchOneLoop(pats, cum, segIsDir, origin);
      if one {
        assert cum == Cum(segments, i) && MatchAncestors(pats, segments, isDir, origin);
        return true;
      }
    }
    return false;
  }

  // Segments that cleaning leaves alone.
  predicate Plain(segs: seq<string>) {
    segs != [] && forall i :: 0 <= i < |segs| ==> segs[i] != "" && segs[i] != "." && segs[i] != ".." && Lacks(segs[i], '/')
  }

  lemma {:induction false} CleanPlain(segs: seq<string>, out: seq<string>)
    requires segs == [] || Plain(segs)
    ensures CleanSegs(segs, out, false) == out + segs
  {
    if segs != [] {
      CleanPlain(segs[1..], out + [segs[0]]);
      assert out + [segs[0]] + segs[1..] == out + segs;
    } else {
      assert out + [] == out;
    }
  }

  lemma {:induction false} CumIs(segs: seq<string>, i: nat)
    requires Plain(segs) && i < |segs|
    ensures Cum(segs, i) == Join(segs[..i + 1], '/') && Cum(segs, i) != "" && Split(Cum(segs, i), '/') == segs[..i + 1]
  {
    var part := segs[..i + 1];
    assert AllLack(part, '/') by { assert forall k :: 0 <= k < |part| ==> part[k] == segs[k]; }
    SplitJoin(part, '/');
    if i > 0 {
      CumIs(segs, i - 1);
      JoinTake(part, i, '/');
      assert part[..i] == segs[..i] && part[i..] == [segs[i]];
    }
  }

  lemma PathIsClean(segs: seq<string>)
    requires Plain(segs)
    ensures Clean(Join(segs, '/')) == Join(segs, '/') && !OutsideRoot(Join(segs, '/')) && Split(Join(segs, '/'), '/') == segs
  {
    var path := Join(segs, '/');
    assert AllLack(segs, '/');
    SplitJoin(segs, '/');
    hide Split, Join;
    JoinHead(segs, '/');
    CleanPlain(segs, []);
    assert [] + segs == segs;
    if |path| >= 3 && path[..3] == "../" {
      assert path == ".." + ['/'] + path[3..];
      SplitConcat("..", path[3..], '/');
      SplitPlain("..", '/');
    }
    if path == "." || path == ".." {
      SplitPlain(path, '/');
    }
  }

  // The segments of a path that is neither empty nor rooted.
  predicate Relative(segs: seq<string>) { segs != [] && segs[0] != "" && AllLack(segs, '/') }

  // What says nothing: an empty segment, a dot, or a name and the way back.
  predicate Idle(segs: seq<string>) {
    || segs == [""] || segs == ["."]
    || (|segs| == 2 && segs[0] != "" && segs[0] != "." && segs[0] != ".." && segs[1] == "..")
  }

  lemma {:induction false} CleanConcat(a: seq<string>, b: seq<string>, out: seq<string>)
    ensures CleanSegs(a + b, out, false) == CleanSegs(b, CleanSegs(a, out, false), false)
  {
    if a == [] {
      assert a + b == b;
    } else {
      hide CleanStep;
      assert (a + b)[1..] == a[1..] + b;
      CleanConcat(a[1..], b, CleanStep(a[0], out, false));
    }
  }

  lemma CleanOne(s: string, out: seq<string>)
    ensures CleanSegs([s], out, false) == CleanStep(s, out, false)
  {
    assert [s][1..] == [];
  }

  lemma IdleDropped(mid: seq<string>, out: seq<string>)
    requires Idle(mid)
    ensures CleanSegs(mid, out, false) == out
  {
    if |mid| == 1 {
      CleanOne(mid[0], out);
    } else {
      assert mid == [mid[0]] + [mid[1]];
      CleanConcat([mid[0]], [mid[1]], out);
      CleanOne(mid[0], out);
      CleanOne(mid[1], out + [mid[0]]);
    }
  }

  lemma CleanRelative(segs: seq<string>)
    requires Relative(segs)
    ensures var out := CleanSegs(segs, [], false); Clean(Join(segs, '/')) == if out == [] then "." else Join(out, '/')
  {
    hide Split, Join;
    SplitJoin(segs, '/');
    JoinHead(segs, '/');
    assert Lacks(segs[0], '/');
    assert Join(segs, '/')[0] == segs[0][0];
  }

  // An empty segment, a dot, or a name and the way back changes no verdict.
  lemma IdleSegments(pats: seq<Pattern>, a: seq<string>, mid: seq<string>, b: seq<string>, isDir: bool, origin: string)
    requires Idle(mid) && Relative(a + mid + b) && Relative(a + b)
    ensures MatchPath(pats, Join(a + mid + b, '/'), isDir, origin) == MatchPath(pats, Join(a + b, '/'), isDir, origin)
  {
    hide Clean, Join, OutsideRoot, MatchAncestors, Idle, CleanSegs;
    CleanRelative(a + mid + b);
    CleanRelative(a + b);
    CleanConcat(a + mid, b, []);
    CleanConcat(a, mid, []);
    CleanConcat(a, b, []);
    IdleDropped(mid, CleanSegs(a, [], false));
  }

  lemma {:induction false} UpsStay(ups: seq<string>, out: seq<string>)
    requires forall i :: 0 <= i < |ups| ==> ups[i] == ".."
    requires forall i :: 0 <= i < |out| ==> out[i] == ".."
    ensures CleanSegs(ups, out, false) == out + ups
  {
    if ups == [] {
      assert out + ups == out;
    } else {
      UpsStay(ups[1..], out + [".."]);
      assert out + [".."] + ups[1..] == out + ups;
    }
  }

  // The root itself and what lies outside it is never ignored.
  lemma OutsideNeverIgnored(pats: seq<Pattern>, ups: seq<string>, rest: seq<string>, isDir: bool, origin: string)
    requires ups != [] && forall i :: 0 <= i < |ups| ==> ups[i] == ".."
    requires rest == [] || Plain(rest)
    ensures !MatchPath(pats, "", isDir, origin) && !MatchPath(pats, ".", isDir, origin)
    ensures !MatchPath(pats, Join(ups + rest, '/'), isDir, origin)
  {
    hide Join, MatchAncestors;
    var segs := ups + rest;
    assert AllLack(segs, '/') by { assert forall i :: 0 <= i < |segs| ==> segs[i] == if i < |ups| then ups[i] else rest[i - |ups|]; }
    assert segs[0] == "..";
    UpsStay(ups, []);
    assert [] + ups == ups;
    CleanConcat(ups, rest, []);
    CleanPlain(rest, ups);
    CleanRelative(segs);
    JoinHead(segs, '/');
    var path := Join(segs, '/');
    assert path[..2] == "..";
    assert |path| > 2 ==> path[..3] == "../";
    DotIsRoot();
  }

  lemma DotIsRoot()
    ensures Clean(".") == "." && Clean("") == "."
  {
    SplitPlain(".", '/');
    CleanOne(".", []);
  }

  lemma JoinHead(parts: seq<string>, sep: char)
    requires parts != []
    ensures var j := Join(parts, sep);
            |parts[0]| <= |j| && j[..|parts[0]|] == parts[0] && (|j| > |parts[0]| ==> j[|parts[0]|] == sep)
  {
    assert parts[0][..|parts[0]|] == parts[0];
  }

  ghost predicate SomeLineHits(lines: seq<string>, dir: seq<string>, origin: string, path: seq<string>, isDir: bool) {
    exists l: nat :: l < |lines| && LineHits(lines[l], dir, origin, path, isDir)
  }

  // Some line matches the first i + 1 segments, which name a directory unless they are all.
  ghost predicate HitsAt(lines: seq<string>, dir: seq<string>, origin: string, segs: seq<string>, i: nat, isDir: bool)
    requires i < |segs|
  {
    SomeLineHits(lines, dir, origin, segs[..i + 1], i < |segs| - 1 || isDir)
  }

  lemma HitsAtIs(lines: seq<string>, dir: seq<string>, origin: string, segs: seq<string>, i: nat, isDir: bool)
    requires i < |segs|
    ensures HitsAt(lines, dir, origin, segs, i, isDir)
       <==> SomeLineHits(lines, dir, origin, segs[..i + 1], i < |segs| - 1 || isDir)
  {
  }

  // A path is ignored by a directory's file if and only if one of its lines matches the path or, as a directory, one
  // of the directories above it.
  lemma FileMeaning(lines: seq<string>, dir: seq<string>, origin: string, segs: seq<string>, isDir: bool)
    requires Plain(segs)
    ensures MatchPath(ParseLines(lines, DirText(dir), origin), Join(segs, '/'), isDir, "")
       <==> exists i: nat :: i < |segs| && HitsAt(lines, dir, origin, segs, i, isDir)
  {
    hide HitsAt, MatchOne, ParseLines, Clean, OutsideRoot, DirText, Join, Split;
    PathIsClean(segs);
    var pats := ParseLines(lines, DirText(dir), origin);
    forall i | 0 <= i < |segs|
      ensures MatchOne(pats, Cum(segs, i), i < |segs| - 1 || isDir, "")
         <==> HitsAt(lines, dir, origin, segs, i, isDir)
    {
      HitsAtIs(lines, dir, origin, segs, i, isDir);
      CumIs(segs, i);
      LinesHit(lines, dir, origin, Cum(segs, i), segs[..i + 1], i < |segs| - 1 || isDir);
    }
  }

  lemma {:induction false} LinesHit(lines: seq<string>, dir: seq<string>, origin: string, text: string, path: seq<string>, isDir: bool)
    requires Split(text, '/') == path
    ensures MatchOne(ParseLines(lines, DirText(dir), origin), text, isDir, "")
       <==> SomeLineHits(lines, dir, origin, path, isDir)
  {
    hide ParseLine, DirText, GlobMatch, Split;
    if lines != [] {
      var n := |lines| - 1;
      var init, all := ParseLines(lines[..n], DirText(dir), origin), ParseLines(lines, DirText(dir), origin);
      LinesHit(lines[..n], dir, origin, text, path, isDir);
      var p := ParseLine(lines[n], DirText(dir), origin);
      assert LineHits(lines[n], dir, origin, path, isDir) <==> p.Some? && Hits(p.value, text, isDir, "");
      if MatchOne(init, text, isDir, "") {
        var i :| 0 <= i < |init| && Hits(init[i], text, isDir, "");
        assert all[i] == init[i];
        var l: nat :| l < n && LineHits(lines[..n][l], dir, origin, path, isDir);
        assert lines[..n][l] == lines[l];
      }
      if p.Some? && Hits(p.value, text, isDir, "") {
        assert all[|init|] == p.value;
      }
      if MatchOne(all, text, isDir, "") {
        var i :| 0 <= i < |all| && Hits(all[i], text, isDir, "");
        assert i < |init| ==> all[i] == init[i];
      }
      forall l: nat | l < |lines| && LineHits(lines[l], dir, origin, path, isDir)
        ensures MatchOne(all, text, isDir, "")
      {
        if l < n {
          assert lines[..n][l] == lines[l];
        }
      }
    }
  }

  // Every directory prefix of an accumulated path is itself one of the accumulated paths.
  lemma {:induction false} CumSplit(segs: seq<string>, i: nat, j: nat) returns (k: nat)
    requires i < |segs| && AllLack(segs, '/')
    requires 0 < j <= |Split(Cum(segs, i), '/')|
    ensures k <= i && Cum(segs, k) == Join(Split(Cum(segs, i), '/')[..j], '/')
    ensures k == i ==> j == |Split(Cum(segs, i), '/')|
    ensures j == |Split(Cum(segs, i), '/')| ==> k == i
  {
    assert Lacks(segs[i], '/');
    var parts := Split(Cum(segs, i), '/');
    JoinSplit(Cum(segs, i), '/');
    if i == 0 || Cum(segs, i - 1) == "" {
      SplitPlain(segs[i], '/');
      k := i;
      assert parts[..j] == parts;
    } else {
      var c := Cum(segs, i - 1);
      SplitConcat(c, segs[i], '/');
      SplitPlain(segs[i], '/');
      assert c + ['/'] + segs[i] == Cum(segs, i);
      if j == |parts| {
        assert parts[..j] == parts;
        k := i;
      } else {
        k := CumSplit(segs, i - 1, j);
        assert parts[..j] == Split(c, '/')[..j];
      }
    }
  }
}
